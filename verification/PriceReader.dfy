/** The cursor that brick decoding advances in place, one field after another. */
module PriceReader {
  import opened Common
  import opened Bytes
  import opened PriceBricks

  /** A read returned what `parsed` says and left the rest it says; a failed read reports its error. */
  ghost predicate Read<T>(parsed: Parsed<T>, r: Result<T, RouteError>, rest: bytes) {
    match parsed
    case Success(p) => r == Success(p.0) && rest == p.1
    case Failure(error) => r == Failure(error)
  }

  class Reader {
    var bytes: bytes
    ghost const region: bytes

    /** What is left is a suffix of the region: nothing outside the region is ever read. */
    ghost predicate Valid()
      reads this
    {
      |bytes| <= |region| && bytes == region[|region| - |bytes|..]
    }

    constructor (region: bytes)
      ensures Valid() && this.region == region && bytes == region
    {
      this.region, bytes := region, region;
    }

    /** `take`: exactly `len` bytes, or nothing. */
    method TakeBytes(len: nat) returns (r: Result<bytes, RouteError>)
      requires Valid()
      modifies this
      ensures Valid() && Read(Take(old(bytes), len), r, bytes)
      ensures if len <= |old(bytes)| then r.Success? && |r.value| == len && r.value + bytes == old(bytes)
              else r == Failure(Truncated) && bytes == old(bytes)
    {
      if |bytes| < len {
        return Failure(Truncated);
      }
      r := Success(bytes[..len]);
      bytes := bytes[len..];
    }

    method ReadInt(width: nat) returns (r: Result<nat, RouteError>)
      requires Valid()
      modifies this
      ensures Valid() && |bytes| <= |old(bytes)| && Read(GetInt(old(bytes), width), r, bytes)
    {
      var head :- TakeBytes(width);
      r := Success(FromLe(head));
    }

    method ReadField() returns (r: Result<RatioField, RouteError>)
      requires Valid()
      modifies this
      ensures Valid() && |bytes| <= |old(bytes)| && Read(GetField(old(bytes)), r, bytes)
    {
      var at :- ReadInt(2);
      var width :- ReadInt(1);
      r := Success(RatioField(at, width));
    }

    method ReadTag() returns (r: Result<bool, RouteError>)
      requires Valid()
      modifies this
      ensures Valid() && |bytes| <= |old(bytes)| && Read(GetTag(old(bytes)), r, bytes)
    {
      var tag :- ReadInt(1);
      r := if tag == 0 then Success(false) else if tag == 1 then Success(true) else Failure(BadOptionTag);
    }

    method ReadMintAt() returns (r: Result<Option<nat>, RouteError>)
      requires Valid()
      modifies this
      ensures Valid() && |bytes| <= |old(bytes)| && Read(GetMintAt(old(bytes)), r, bytes)
    {
      var some :- ReadTag();
      if !some {
        return Success(None);
      }
      var at :- ReadInt(2);
      r := Success(Some(at));
    }

    method ReadUnit() returns (r: Result<FreshnessUnit, RouteError>)
      requires Valid()
      modifies this
      ensures Valid() && |bytes| <= |old(bytes)| && Read(GetUnit(old(bytes)), r, bytes)
    {
      var unit :- ReadInt(1);
      r := if unit == 0 then Success(Epoch) else if unit == 1 then Success(Slot)
           else if unit == 2 then Success(UnixSecond) else Failure(UnknownFreshness);
    }

    method ReadFreshness() returns (r: Result<Option<RatioFreshness>, RouteError>)
      requires Valid()
      modifies this
      ensures Valid() && |bytes| <= |old(bytes)| && Read(GetFreshness(old(bytes)), r, bytes)
    {
      var some :- ReadTag();
      if !some {
        return Success(None);
      }
      var unit :- ReadUnit();
      var at :- ReadInt(2);
      var maxLag :- ReadInt(4);
      r := Success(Some(RatioFreshness(unit, at, maxLag)));
    }

    method ReadSource() returns (r: Result<Option<MaturitySource>, RouteError>)
      requires Valid()
      modifies this
      ensures Valid() && |bytes| <= |old(bytes)| && Read(GetSource(old(bytes)), r, bytes)
    {
      var some :- ReadTag();
      if !some {
        return Success(None);
      }
      var brick :- ReadInt(1);
      var startAt :- ReadInt(2);
      var durationAt :- ReadInt(2);
      r := Success(Some(MaturitySource(brick, startAt, durationAt)));
    }

    method ReadDiscriminator() returns (r: Result<bytes, RouteError>)
      requires Valid()
      modifies this
      ensures Valid() && |bytes| <= |old(bytes)| && Read(GetDiscriminator(old(bytes)), r, bytes)
    {
      var len :- ReadInt(1);
      if len > 8 {
        return Failure(LongDiscriminator);
      }
      r := TakeBytes(len);
    }

    method ReadSigned() returns (r: Result<int, RouteError>)
      requires Valid()
      modifies this
      ensures Valid() && |bytes| <= |old(bytes)| && Read(GetSigned(old(bytes)), r, bytes)
    {
      var byte :- ReadInt(1);
      var x: int := byte;
      r := Success(if x < 128 then x else x - 256);
    }

    method ReadShape() returns (r: Result<RatioShape, RouteError>)
      requires Valid()
      modifies this
      ensures Valid() && |bytes| <= |old(bytes)| && Read(GetShape(old(bytes)), r, bytes)
    {
      var discriminator :- ReadDiscriminator();
      var minLen :- ReadInt(2);
      var mintAt :- ReadMintAt();
      var numerator :- ReadField();
      var denominator :- ReadField();
      r := Success(RatioShape(discriminator, minLen, mintAt, numerator, denominator));
    }

    method ReadBounds() returns (r: Result<RatioBounds, RouteError>)
      requires Valid()
      modifies this
      ensures Valid() && |bytes| <= |old(bytes)| && Read(GetBounds(old(bytes)), r, bytes)
    {
      var scaleExp :- ReadSigned();
      var minDenominator :- ReadInt(8);
      var min :- ReadInt(16);
      var max :- ReadInt(16);
      var freshness :- ReadFreshness();
      r := Success(RatioBounds(scaleExp, minDenominator, min, max, freshness));
    }

    method ReadRatio() returns (r: Result<AccountRatio, RouteError>)
      requires Valid()
      modifies this
      ensures Valid() && |bytes| <= |old(bytes)| && Read(GetRatio(old(bytes)), r, bytes)
    {
      var account :- TakeBytes(32);
      var owner :- TakeBytes(32);
      var programData :- TakeBytes(32);
      var deploySlot :- ReadInt(8);
      var shape :- ReadShape();
      var bounds :- ReadBounds();
      r := Success(AccountRatio(account, owner, programData, deploySlot, shape, bounds));
    }

    method ReadPyth() returns (r: Result<PriceBrick, RouteError>)
      requires Valid()
      modifies this
      ensures Valid() && |bytes| <= |old(bytes)| && Read(GetPyth(old(bytes)), r, bytes)
    {
      var feedId :- TakeBytes(32);
      var maxAge :- ReadInt(4);
      var minBand :- ReadInt(4);
      r := Success(Pyth(feedId, maxAge, minBand));
    }

    method ReadDiscount() returns (r: Result<PriceBrick, RouteError>)
      requires Valid()
      modifies this
      ensures Valid() && |bytes| <= |old(bytes)| && Read(GetDiscount(old(bytes)), r, bytes)
    {
      var maturity :- ReadInt(8);
      var low :- ReadInt(4);
      var mid :- ReadInt(4);
      var high :- ReadInt(4);
      var source :- ReadSource();
      r := Success(MaturityDiscount(maturity, low, mid, high, source));
    }

    method ReadCap() returns (r: Result<PriceBrick, RouteError>)
      requires Valid()
      modifies this
      ensures Valid() && |bytes| <= |old(bytes)| && Read(GetCap(old(bytes)), r, bytes)
    {
      var rate :- ReadInt(16);
      var ts :- ReadInt(8);
      var growth :- ReadInt(4);
      var age :- ReadInt(4);
      r := Success(GrowthCap(rate, ts, growth, age));
    }

    /** `decode`, field by field. */
    method ReadBrick() returns (r: Result<PriceBrick, RouteError>)
      requires Valid()
      modifies this
      ensures Valid() && |bytes| <= |old(bytes)| && Read(Decode(old(bytes)), r, bytes)
    {
      var kind :- ReadInt(1);
      if kind == 0 {
        r := ReadPyth();
      } else if kind == 1 {
        var ratio :- ReadRatio();
        r := Success(Ratio(ratio));
      } else if kind == 2 {
        r := ReadDiscount();
      } else if kind == 3 {
        var max :- ReadInt(16);
        r := Success(ClampMax(max));
      } else if kind == 4 {
        r := ReadCap();
      } else {
        r := Failure(UnknownBrick);
      }
    }

    /**
     * A brick is returned exactly when its encoding is next, which is then consumed and no more; a failure is the
     * decoder's first error, with what is left still a suffix of the region.
     */
    method DecodeBrick() returns (r: Result<PriceBrick, RouteError>)
      requires Valid()
      modifies this
      ensures Valid() && |bytes| <= |old(bytes)| && Read(Decode(old(bytes)), r, bytes)
      ensures r.Success? ==> WellFormed(r.value) && old(bytes) == Encode(r.value, bytes) && |bytes| < |old(bytes)|
    {
      if Decode(bytes).Success? {
        DecodeBack(bytes);
      }
      r := ReadBrick();
    }
  }
}
