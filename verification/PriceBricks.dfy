/** Price bricks, the factors of a price route: their byte encoding and its decoder. */
module PriceBricks {
  import opened Common
  import opened Bytes

  datatype RouteError =
    | AccountLength(actual: nat)
    | Discriminator(actual: nat)
    | Version(actual: nat)
    | TooManyBytes
    | Truncated
    | LongDiscriminator
    | BadOptionTag
    | UnknownFreshness
    | UnknownBrick
    | TooManyBricks
    | NoBricks
    | AccountCountMismatch

  datatype RatioField = RatioField(at: nat, width: nat)

  datatype FreshnessUnit = Epoch | Slot | UnixSecond

  datatype RatioFreshness = RatioFreshness(unit: FreshnessUnit, at: nat, maxLag: nat)

  /** How the account's ratio fields are found. */
  datatype RatioShape = RatioShape(
    discriminator: bytes, minLen: nat, mintAt: Option<nat>, numerator: RatioField, denominator: RatioField)

  /** How the ratio is scaled, bounded and aged. */
  datatype RatioBounds = RatioBounds(
    scaleExp: int, minDenominator: nat, min: nat, max: nat, freshness: Option<RatioFreshness>)

  datatype AccountRatio = AccountRatio(
    account: bytes, owner: bytes, programData: bytes, deploySlot: nat, shape: RatioShape, bounds: RatioBounds)

  datatype MaturitySource = MaturitySource(brick: nat, startAt: nat, durationAt: nat)

  datatype PriceBrick =
    | Pyth(feedId: bytes, maxAgeSecs: nat, minBandPpm: nat)
    | Ratio(ratio: AccountRatio)
    | MaturityDiscount(maturity: nat, apyLow: nat, apyMid: nat, apyHigh: nat, source: Option<MaturitySource>)
    | ClampMax(max: nat)
    | GrowthCap(anchorRate: nat, anchorTs: nat, maxGrowthPpm: nat, maxAnchorAgeSecs: nat)

  // ---- reading: each function consumes a prefix and returns the rest ----

  type Parsed<+T> = Result<(T, bytes), RouteError>

  function Take(b: bytes, len: nat): Parsed<bytes> {
    if |b| < len then Failure(Truncated) else Success((b[..len], b[len..]))
  }

  function GetInt(b: bytes, width: nat): Parsed<nat> {
    var (head, rest) :- Take(b, width);
    Success((FromLe(head), rest))
  }

  function GetField(b: bytes): Parsed<RatioField> {
    var (at, b) :- GetInt(b, 2);
    var (width, b) :- GetInt(b, 1);
    Success((RatioField(at, width), b))
  }

  /** `Some` of what `present` reads after a tag of one; the tag is zero or one. */
  function GetTag(b: bytes): Parsed<bool> {
    var (tag, b) :- GetInt(b, 1);
    if tag == 0 then Success((false, b)) else if tag == 1 then Success((true, b)) else Failure(BadOptionTag)
  }

  function GetMintAt(b: bytes): Parsed<Option<nat>> {
    var (some, b) :- GetTag(b);
    if !some then Success((None, b))
    else
      var (at, b) :- GetInt(b, 2);
      Success((Some(at), b))
  }

  function GetUnit(b: bytes): Parsed<FreshnessUnit> {
    var (unit, b) :- GetInt(b, 1);
    if unit == 0 then Success((Epoch, b))
    else if unit == 1 then Success((Slot, b))
    else if unit == 2 then Success((UnixSecond, b))
    else Failure(UnknownFreshness)
  }

  function GetFreshness(b: bytes): Parsed<Option<RatioFreshness>> {
    var (some, b) :- GetTag(b);
    if !some then Success((None, b))
    else
      var (unit, b) :- GetUnit(b);
      var (at, b) :- GetInt(b, 2);
      var (maxLag, b) :- GetInt(b, 4);
      Success((Some(RatioFreshness(unit, at, maxLag)), b))
  }

  function GetSource(b: bytes): Parsed<Option<MaturitySource>> {
    var (some, b) :- GetTag(b);
    if !some then Success((None, b))
    else
      var (brick, b) :- GetInt(b, 1);
      var (startAt, b) :- GetInt(b, 2);
      var (durationAt, b) :- GetInt(b, 2);
      Success((Some(MaturitySource(brick, startAt, durationAt)), b))
  }

  /** A length byte of at most eight, then that many bytes. */
  function GetDiscriminator(b: bytes): Parsed<bytes> {
    var (len, b) :- GetInt(b, 1);
    if len > 8 then Failure(LongDiscriminator) else Take(b, len)
  }

  /** `i8::from_le_bytes` */
  function GetSigned(b: bytes): Parsed<int> {
    var (x, b) :- GetInt(b, 1);
    Success((if x < 128 then x else x - 256, b))
  }

  function GetShape(b: bytes): Parsed<RatioShape> {
    var (discriminator, b) :- GetDiscriminator(b);
    var (minLen, b) :- GetInt(b, 2);
    var (mintAt, b) :- GetMintAt(b);
    var (numerator, b) :- GetField(b);
    var (denominator, b) :- GetField(b);
    Success((RatioShape(discriminator, minLen, mintAt, numerator, denominator), b))
  }

  function GetBounds(b: bytes): Parsed<RatioBounds> {
    var (scaleExp, b) :- GetSigned(b);
    var (minDenominator, b) :- GetInt(b, 8);
    var (min, b) :- GetInt(b, 16);
    var (max, b) :- GetInt(b, 16);
    var (freshness, b) :- GetFreshness(b);
    Success((RatioBounds(scaleExp, minDenominator, min, max, freshness), b))
  }

  function GetRatio(b: bytes): Parsed<AccountRatio> {
    var (account, b) :- Take(b, 32);
    var (owner, b) :- Take(b, 32);
    var (programData, b) :- Take(b, 32);
    var (deploySlot, b) :- GetInt(b, 8);
    var (shape, b) :- GetShape(b);
    var (bounds, b) :- GetBounds(b);
    Success((AccountRatio(account, owner, programData, deploySlot, shape, bounds), b))
  }

  function GetPyth(b: bytes): Parsed<PriceBrick> {
    var (feedId, b) :- Take(b, 32);
    var (maxAge, b) :- GetInt(b, 4);
    var (minBand, b) :- GetInt(b, 4);
    Success((Pyth(feedId, maxAge, minBand), b))
  }

  function GetDiscount(b: bytes): Parsed<PriceBrick> {
    var (maturity, b) :- GetInt(b, 8);
    var (low, b) :- GetInt(b, 4);
    var (mid, b) :- GetInt(b, 4);
    var (high, b) :- GetInt(b, 4);
    var (source, b) :- GetSource(b);
    Success((MaturityDiscount(maturity, low, mid, high, source), b))
  }

  function GetCap(b: bytes): Parsed<PriceBrick> {
    var (rate, b) :- GetInt(b, 16);
    var (ts, b) :- GetInt(b, 8);
    var (growth, b) :- GetInt(b, 4);
    var (age, b) :- GetInt(b, 4);
    Success((GrowthCap(rate, ts, growth, age), b))
  }

  function Decode(b: bytes): Parsed<PriceBrick> {
    var (kind, b) :- GetInt(b, 1);
    if kind == 0 then GetPyth(b)
    else if kind == 1 then
      var (ratio, b) :- GetRatio(b);
      Success((Ratio(ratio), b))
    else if kind == 2 then GetDiscount(b)
    else if kind == 3 then
      var (max, b) :- GetInt(b, 16);
      Success((ClampMax(max), b))
    else if kind == 4 then GetCap(b)
    else Failure(UnknownBrick)
  }

  // ---- writing: each function prepends an encoding ----

  function PutInt(n: nat, width: nat, rest: bytes): bytes {
    ToLe(n, width) + rest
  }

  function PutField(f: RatioField, rest: bytes): bytes {
    PutInt(f.at, 2, PutInt(f.width, 1, rest))
  }

  function PutMintAt(m: Option<nat>, rest: bytes): bytes {
    if m.None? then PutInt(0, 1, rest) else PutInt(1, 1, PutInt(m.value, 2, rest))
  }

  function UnitCode(u: FreshnessUnit): nat {
    match u case Epoch => 0 case Slot => 1 case UnixSecond => 2
  }

  function PutFreshness(f: Option<RatioFreshness>, rest: bytes): bytes {
    if f.None? then PutInt(0, 1, rest)
    else PutInt(1, 1, PutInt(UnitCode(f.value.unit), 1, PutInt(f.value.at, 2, PutInt(f.value.maxLag, 4, rest))))
  }

  function PutSource(s: Option<MaturitySource>, rest: bytes): bytes {
    if s.None? then PutInt(0, 1, rest)
    else PutInt(1, 1, PutInt(s.value.brick, 1, PutInt(s.value.startAt, 2, PutInt(s.value.durationAt, 2, rest))))
  }

  function PutDiscriminator(d: bytes, rest: bytes): bytes {
    PutInt(|d|, 1, d + rest)
  }

  function PutSigned(x: int, rest: bytes): bytes {
    PutInt(x % 256, 1, rest)
  }

  function PutBounds(r: RatioBounds, rest: bytes): bytes {
    PutSigned(r.scaleExp, PutInt(r.minDenominator, 8,
        PutInt(r.min, 16, PutInt(r.max, 16, PutFreshness(r.freshness, rest)))))
  }

  function PutShape(r: RatioShape, rest: bytes): bytes {
    PutDiscriminator(r.discriminator, PutInt(r.minLen, 2, PutMintAt(r.mintAt,
      PutField(r.numerator, PutField(r.denominator, rest)))))
  }

  function PutRatio(r: AccountRatio, rest: bytes): bytes {
    r.account + (r.owner + (r.programData + PutInt(r.deploySlot, 8, PutShape(r.shape, PutBounds(r.bounds, rest)))))
  }

  function PutPyth(k: PriceBrick, rest: bytes): bytes
    requires k.Pyth?
  {
    k.feedId + PutInt(k.maxAgeSecs, 4, PutInt(k.minBandPpm, 4, rest))
  }

  function PutDiscount(k: PriceBrick, rest: bytes): bytes
    requires k.MaturityDiscount?
  {
    PutInt(k.maturity, 8, PutInt(k.apyLow, 4, PutInt(k.apyMid, 4, PutInt(k.apyHigh, 4, PutSource(k.source, rest)))))
  }

  function PutCap(k: PriceBrick, rest: bytes): bytes
    requires k.GrowthCap?
  {
    PutInt(k.anchorRate, 16, PutInt(k.anchorTs, 8, PutInt(k.maxGrowthPpm, 4, PutInt(k.maxAnchorAgeSecs, 4, rest))))
  }

  function Encode(brick: PriceBrick, rest: bytes): bytes {
    match brick
    case Pyth(_, _, _) => PutInt(0, 1, PutPyth(brick, rest))
    case Ratio(ratio) => PutInt(1, 1, PutRatio(ratio, rest))
    case MaturityDiscount(_, _, _, _, _) => PutInt(2, 1, PutDiscount(brick, rest))
    case ClampMax(max) => PutInt(3, 1, PutInt(max, 16, rest))
    case GrowthCap(_, _, _, _) => PutInt(4, 1, PutCap(brick, rest))
  }

  // ---- the values the fields can hold ----

  predicate Fits(n: nat, width: nat) {
    n < Pow256(width)
  }

  predicate FieldOk(f: RatioField) {
    Fits(f.at, 2) && Fits(f.width, 1)
  }

  predicate FreshnessOk(f: Option<RatioFreshness>) {
    f.Some? ==> Fits(f.value.at, 2) && Fits(f.value.maxLag, 4)
  }

  predicate SourceOk(s: Option<MaturitySource>) {
    s.Some? ==> Fits(s.value.brick, 1) && Fits(s.value.startAt, 2) && Fits(s.value.durationAt, 2)
  }

  predicate BoundsOk(r: RatioBounds) {
    && -128 <= r.scaleExp < 128 && Fits(r.minDenominator, 8) && Fits(r.min, 16) && Fits(r.max, 16)
        && FreshnessOk(r.freshness)
  }

  predicate ShapeOk(r: RatioShape) {
    && |r.discriminator| <= 8 && Fits(r.minLen, 2) && (r.mintAt.Some? ==> Fits(r.mintAt.value, 2))
    && FieldOk(r.numerator) && FieldOk(r.denominator)
  }

  predicate RatioOk(r: AccountRatio) {
    && |r.account| == 32 && |r.owner| == 32 && |r.programData| == 32 && Fits(r.deploySlot, 8)
    && ShapeOk(r.shape) && BoundsOk(r.bounds)
  }

  predicate WellFormed(brick: PriceBrick) {
    match brick
    case Pyth(feedId, maxAge, minBand) => |feedId| == 32 && Fits(maxAge, 4) && Fits(minBand, 4)
    case Ratio(ratio) => RatioOk(ratio)
    case MaturityDiscount(maturity, low, mid, high, source) =>
      Fits(maturity, 8) && Fits(low, 4) && Fits(mid, 4) && Fits(high, 4) && SourceOk(source)
    case ClampMax(max) => Fits(max, 16)
    case GrowthCap(rate, ts, growth, age) => Fits(rate, 16) && Fits(ts, 8) && Fits(growth, 4) && Fits(age, 4)
  }

  // ---- reading undoes writing ----

  lemma TakePut(head: bytes, rest: bytes)
    ensures Take(head + rest, |head|) == Success((head, rest))
  {}

  lemma GetPut(n: nat, width: nat, rest: bytes)
    requires Fits(n, width)
    ensures GetInt(PutInt(n, width, rest), width) == Success((n, rest))
  {
    FromToLe(n, width);
    TakePut(ToLe(n, width), rest);
  }

  /** A successful read was of the written form of its value. */
  lemma PutGet(b: bytes, width: nat)
    requires GetInt(b, width).Success?
    ensures var (n, rest) := GetInt(b, width).value; Fits(n, width) && b == PutInt(n, width, rest)
  {
    ToFromLe(b[..width]);
  }

  lemma PutTake(b: bytes, len: nat)
    requires Take(b, len).Success?
    ensures var (head, rest) := Take(b, len).value; |head| == len && b == head + rest
  {}

  lemma SmallFits(n: nat)
    requires n < 256
    ensures Fits(n, 1)
  {}

  lemma FieldForward(f: RatioField, rest: bytes)
    requires FieldOk(f)
    ensures GetField(PutField(f, rest)) == Success((f, rest))
  {
    GetPut(f.at, 2, PutInt(f.width, 1, rest));
    GetPut(f.width, 1, rest);
  }

  lemma FieldBack(b: bytes)
    requires GetField(b).Success?
    ensures var (f, rest) := GetField(b).value; FieldOk(f) && b == PutField(f, rest)
  {
    PutGet(b, 2);
    PutGet(GetInt(b, 2).value.1, 1);
  }

  lemma TagForward(some: bool, rest: bytes)
    ensures GetTag(PutInt(if some then 1 else 0, 1, rest)) == Success((some, rest))
  {}

  lemma TagBack(b: bytes)
    requires GetTag(b).Success?
    ensures var (some, rest) := GetTag(b).value; b == PutInt(if some then 1 else 0, 1, rest)
  {}

  lemma MintAtForward(m: Option<nat>, rest: bytes)
    requires m.Some? ==> Fits(m.value, 2)
    ensures GetMintAt(PutMintAt(m, rest)) == Success((m, rest))
  {
    if m.None? {
      TagForward(false, rest);
    } else {
      TagForward(true, PutInt(m.value, 2, rest));
      GetPut(m.value, 2, rest);
    }
  }

  lemma MintAtBack(b: bytes)
    requires GetMintAt(b).Success?
    ensures var (m, rest) := GetMintAt(b).value; (m.Some? ==> Fits(m.value, 2)) && b == PutMintAt(m, rest)
  {
    TagBack(b);
    var (some, b1) := GetTag(b).value;
    if some {
      PutGet(b1, 2);
    }
  }

  lemma FreshnessForward(f: Option<RatioFreshness>, rest: bytes)
    requires FreshnessOk(f)
    ensures GetFreshness(PutFreshness(f, rest)) == Success((f, rest))
  {
    if f.None? {
      TagForward(false, rest);
    } else {
      var lag := PutInt(f.value.maxLag, 4, rest);
      var at := PutInt(f.value.at, 2, lag);
      TagForward(true, PutInt(UnitCode(f.value.unit), 1, at));
      SmallFits(UnitCode(f.value.unit));
      GetPut(UnitCode(f.value.unit), 1, at);
      GetPut(f.value.at, 2, lag);
      GetPut(f.value.maxLag, 4, rest);
    }
  }

  lemma FreshnessBack(b: bytes)
    requires GetFreshness(b).Success?
    ensures var (f, rest) := GetFreshness(b).value; FreshnessOk(f) && b == PutFreshness(f, rest)
  {
    TagBack(b);
    var (some, b1) := GetTag(b).value;
    if some {
      PutGet(b1, 1);
      var (unit, b2) := GetUnit(b1).value;
      PutGet(b2, 2);
      PutGet(GetInt(b2, 2).value.1, 4);
    }
  }

  lemma SourceForward(s: Option<MaturitySource>, rest: bytes)
    requires SourceOk(s)
    ensures GetSource(PutSource(s, rest)) == Success((s, rest))
  {
    if s.None? {
      TagForward(false, rest);
    } else {
      var duration := PutInt(s.value.durationAt, 2, rest);
      var start := PutInt(s.value.startAt, 2, duration);
      TagForward(true, PutInt(s.value.brick, 1, start));
      GetPut(s.value.brick, 1, start);
      GetPut(s.value.startAt, 2, duration);
      GetPut(s.value.durationAt, 2, rest);
    }
  }

  lemma SourceBack(b: bytes)
    requires GetSource(b).Success?
    ensures var (s, rest) := GetSource(b).value; SourceOk(s) && b == PutSource(s, rest)
  {
    TagBack(b);
    var (some, b1) := GetTag(b).value;
    if some {
      PutGet(b1, 1);
      var (brick, b2) := GetInt(b1, 1).value;
      PutGet(b2, 2);
      PutGet(GetInt(b2, 2).value.1, 2);
    }
  }

  lemma DiscriminatorForward(d: bytes, rest: bytes)
    requires |d| <= 8
    ensures GetDiscriminator(PutDiscriminator(d, rest)) == Success((d, rest))
  {}

  lemma DiscriminatorBack(b: bytes)
    requires GetDiscriminator(b).Success?
    ensures var (d, rest) := GetDiscriminator(b).value; |d| <= 8 && b == PutDiscriminator(d, rest)
  {}

  lemma SignedForward(x: int, rest: bytes)
    requires -128 <= x < 128
    ensures GetSigned(PutSigned(x, rest)) == Success((x, rest))
  {}

  lemma SignedBack(b: bytes)
    requires GetSigned(b).Success?
    ensures var (x, rest) := GetSigned(b).value; -128 <= x < 128 && b == PutSigned(x, rest)
  {}

  lemma ShapeForward(r: RatioShape, rest: bytes)
    requires ShapeOk(r)
    ensures GetShape(PutShape(r, rest)) == Success((r, rest))
  {
    var d := PutField(r.denominator, rest);
    var n := PutField(r.numerator, d);
    var m := PutMintAt(r.mintAt, n);
    DiscriminatorForward(r.discriminator, PutInt(r.minLen, 2, m));
    GetPut(r.minLen, 2, m);
    MintAtForward(r.mintAt, n);
    FieldForward(r.numerator, d);
    FieldForward(r.denominator, rest);
  }

  lemma ShapeBack(b: bytes)
    requires GetShape(b).Success?
    ensures var (r, rest) := GetShape(b).value; ShapeOk(r) && b == PutShape(r, rest)
  {
    DiscriminatorBack(b);
    var (_, b1) := GetDiscriminator(b).value;
    PutGet(b1, 2);
    var (_, b2) := GetInt(b1, 2).value;
    MintAtBack(b2);
    var (_, b3) := GetMintAt(b2).value;
    FieldBack(b3);
    FieldBack(GetField(b3).value.1);
  }

  lemma BoundsForward(r: RatioBounds, rest: bytes)
    requires BoundsOk(r)
    ensures GetBounds(PutBounds(r, rest)) == Success((r, rest))
  {
    var f := PutFreshness(r.freshness, rest);
    var x := PutInt(r.max, 16, f);
    var n := PutInt(r.min, 16, x);
    SignedForward(r.scaleExp, PutInt(r.minDenominator, 8, n));
    GetPut(r.minDenominator, 8, n);
    GetPut(r.min, 16, x);
    GetPut(r.max, 16, f);
    FreshnessForward(r.freshness, rest);
  }

  lemma BoundsBack(b: bytes)
    requires GetBounds(b).Success?
    ensures var (r, rest) := GetBounds(b).value; BoundsOk(r) && b == PutBounds(r, rest)
  {
    SignedBack(b);
    var (_, b1) := GetSigned(b).value;
    PutGet(b1, 8);
    var (_, b2) := GetInt(b1, 8).value;
    PutGet(b2, 16);
    var (_, b3) := GetInt(b2, 16).value;
    PutGet(b3, 16);
    FreshnessBack(GetInt(b3, 16).value.1);
  }

  lemma RatioForward(r: AccountRatio, rest: bytes)
    requires RatioOk(r)
    ensures GetRatio(PutRatio(r, rest)) == Success((r, rest))
  {
    var bounds := PutBounds(r.bounds, rest);
    var shape := PutShape(r.shape, bounds);
    var slot := PutInt(r.deploySlot, 8, shape);
    TakePut(r.account, r.owner + (r.programData + slot));
    TakePut(r.owner, r.programData + slot);
    TakePut(r.programData, slot);
    GetPut(r.deploySlot, 8, shape);
    ShapeForward(r.shape, bounds);
    BoundsForward(r.bounds, rest);
  }

  lemma RatioBack(b: bytes)
    requires GetRatio(b).Success?
    ensures var (r, rest) := GetRatio(b).value; RatioOk(r) && b == PutRatio(r, rest) && |rest| <= |b|
  {
    PutTake(b, 32);
    var (_, b1) := Take(b, 32).value;
    PutTake(b1, 32);
    var (_, b2) := Take(b1, 32).value;
    PutTake(b2, 32);
    var (_, b3) := Take(b2, 32).value;
    PutGet(b3, 8);
    var (_, b4) := GetInt(b3, 8).value;
    ShapeBack(b4);
    BoundsBack(GetShape(b4).value.1);
  }

  lemma PythForward(k: PriceBrick, rest: bytes)
    requires k.Pyth? && WellFormed(k)
    ensures GetPyth(PutPyth(k, rest)) == Success((k, rest))
  {
    var band := PutInt(k.minBandPpm, 4, rest);
    TakePut(k.feedId, PutInt(k.maxAgeSecs, 4, band));
    GetPut(k.maxAgeSecs, 4, band);
    GetPut(k.minBandPpm, 4, rest);
  }

  lemma PythBack(b: bytes)
    requires GetPyth(b).Success?
    ensures var (k, rest) := GetPyth(b).value; k.Pyth? && WellFormed(k) && b == PutPyth(k, rest) && |rest| <= |b|
  {
    PutTake(b, 32);
    var (_, b1) := Take(b, 32).value;
    PutGet(b1, 4);
    PutGet(GetInt(b1, 4).value.1, 4);
  }

  lemma DiscountForward(k: PriceBrick, rest: bytes)
    requires k.MaturityDiscount? && WellFormed(k)
    ensures GetDiscount(PutDiscount(k, rest)) == Success((k, rest))
  {
    var s := PutSource(k.source, rest);
    var h := PutInt(k.apyHigh, 4, s);
    var m := PutInt(k.apyMid, 4, h);
    GetPut(k.maturity, 8, PutInt(k.apyLow, 4, m));
    GetPut(k.apyLow, 4, m);
    GetPut(k.apyMid, 4, h);
    GetPut(k.apyHigh, 4, s);
    SourceForward(k.source, rest);
  }

  lemma DiscountBack(b: bytes)
    requires GetDiscount(b).Success?
    ensures var (k, rest) := GetDiscount(b).value;
            k.MaturityDiscount? && WellFormed(k) && b == PutDiscount(k, rest) && |rest| <= |b|
  {
    PutGet(b, 8);
    var (_, b1) := GetInt(b, 8).value;
    PutGet(b1, 4);
    var (_, b2) := GetInt(b1, 4).value;
    PutGet(b2, 4);
    var (_, b3) := GetInt(b2, 4).value;
    PutGet(b3, 4);
    SourceBack(GetInt(b3, 4).value.1);
  }

  lemma CapForward(k: PriceBrick, rest: bytes)
    requires k.GrowthCap? && WellFormed(k)
    ensures GetCap(PutCap(k, rest)) == Success((k, rest))
  {
    var a := PutInt(k.maxAnchorAgeSecs, 4, rest);
    var g := PutInt(k.maxGrowthPpm, 4, a);
    GetPut(k.anchorRate, 16, PutInt(k.anchorTs, 8, g));
    GetPut(k.anchorTs, 8, g);
    GetPut(k.maxGrowthPpm, 4, a);
    GetPut(k.maxAnchorAgeSecs, 4, rest);
  }

  lemma CapBack(b: bytes)
    requires GetCap(b).Success?
    ensures var (k, rest) := GetCap(b).value; k.GrowthCap? && WellFormed(k) && b == PutCap(k, rest) && |rest| <= |b|
  {
    PutGet(b, 16);
    var (_, b1) := GetInt(b, 16).value;
    PutGet(b1, 8);
    var (_, b2) := GetInt(b1, 8).value;
    PutGet(b2, 4);
    PutGet(GetInt(b2, 4).value.1, 4);
  }

  lemma DecodeForward(brick: PriceBrick, rest: bytes)
    requires WellFormed(brick)
    ensures Decode(Encode(brick, rest)) == Success((brick, rest))
  {
    Widths();
    match brick
    case Pyth(_, _, _) =>
      GetPut(0, 1, PutPyth(brick, rest));
      PythForward(brick, rest);
    case Ratio(ratio) =>
      GetPut(1, 1, PutRatio(ratio, rest));
      RatioForward(ratio, rest);
    case MaturityDiscount(_, _, _, _, _) =>
      GetPut(2, 1, PutDiscount(brick, rest));
      DiscountForward(brick, rest);
    case ClampMax(max) =>
      GetPut(3, 1, PutInt(max, 16, rest));
      GetPut(max, 16, rest);
    case GrowthCap(_, _, _, _) =>
      GetPut(4, 1, PutCap(brick, rest));
      CapForward(brick, rest);
  }

  lemma DecodeBack(b: bytes)
    requires Decode(b).Success?
    ensures var (brick, rest) := Decode(b).value;
            WellFormed(brick) && b == Encode(brick, rest) && |rest| < |b|
  {
    PutGet(b, 1);
    var (kind, b1) := GetInt(b, 1).value;
    if kind == 0 {
      PythBack(b1);
    } else if kind == 1 {
      RatioBack(b1);
    } else if kind == 2 {
      DiscountBack(b1);
    } else if kind == 3 {
      PutGet(b1, 16);
    } else {
      CapBack(b1);
    }
  }

  /** Decoding and encoding are inverse: a prefix decodes to a brick exactly when it is that brick's encoding. */
  lemma BrickCodec(b: bytes, brick: PriceBrick, rest: bytes)
    ensures Decode(b) == Success((brick, rest)) <==> WellFormed(brick) && b == Encode(brick, rest)
    ensures WellFormed(brick) ==> |rest| < |Encode(brick, rest)|
  {
    if Decode(b) == Success((brick, rest)) {
      DecodeBack(b);
    }
    if WellFormed(brick) {
      DecodeForward(brick, rest);
      DecodeBack(Encode(brick, rest));
    }
  }
}
