/** The price-route account: one to six bricks in a fixed 696-byte layout. */
module PriceRoute {
  import opened Common
  import opened Bytes
  import opened PriceBricks
  import opened ItemLists
  import opened PriceReader

  const MAX_BRICKS: nat := 6
  const MAX_BYTES: nat := 640
  const LEN: nat := 696
  const BRICKS_OFFSET: nat := 48

  datatype Route = Route(mint: bytes, maxSkewSecs: nat, bricks: seq<PriceBrick>, updatedSlot: nat)

  /** The bricks of a whole region, after `count` of them were already read. */
  function DecodeAll(b: bytes, count: nat): Result<seq<PriceBrick>, RouteError>
    requires count <= MAX_BRICKS
  {
    Items(Decode, MAX_BRICKS, TooManyBricks, b, count)
  }

  predicate AllWellFormed(bricks: seq<PriceBrick>) {
    forall k :: 0 <= k < |bricks| ==> WellFormed(bricks[k])
  }

  function EncodeAll(bricks: seq<PriceBrick>): bytes {
    PutItems(Encode, bricks)
  }

  lemma DecodeUndoes(b: bytes, brick: PriceBrick, rest: bytes)
    ensures Undoes(Decode, WellFormed, Encode, b, brick, rest)
  {
    BrickCodec(b, brick, rest);
  }

  lemma DecodeInverse()
    ensures Inverse(Decode, WellFormed, Encode)
  {
    forall b, brick, rest
      ensures Undoes(Decode, WellFormed, Encode, b, brick, rest)
    {
      DecodeUndoes(b, brick, rest);
    }
  }

  /** A region decodes to exactly the bricks whose encodings it concatenates. */
  lemma RegionBack(region: bytes)
    requires DecodeAll(region, 0).Success?
    ensures var bricks := DecodeAll(region, 0).value;
            AllWellFormed(bricks) && region == EncodeAll(bricks) && |bricks| <= MAX_BRICKS
  {
    DecodeInverse();
    ItemsBack(Decode, WellFormed, Encode, MAX_BRICKS, TooManyBricks, region, 0);
  }

  lemma RegionForward(bricks: seq<PriceBrick>)
    requires AllWellFormed(bricks) && |bricks| <= MAX_BRICKS
    ensures DecodeAll(EncodeAll(bricks), 0) == Success(bricks)
  {
    DecodeInverse();
    ItemsForward(Decode, WellFormed, Encode, MAX_BRICKS, TooManyBricks, bricks, 0);
  }

  function AccountCount(brick: PriceBrick): nat {
    if brick.Pyth? then 1 else if brick.Ratio? then 2 else 0
  }

  function AccountCounts(bricks: seq<PriceBrick>): nat {
    if bricks == [] then 0 else AccountCounts(bricks[..|bricks| - 1]) + AccountCount(bricks[|bricks| - 1])
  }

  function ParseRoute(data: bytes): Result<Route, RouteError> {
    if |data| != LEN then Failure(AccountLength(|data|))
    else if data[0] != 15 then Failure(Discriminator(data[0]))
    else if data[1] != 1 then Failure(Version(data[1]))
    else
      var len := FromLe(data[4..6]);
      if len > MAX_BYTES then Failure(TooManyBytes)
      else
        var bricks :- DecodeAll(data[BRICKS_OFFSET..BRICKS_OFFSET + len], 0);
        if bricks == [] then Failure(NoBricks)
        else if AccountCounts(bricks) != data[3] then Failure(AccountCountMismatch)
        else Success(Route(data[8..40], FromLe(data[40..44]), bricks, FromLe(data[688..696])))
  }

  /** The loop of `parse`: one brick at a time, from a reader over the declared region only. */
  method ParseBricks(region: bytes) returns (r: Result<seq<PriceBrick>, RouteError>)
    ensures r == DecodeAll(region, 0)
  {
    var reader := new Reader(region);
    var bricks: seq<PriceBrick> := [];
    PrependNothing(DecodeAll(region, 0));
    while |reader.bytes| != 0
      invariant reader.Valid() && fresh(reader) && |bricks| <= MAX_BRICKS
      invariant Prepend(bricks, DecodeAll(reader.bytes, |bricks|)) == DecodeAll(region, 0)
      decreases |reader.bytes|
    {
      if |bricks| == MAX_BRICKS {
        return Failure(TooManyBricks);
      }
      PrependOne(Decode, MAX_BRICKS, TooManyBricks, bricks, reader.bytes);
      var brick := reader.DecodeBrick();
      if brick.Failure? {
        return Failure(brick.error);
      }
      bricks := bricks + [brick.value];
    }
    assert bricks + [] == bricks;
    r := Success(bricks);
  }

  method CountAccounts(bricks: seq<PriceBrick>) returns (accounts: nat)
    ensures accounts == AccountCounts(bricks)
  {
    accounts := 0;
    for i := 0 to |bricks|
      invariant accounts == AccountCounts(bricks[..i])
    {
      assert bricks[..i + 1][..i] == bricks[..i];
      accounts := accounts + AccountCount(bricks[i]);
    }
    assert bricks[..|bricks|] == bricks;
  }

  /** `parse` */
  method Parse(data: bytes) returns (r: Result<Route, RouteError>)
    ensures r == ParseRoute(data)
  {
    if |data| != LEN {
      return Failure(AccountLength(|data|));
    }
    if data[0] != 15 {
      return Failure(Discriminator(data[0]));
    }
    if data[1] != 1 {
      return Failure(Version(data[1]));
    }
    var len := FromLe(data[4..6]);
    if len > MAX_BYTES {
      return Failure(TooManyBytes);
    }
    var bricks :- ParseBricks(data[BRICKS_OFFSET..BRICKS_OFFSET + len]);
    if |bricks| == 0 {
      return Failure(NoBricks);
    }
    var accounts := CountAccounts(bricks);
    if accounts != data[3] {
      return Failure(AccountCountMismatch);
    }
    r := Success(Route(data[8..40], FromLe(data[40..44]), bricks, FromLe(data[688..696])));
  }

  // ---- the layout ----

  /** A route an account can hold. */
  predicate RouteOk(r: Route) {
    && |r.mint| == 32 && Fits(r.maxSkewSecs, 4) && Fits(r.updatedSlot, 8)
    && 1 <= |r.bricks| <= 6 && AllWellFormed(r.bricks) && |EncodeAll(r.bricks)| <= 640
  }

  /**
   * `data` holds `r`: every byte that matters, at its place. Bytes 2, 6-7, 44-47 and the unused tail of the region are
   * free.
   */
  predicate Holds(data: bytes, r: Route)
    requires RouteOk(r)
  {
    var blob := EncodeAll(r.bricks);
    && |data| == 696
    && data[0] == 15 && data[1] == 1 && data[3] == AccountCounts(r.bricks)
    && data[4..6] == ToLe(|blob|, 2)
    && data[8..40] == r.mint
    && data[40..44] == ToLe(r.maxSkewSecs, 4)
    && data[48..48 + |blob|] == blob
    && data[688..696] == ToLe(r.updatedSlot, 8)
  }

  /** Codec: an account parses to a route exactly when it holds that route, and every account holds at most one. */
  lemma RouteCodec(data: bytes, r: Route)
    ensures ParseRoute(data) == Success(r) <==> RouteOk(r) && Holds(data, r)
  {
    if ParseRoute(data) == Success(r) {
      ParseHolds(data);
    }
    if RouteOk(r) && Holds(data, r) {
      HoldsParses(data, r);
    }
  }

  lemma ParseHolds(data: bytes)
    requires ParseRoute(data).Success?
    ensures RouteOk(ParseRoute(data).value) && Holds(data, ParseRoute(data).value)
  {
    var len := FromLe(data[4..6]);
    RegionBack(data[BRICKS_OFFSET..BRICKS_OFFSET + len]);
    ToFromLe(data[4..6]);
    ToFromLe(data[40..44]);
    ToFromLe(data[688..696]);
  }

  lemma HoldsParses(data: bytes, r: Route)
    requires RouteOk(r) && Holds(data, r)
    ensures ParseRoute(data) == Success(r)
  {
    Widths();
    var blob := EncodeAll(r.bricks);
    FromToLe(|blob|, 2);
    FromToLe(r.maxSkewSecs, 4);
    FromToLe(r.updatedSlot, 8);
    RegionForward(r.bricks);
  }

  lemma {:induction false} FewAccounts(bricks: seq<PriceBrick>)
    ensures AccountCounts(bricks) <= 2 * |bricks|
  {
    if bricks != [] {
      FewAccounts(bricks[..|bricks| - 1]);
    }
  }

  /** Every well-formed route has an account that parses back to it. */
  lemma EveryRouteFits(r: Route) returns (data: bytes)
    requires RouteOk(r)
    ensures |data| == LEN && ParseRoute(data) == Success(r)
  {
    FewAccounts(r.bricks);
    data := Layout(AccountCounts(r.bricks), EncodeAll(r.bricks), r.mint, ToLe(r.maxSkewSecs, 4),
        ToLe(r.updatedSlot, 8));
    HoldsParses(data, r);
  }

  /** The account with these parts and zeros elsewhere. */
  function Layout(accounts: u8, blob: bytes, mint: bytes, skew: bytes, slot: bytes): (data: bytes)
    requires |blob| <= MAX_BYTES && |mint| == 32 && |skew| == 4 && |slot| == 8
    ensures |data| == LEN && data[0] == 15 && data[1] == 1 && data[3] == accounts
    ensures data[4..6] == ToLe(|blob|, 2) && data[8..40] == mint && data[40..44] == skew
    ensures data[BRICKS_OFFSET..BRICKS_OFFSET + |blob|] == blob && data[688..696] == slot
  {
    [15, 1, 0, accounts] + ToLe(|blob|, 2) + [0, 0] + mint + skew + [0, 0, 0, 0]
      + blob + seq(MAX_BYTES - |blob|, i => 0) + slot
  }

  /** Parsing looks at nothing but the bytes the layout names: changing the others changes neither route nor error. */
  lemma PaddingIgnored(data: bytes, data': bytes)
    requires |data| == |data'| == LEN
    requires data'[..2] == data[..2] && data'[3..6] == data[3..6] && data'[8..44] == data[8..44]
        && data'[688..] == data[688..]
    requires var end := BRICKS_OFFSET + FromLe(data[4..6]);
             end <= BRICKS_OFFSET + MAX_BYTES ==> data'[BRICKS_OFFSET..end] == data[BRICKS_OFFSET..end]
    ensures ParseRoute(data') == ParseRoute(data)
  {
    assert data'[0] == data'[..2][0] && data'[1] == data'[..2][1] && data'[3] == data'[3..6][0];
    assert data[0] == data[..2][0] && data[1] == data[..2][1] && data[3] == data[3..6][0];
    assert data'[4..6] == data'[3..6][1..] && data[4..6] == data[3..6][1..];
    assert data'[8..40] == data'[8..44][..32] && data[8..40] == data[8..44][..32];
    assert data'[40..44] == data'[8..44][32..] && data[40..44] == data[8..44][32..];
    assert data'[688..696] == data'[688..] && data[688..696] == data[688..];
  }

  // ---- the accounts a price section lists ----

  /** `accounts`: the route's address, then each brick's accounts; `feed` derives a Pyth feed's address. */
  method Accounts(r: Route, address: bytes, shard: u16, feed: (bytes, u16) -> bytes) returns (accounts: seq<bytes>)
    ensures accounts == [address] + BrickAccounts(r.bricks, shard, feed)
    ensures |accounts| == 1 + AccountCounts(r.bricks)
  {
    accounts := [address];
    for i := 0 to |r.bricks|
      invariant accounts == [address] + BrickAccounts(r.bricks[..i], shard, feed)
      invariant |accounts| == 1 + AccountCounts(r.bricks[..i])
    {
      assert r.bricks[..i + 1][..i] == r.bricks[..i];
      var brick := r.bricks[i];
      match brick
      case Pyth(feedId, _, _) =>
        accounts := accounts + [feed(feedId, shard)];
      case Ratio(ratio) =>
        accounts := accounts + [ratio.account, ratio.programData];
      case MaturityDiscount(_, _, _, _, _) =>
      case ClampMax(_) =>
      case GrowthCap(_, _, _, _) =>
    }
    assert r.bricks[..|r.bricks|] == r.bricks;
  }

  function BrickAccounts(bricks: seq<PriceBrick>, shard: u16, feed: (bytes, u16) -> bytes): seq<bytes> {
    if bricks == [] then []
    else
      var before, last := BrickAccounts(bricks[..|bricks| - 1], shard, feed), bricks[|bricks| - 1];
      match last
      case Pyth(feedId, _, _) => before + [feed(feedId, shard)]
      case Ratio(ratio) => before + [ratio.account, ratio.programData]
      case _ => before
  }

  /** The part of the price section one brick adds: what it lists, in the order its instruction takes it. */
  predicate Lists(brick: PriceBrick, part: seq<bytes>, shard: u16, feed: (bytes, u16) -> bytes) {
    match brick
    case Pyth(feedId, _, _) => part == [feed(feedId, shard)]
    case Ratio(ratio) => part == [ratio.account, ratio.programData]
    case _ => part == []
  }

  /** The price section is the bricks' parts one after another: each lies between the counts of its two ends. */
  lemma {:induction false} AccountsExactly(bricks: seq<PriceBrick>, shard: u16, feed: (bytes, u16) -> bytes, i: nat)
    requires i < |bricks|
    ensures var all := BrickAccounts(bricks, shard, feed);
            var from, to := AccountCounts(bricks[..i]), AccountCounts(bricks[..i + 1]);
            && from <= to <= |all| == AccountCounts(bricks)
            && Lists(bricks[i], all[from..to], shard, feed)
  {
    var init := bricks[..|bricks| - 1];
    AccountsCounted(bricks, shard, feed);
    AccountsCounted(init, shard, feed);
    if i == |bricks| - 1 {
      assert bricks[..i + 1] == bricks;
    } else {
      AccountsExactly(init, shard, feed, i);
      assert init[..i] == bricks[..i] && init[..i + 1] == bricks[..i + 1];
      var from, to := AccountCounts(bricks[..i]), AccountCounts(bricks[..i + 1]);
      assert BrickAccounts(bricks, shard, feed)[from..to] == BrickAccounts(init, shard, feed)[from..to];
    }
  }

  /** A parsed account's price section is exactly one longer than the count stored in the account. */
  lemma SectionLengthStored(data: bytes, shard: u16, feed: (bytes, u16) -> bytes)
    requires ParseRoute(data).Success?
    ensures |data| == LEN && |BrickAccounts(ParseRoute(data).value.bricks, shard, feed)| == data[3]
  {
    AccountsCounted(ParseRoute(data).value.bricks, shard, feed);
  }

  lemma {:induction false} AccountsCounted(bricks: seq<PriceBrick>, shard: u16, feed: (bytes, u16) -> bytes)
    ensures |BrickAccounts(bricks, shard, feed)| == AccountCounts(bricks)
  {
    if bricks != [] {
      AccountsCounted(bricks[..|bricks| - 1], shard, feed);
    }
  }
}
