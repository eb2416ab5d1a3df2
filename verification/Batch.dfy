/** Batched account reads: sorted, deduplicated, chunked and indexed, against one read per key. */
module Batch {
  import opened Common
  import opened Chunks

  datatype ChainError = InvalidAccountData | MakerOwner | MissingAccount(key: Pubkey) | Foreign(code: nat)

  datatype PositionInfo = PositionInfo(holder: Pubkey, market: Pubkey, body: seq<u8>)

  datatype PremiumToken = PremiumToken(mint: Pubkey, program: Pubkey)

  datatype PremiumBalance = PremiumBalance(token: PremiumToken, address: Pubkey, amount: Option<u64>)

  datatype PositionSnapshot<+M> = PositionSnapshot(address: Pubkey, position: PositionInfo, marketAddress: Pubkey,
      market: M)

  datatype MakerSnapshot<+M> = MakerSnapshot(
    positions: seq<PositionSnapshot<M>>, balances: seq<PremiumBalance>, missing: seq<Pubkey>)

  /** The account decoders and address derivations, which are foreign here. */
  datatype Program<!A, +M> = Program(
    positionOf: A -> Result<PositionInfo, ChainError>,
    marketOf: A -> Result<M, ChainError>,
    balanceOf: (A, Pubkey, PremiumToken) -> Result<u64, ChainError>,
    makerAddress: Pubkey -> Pubkey,
    tokenAddress: (Pubkey, PremiumToken) -> Pubkey,
    tokenProgram: Pubkey,
    token2022Program: Pubkey)

  /** A position and the key it was read from. */
  type Holding = (Pubkey, PositionInfo)

  type View<+A> = Pubkey -> Option<A>

  const CHUNK: nat := 100

  // ---- fallible maps ----

  /** `f` over `s` in order, or the first error. */
  function Collect<T, U, E>(f: T -> Result<U, E>, s: seq<T>): (r: Result<seq<U>, E>)
    ensures r.Success? ==> |r.value| == |s|
  {
    if s == [] then Success([])
    else
      var init :- Collect(f, s[..|s| - 1]);
      var last :- f(s[|s| - 1]);
      Success(init + [last])
  }

  /** Success: every element mapped in place. */
  lemma {:induction false} CollectAll<T, U, E>(f: T -> Result<U, E>, s: seq<T>)
    ensures Collect(f, s).Success? <==> forall i :: 0 <= i < |s| ==> f(s[i]).Success?
    ensures Collect(f, s).Success? ==> forall i :: 0 <= i < |s| ==> f(s[i]) == Success(Collect(f, s).value[i])
  {
    if s != [] {
      CollectAll(f, s[..|s| - 1]);
    }
  }

  /** Failure: the error of the first element that fails. */
  lemma {:induction false} CollectFirst<T, U, E>(f: T -> Result<U, E>, s: seq<T>, i: nat)
    requires i < |s| && f(s[i]).Failure? && forall j :: 0 <= j < i ==> f(s[j]).Success?
    ensures Collect(f, s) == Failure(f(s[i]).error)
  {
    var init := s[..|s| - 1];
    if i < |init| {
      CollectFirst(f, init, i);
    } else {
      CollectAll(f, init);
    }
  }

  lemma {:induction false} CollectSame<T, U, E>(f: T -> Result<U, E>, g: T -> Result<U, E>, s: seq<T>)
    requires forall i :: 0 <= i < |s| ==> f(s[i]) == g(s[i])
    ensures Collect(f, s) == Collect(g, s)
  {
    if s != [] {
      CollectSame(f, g, s[..|s| - 1]);
    }
  }

  lemma CollectMore<T, U, E>(f: T -> Result<U, E>, s: seq<T>, i: nat, done: seq<U>, next: U)
    requires i < |s| && Collect(f, s[..i]) == Success(done) && f(s[i]) == Success(next)
    ensures Collect(f, s[..i + 1]) == Success(done + [next])
  {
    assert s[..i + 1][..i] == s[..i];
  }

  // ---- sorting and deduplicating keys ----

  function InsertKey(s: seq<Pubkey>, k: Pubkey): seq<Pubkey> {
    if s == [] || s[|s| - 1] <= k then s + [k] else InsertKey(s[..|s| - 1], k) + [s[|s| - 1]]
  }

  /** `sort_unstable`: equal keys cannot be told apart. */
  function SortKeys(keys: seq<Pubkey>): seq<Pubkey> {
    if keys == [] then [] else InsertKey(SortKeys(keys[..|keys| - 1]), keys[|keys| - 1])
  }

  /** `dedup`: drops every key equal to the one before it. */
  function Dedup(keys: seq<Pubkey>): seq<Pubkey> {
    if |keys| <= 1 then keys
    else
      var init := Dedup(keys[..|keys| - 1]);
      if keys[|keys| - 1] == keys[|keys| - 2] then init else init + [keys[|keys| - 1]]
  }

  ghost predicate Ascending(s: seq<Pubkey>) {
    forall i, j :: 0 <= i < j < |s| ==> s[i] <= s[j]
  }

  ghost predicate Increasing(s: seq<Pubkey>) {
    forall i, j :: 0 <= i < j < |s| ==> s[i] < s[j]
  }

  lemma SplitLast(init: seq<Pubkey>, last: Pubkey, k: Pubkey)
    ensures k in init + [last] <==> k in init || k == last
  {}

  lemma AscendingAppend(init: seq<Pubkey>, last: Pubkey)
    requires Ascending(init) && forall k :: k in init ==> k <= last
    ensures Ascending(init + [last])
  {
    forall i, j | 0 <= i < j < |init + [last]|
      ensures (init + [last])[i] <= (init + [last])[j]
    {
      assert init[i] in init;
    }
  }

  lemma {:induction false} InsertKeyKeeps(s: seq<Pubkey>, k: Pubkey, x: Pubkey)
    ensures x in InsertKey(s, k) <==> x in s || x == k
  {
    if s != [] && s[|s| - 1] > k {
      var init, last := s[..|s| - 1], s[|s| - 1];
      InsertKeyKeeps(init, k, x);
      assert s == init + [last];
      SplitLast(InsertKey(init, k), last, x);
    }
  }

  lemma {:induction false} InsertKeySorts(s: seq<Pubkey>, k: Pubkey)
    requires Ascending(s)
    ensures Ascending(InsertKey(s, k))
  {
    if s != [] && s[|s| - 1] > k {
      var init, last := s[..|s| - 1], s[|s| - 1];
      InsertKeySorts(init, k);
      forall x | x in InsertKey(init, k)
        ensures x <= last
      {
        InsertKeyKeeps(init, k, x);
      }
      AscendingAppend(InsertKey(init, k), last);
    }
  }

  lemma {:induction false} SortKeysSorts(keys: seq<Pubkey>)
    ensures Ascending(SortKeys(keys))
  {
    if keys != [] {
      SortKeysSorts(keys[..|keys| - 1]);
      InsertKeySorts(SortKeys(keys[..|keys| - 1]), keys[|keys| - 1]);
    }
  }

  lemma {:induction false} SortKeysKeeps(keys: seq<Pubkey>, x: Pubkey)
    ensures x in SortKeys(keys) <==> x in keys
  {
    if keys != [] {
      var init, last := keys[..|keys| - 1], keys[|keys| - 1];
      SortKeysKeeps(init, x);
      InsertKeyKeeps(SortKeys(init), last, x);
      assert keys == init + [last];
    }
  }

  lemma {:induction false} DedupKeeps(keys: seq<Pubkey>, x: Pubkey)
    ensures x in Dedup(keys) <==> x in keys
  {
    if |keys| > 1 {
      var init, last := keys[..|keys| - 1], keys[|keys| - 1];
      DedupKeeps(init, x);
      SplitLast(Dedup(init), last, x);
      assert keys == init + [last];
    }
  }

  /** Deduplicating ascending keys leaves each once, and the largest last. */
  lemma {:induction false} DedupIncreases(keys: seq<Pubkey>)
    requires Ascending(keys)
    ensures Increasing(Dedup(keys))
    ensures keys != [] ==> Dedup(keys) != [] && Dedup(keys)[|Dedup(keys)| - 1] == keys[|keys| - 1]
  {
    if |keys| > 1 {
      DedupIncreases(keys[..|keys| - 1]);
    }
  }

  function DistinctSorted(keys: seq<Pubkey>): seq<Pubkey> {
    Dedup(SortKeys(keys))
  }

  /** Sorting and deduplicating keeps exactly the keys, each once, in increasing order. */
  lemma DistinctSortedMeans(keys: seq<Pubkey>)
    ensures Increasing(DistinctSorted(keys)) && forall k :: k in DistinctSorted(keys) <==> k in keys
  {
    SortKeysSorts(keys);
    DedupIncreases(SortKeys(keys));
    forall k
      ensures k in DistinctSorted(keys) <==> k in keys
    {
      DedupKeeps(SortKeys(keys), k);
      SortKeysKeeps(keys, k);
    }
  }

  // ---- zipping keys with values ----

  /** `keys.zip(values).collect::<BTreeMap<_, _>>()` */
  method Index<V>(keys: seq<Pubkey>, values: seq<V>) returns (m: map<Pubkey, V>)
    requires |keys| == |values| && Increasing(keys)
    ensures forall k :: k in m <==> k in keys
    ensures forall i :: 0 <= i < |keys| ==> m[keys[i]] == values[i]
  {
    m := map[];
    for i := 0 to |keys|
      invariant forall k :: k in m <==> k in keys[..i]
      invariant forall j :: 0 <= j < i ==> m[keys[j]] == values[j]
    {
      m := m[keys[i] := values[i]];
    }
    assert keys[..|keys|] == keys;
  }

  // ---- one read per key ----

  predicate Supported<A, M>(program: Program<A, M>, token: PremiumToken) {
    token.program == program.tokenProgram || token.program == program.token2022Program
  }

  predicate AllSupported<A, M>(program: Program<A, M>, premiums: seq<PremiumToken>) {
    forall k :: 0 <= k < |premiums| ==> Supported(program, premiums[k])
  }

  /** What one position key holds: nothing, or a position of this owner. */
  datatype Entry = Absent(key: Pubkey) | Held(key: Pubkey, position: PositionInfo)

  function DecodePosition<A, M>(program: Program<A, M>, account: Option<A>, owner: Pubkey,
        key: Pubkey): Result<Entry, ChainError>
  {
    if account.None? then Success(Absent(key))
    else
      var position :- program.positionOf(account.value);
      if position.holder != owner then Failure(MakerOwner) else Success(Held(key, position))
  }

  function ReadPosition<A, M>(program: Program<A, M>, view: View<A>,
        owner: Pubkey): Pubkey -> Result<Entry, ChainError>
  {
    (key: Pubkey) => DecodePosition(program, view(key), owner, key)
  }

  function ReadMarket<A, M>(program: Program<A, M>, view: View<A>): Pubkey -> Result<M, ChainError> {
    (key: Pubkey) =>
      var account := view(key);
      if account.None? then Failure(MissingAccount(key)) else program.marketOf(account.value)
  }

  function ReadBalance<A, M>(program: Program<A, M>, view: View<A>,
        maker: Pubkey): PremiumToken -> Result<PremiumBalance, ChainError>
  {
    (token: PremiumToken) =>
      var address := program.tokenAddress(maker, token);
      var account := view(address);
      if account.None? then Success(PremiumBalance(token, address, None))
      else
        var amount :- program.balanceOf(account.value, maker, token);
        Success(PremiumBalance(token, address, Some(amount)))
  }

  function WithMarket<M>(market: Pubkey -> Result<M, ChainError>): Holding -> Result<PositionSnapshot<M>, ChainError> {
    (held: Holding) =>
      var info :- market(held.1.market);
      Success(PositionSnapshot(held.0, held.1, held.1.market, info))
  }

  function Found(entries: seq<Entry>): seq<Holding> {
    if entries == [] then []
    else
      var init, last := Found(entries[..|entries| - 1]), entries[|entries| - 1];
      if last.Held? then init + [(last.key, last.position)] else init
  }

  function Missing(entries: seq<Entry>): seq<Pubkey> {
    if entries == [] then []
    else
      var init, last := Missing(entries[..|entries| - 1]), entries[|entries| - 1];
      if last.Absent? then init + [last.key] else init
  }

  function MarketsOf(found: seq<Holding>): seq<Pubkey> {
    seq(|found|, i requires 0 <= i < |found| => found[i].1.market)
  }

  /** The least key whose read fails. */
  function LeastFailing<U, E>(f: Pubkey -> Result<U, E>, keys: seq<Pubkey>): (r: Option<Pubkey>)
    ensures r.Some? ==> f(r.value).Failure?
  {
    if keys == [] then None
    else
      var init, last := LeastFailing(f, keys[..|keys| - 1]), keys[|keys| - 1];
      if f(last).Failure? && (init.None? || last < init.value) then Some(last) else init
  }

  /**
   * The simple snapshot: one read per key, in input order, no sorting and no maps. Positions and balances are read
   * through `first`, markets through `second`. Of several unreadable markets the least address is reported.
   */
  function Naive<A, M>(program: Program<A, M>, first: View<A>, second: View<A>, owner: Pubkey, positions: seq<Pubkey>,
                       premiums: seq<PremiumToken>): Result<MakerSnapshot<M>, ChainError> {
    if !AllSupported(program, premiums) then Failure(InvalidAccountData)
    else
      var maker := program.makerAddress(owner);
      var market := ReadMarket(program, second);
      var entries :- Collect(ReadPosition(program, first, owner), positions);
      var bad := LeastFailing(market, MarketsOf(Found(entries)));
      if bad.Some? then Failure(market(bad.value).error)
      else
        var snapshots :- Collect(WithMarket(market), Found(entries));
        var balances :- Collect(ReadBalance(program, first, maker), premiums);
        Success(MakerSnapshot(snapshots, balances, Missing(entries)))
  }

  lemma {:induction false} LeastFailingMeans<U, E>(f: Pubkey -> Result<U, E>, keys: seq<Pubkey>)
    ensures var r := LeastFailing(f, keys);
            && (r.None? ==> forall k :: k in keys ==> f(k).Success?)
            && (r.Some? ==> r.value in keys && forall k :: k in keys && f(k).Failure? ==> r.value <= k)
  {
    if keys != [] {
      LeastFailingMeans(f, keys[..|keys| - 1]);
      assert keys == keys[..|keys| - 1] + [keys[|keys| - 1]];
    }
  }

  lemma {:induction false} FirstFailing<U, E>(f: Pubkey -> Result<U, E>, keys: seq<Pubkey>, k: nat) returns (i: nat)
    requires k < |keys| && f(keys[k]).Failure?
    ensures i < |keys| && f(keys[i]).Failure? && forall j :: 0 <= j < i ==> f(keys[j]).Success?
  {
    i := 0;
    while f(keys[i]).Success?
      invariant i <= k && forall j :: 0 <= j < i ==> f(keys[j]).Success?
      decreases k - i
    {
      i := i + 1;
    }
  }

  /** Reading increasing keys in order reports the least failing key of any list with the same members. */
  lemma SortedReportsLeast<U, E>(f: Pubkey -> Result<U, E>, sorted: seq<Pubkey>, keys: seq<Pubkey>)
    requires Increasing(sorted) && forall k :: k in sorted <==> k in keys
    ensures var bad := LeastFailing(f, keys);
            && (bad.Some? ==> Collect(f, sorted) == Failure(f(bad.value).error))
            && (bad.None? ==> Collect(f, sorted).Success?)
  {
    LeastFailingMeans(f, keys);
    var bad := LeastFailing(f, keys);
    if bad.Some? {
      assert bad.value in sorted;
      var k :| 0 <= k < |sorted| && sorted[k] == bad.value;
      var i := FirstFailing(f, sorted, k);
      assert sorted[i] in keys;
      CollectFirst(f, sorted, i);
    } else {
      CollectAll(f, sorted);
    }
  }

  /** The position at one key and its market can both be read. */
  predicate Readable<A, M>(program: Program<A, M>, first: View<A>, second: View<A>, owner: Pubkey, key: Pubkey) {
    first(key).Some? ==>
      var position := program.positionOf(first(key).value);
      && position.Success? && position.value.holder == owner
      && var market := second(position.value.market);
      market.Some? && program.marketOf(market.value).Success?
  }

  /** One premium token is of a known program, and its account is absent or readable. */
  predicate Payable<A, M>(program: Program<A, M>, view: View<A>, maker: Pubkey, token: PremiumToken) {
    && token.program in {program.tokenProgram, program.token2022Program}
    && var account := view(program.tokenAddress(maker, token));
    account.None? || program.balanceOf(account.value, maker, token).Success?
  }

  lemma {:induction false} FoundFrom(entries: seq<Entry>, i: nat)
    requires i < |entries| && entries[i].Held?
    ensures (entries[i].key, entries[i].position) in Found(entries)
  {
    if i < |entries| - 1 {
      FoundFrom(entries[..|entries| - 1], i);
    }
  }

  lemma {:induction false} FoundOnly(entries: seq<Entry>, h: Holding) returns (i: nat)
    requires h in Found(entries)
    ensures i < |entries| && entries[i] == Held(h.0, h.1)
  {
    var init := entries[..|entries| - 1];
    if h in Found(init) {
      i := FoundOnly(init, h);
    } else {
      i := |init|;
    }
  }

  /** The markets of the held positions can all be read exactly when every entry's can. */
  lemma MarketsReadable<U, E>(f: Pubkey -> Result<U, E>, entries: seq<Entry>)
    ensures LeastFailing(f, MarketsOf(Found(entries))).None?
       <==> forall i :: 0 <= i < |entries| && entries[i].Held? ==> f(entries[i].position.market).Success?
  {
    var found := Found(entries);
    LeastFailingMeans(f, MarketsOf(found));
    if LeastFailing(f, MarketsOf(found)).None? {
      forall i | 0 <= i < |entries| && entries[i].Held?
        ensures f(entries[i].position.market).Success?
      {
        FoundFrom(entries, i);
        var k :| 0 <= k < |found| && found[k] == (entries[i].key, entries[i].position);
        assert MarketsOf(found)[k] in MarketsOf(found);
      }
    } else {
      var bad := LeastFailing(f, MarketsOf(found)).value;
      var k :| 0 <= k < |found| && MarketsOf(found)[k] == bad;
      var i := FoundOnly(entries, found[k]);
      assert entries[i].Held? && f(entries[i].position.market).Failure?;
    }
  }

  lemma {:induction false} AttachSucceeds<M>(f: Pubkey -> Result<M, ChainError>, found: seq<Holding>)
    requires LeastFailing(f, MarketsOf(found)).None?
    ensures Collect(WithMarket(f), found).Success?
  {
    LeastFailingMeans(f, MarketsOf(found));
    forall i | 0 <= i < |found|
      ensures WithMarket(f)(found[i]).Success?
    {
      assert MarketsOf(found)[i] in MarketsOf(found);
    }
    CollectAll(WithMarket(f), found);
  }

  lemma ReadableMeans<A, M>(program: Program<A, M>, first: View<A>, second: View<A>, owner: Pubkey, key: Pubkey)
    ensures var entry := DecodePosition(program, first(key), owner, key);
            Readable(program, first, second, owner, key) <==>
              && entry.Success?
              && (entry.value.Held? ==> ReadMarket(program, second)(entry.value.position.market).Success?)
  {}

  lemma PayableMeans<A, M>(program: Program<A, M>, view: View<A>, maker: Pubkey, token: PremiumToken)
    ensures Payable(program, view, maker, token) <==>
              Supported(program, token) && ReadBalance(program, view, maker)(token).Success?
  {}

  /** Every position and its market are readable exactly when the two passes over them succeed. */
  lemma PositionsReadable<A, M>(program: Program<A, M>, first: View<A>, second: View<A>, owner: Pubkey,
        positions: seq<Pubkey>)
    ensures var read := Collect(ReadPosition(program, first, owner), positions);
            (forall i :: 0 <= i < |positions| ==> Readable(program, first, second, owner, positions[i])) <==>
              read.Success? && LeastFailing(ReadMarket(program, second), MarketsOf(Found(read.value))).None?
  {
    var read := Collect(ReadPosition(program, first, owner), positions);
    CollectAll(ReadPosition(program, first, owner), positions);
    forall i | 0 <= i < |positions| {
      ReadableMeans(program, first, second, owner, positions[i]);
    }
    if read.Success? {
      MarketsReadable(ReadMarket(program, second), read.value);
    }
  }

  /** The naive snapshot succeeds exactly when each key, on its own, can be read and decoded. */
  lemma NaiveSucceedsExactly<A, M>(program: Program<A, M>, first: View<A>, second: View<A>, owner: Pubkey,
        positions: seq<Pubkey>, premiums: seq<PremiumToken>)
    ensures var maker := program.makerAddress(owner);
            Naive(program, first, second, owner, positions, premiums).Success? <==>
              && (forall i :: 0 <= i < |positions| ==> Readable(program, first, second, owner, positions[i]))
              && (forall k :: 0 <= k < |premiums| ==> Payable(program, first, maker, premiums[k]))
  {
    var maker, market := program.makerAddress(owner), ReadMarket(program, second);
    PositionsReadable(program, first, second, owner, positions);
    forall k | 0 <= k < |premiums| {
      PayableMeans(program, first, maker, premiums[k]);
    }
    CollectAll(ReadBalance(program, first, maker), premiums);
    var read := Collect(ReadPosition(program, first, owner), positions);
    if read.Success? && LeastFailing(market, MarketsOf(Found(read.value))).None? {
      AttachSucceeds(market, Found(read.value));
    }
  }

  /** Why a snapshot is refused, read off one of its inputs. */
  predicate BadPosition<A, M>(program: Program<A, M>, view: View<A>, owner: Pubkey, key: Pubkey, e: ChainError) {
    && view(key).Some?
    && var position := program.positionOf(view(key).value);
    position == Failure(e) || (position.Success? && position.value.holder != owner && e == MakerOwner)
  }

  predicate BadMarket<A, M>(program: Program<A, M>, first: View<A>, second: View<A>, key: Pubkey, e: ChainError) {
    && first(key).Some? && program.positionOf(first(key).value).Success?
    && var address := program.positionOf(first(key).value).value.market;
    if second(address).None? then e == MissingAccount(address)
    else program.marketOf(second(address).value) == Failure(e)
  }

  predicate BadPremium<A, M>(program: Program<A, M>, view: View<A>, maker: Pubkey, token: PremiumToken,
        e: ChainError)
  {
    if token.program !in {program.tokenProgram, program.token2022Program} then e == InvalidAccountData
    else
      var account := view(program.tokenAddress(maker, token));
      account.Some? && program.balanceOf(account.value, maker, token) == Failure(e)
  }

  lemma {:induction false} CollectFails<K, U, E>(f: K -> Result<U, E>, keys: seq<K>) returns (i: nat)
    requires Collect(f, keys).Failure?
    ensures i < |keys| && f(keys[i]) == Failure(Collect(f, keys).error)
  {
    i := |keys| - 1;
    if Collect(f, keys[..i]).Failure? {
      i := CollectFails(f, keys[..i]);
    }
  }

  lemma BadMarketOf<A, M>(program: Program<A, M>, first: View<A>, second: View<A>, owner: Pubkey,
        positions: seq<Pubkey>, entries: seq<Entry>, bad: Pubkey) returns (i: nat)
    requires Collect(ReadPosition(program, first, owner), positions) == Success(entries)
    requires LeastFailing(ReadMarket(program, second), MarketsOf(Found(entries))) == Some(bad)
    ensures i < |positions|
        && BadMarket(program, first, second, positions[i], ReadMarket(program, second)(bad).error)
  {
    var found := Found(entries);
    LeastFailingMeans(ReadMarket(program, second), MarketsOf(found));
    var k :| 0 <= k < |found| && MarketsOf(found)[k] == bad;
    i := FoundOnly(entries, found[k]);
    CollectAll(ReadPosition(program, first, owner), positions);
    assert DecodePosition(program, first(positions[i]), owner, positions[i]) == Success(entries[i]);
  }

  /** Every refusal is true: the error reported is the error of one of the positions, their markets or the premiums. */
  lemma NaiveRefusesTruly<A, M>(program: Program<A, M>, first: View<A>, second: View<A>, owner: Pubkey,
        positions: seq<Pubkey>, premiums: seq<PremiumToken>)
    requires Naive(program, first, second, owner, positions, premiums).Failure?
    ensures var e := Naive(program, first, second, owner, positions, premiums).error;
            || (exists i :: 0 <= i < |positions| && BadPosition(program, first, owner, positions[i], e))
            || (exists i :: 0 <= i < |positions| && BadMarket(program, first, second, positions[i], e))
            || (exists k :: 0 <= k < |premiums| &&
                  BadPremium(program, first, program.makerAddress(owner), premiums[k], e))
  {
    var e := Naive(program, first, second, owner, positions, premiums).error;
    var maker, market := program.makerAddress(owner), ReadMarket(program, second);
    var read := Collect(ReadPosition(program, first, owner), positions);
    if !AllSupported(program, premiums) {
      var k :| 0 <= k < |premiums| && !Supported(program, premiums[k]);
      assert BadPremium(program, first, maker, premiums[k], e);
    } else if read.Failure? {
      var i := CollectFails(ReadPosition(program, first, owner), positions);
      assert BadPosition(program, first, owner, positions[i], e);
    } else if LeastFailing(market, MarketsOf(Found(read.value))).Some? {
      var bad := LeastFailing(market, MarketsOf(Found(read.value))).value;
      var i := BadMarketOf(program, first, second, owner, positions, read.value, bad);
    } else {
      AttachSucceeds(market, Found(read.value));
      var k := CollectFails(ReadBalance(program, first, maker), premiums);
      assert BadPremium(program, first, maker, premiums[k], e);
    }
  }

  /**
   * A snapshot entry shows a position of this owner and its market, each decoded from the account at its own address.
   */
  ghost predicate ShowsPosition<A, M>(program: Program<A, M>, first: View<A>, second: View<A>, owner: Pubkey,
        s: PositionSnapshot<M>)
  {
    && first(s.address).Some? && program.positionOf(first(s.address).value) == Success(s.position)
        && s.position.holder == owner
    && s.marketAddress == s.position.market
    && second(s.marketAddress).Some? && program.marketOf(second(s.marketAddress).value) == Success(s.market)
  }

  ghost predicate ShowsBalance<A, M>(program: Program<A, M>, view: View<A>, maker: Pubkey, token: PremiumToken,
        b: PremiumBalance)
  {
    && b.token == token && b.address == program.tokenAddress(maker, token)
    && (b.amount.None? <==> view(b.address).None?)
    && (b.amount.Some? ==> program.balanceOf(view(b.address).value, maker, token) == Success(b.amount.value))
  }

  /** The addresses of the snapshot and the missing keys are the present and the absent keys, each in input order. */
  function Present<A>(view: View<A>, keys: seq<Pubkey>, present: bool): seq<Pubkey> {
    if keys == [] then []
    else
      var init, last := Present(view, keys[..|keys| - 1], present), keys[|keys| - 1];
      if view(last).Some? == present then init + [last] else init
  }

  function Addresses(found: seq<Holding>): seq<Pubkey> {
    seq<Pubkey>(|found|, i requires 0 <= i < |found| => found[i].0)
  }

  lemma {:induction false} EntriesPartition<A, M>(program: Program<A, M>, view: View<A>, owner: Pubkey,
        keys: seq<Pubkey>)
    requires Collect(ReadPosition(program, view, owner), keys).Success?
    ensures var entries := Collect(ReadPosition(program, view, owner), keys).value;
            Addresses(Found(entries)) == Present(view, keys, true) && Missing(entries) == Present(view, keys, false)
  {
    if keys != [] {
      var entries := Collect(ReadPosition(program, view, owner), keys).value;
      EntriesPartition(program, view, owner, keys[..|keys| - 1]);
      assert entries[..|entries| - 1] == Collect(ReadPosition(program, view, owner), keys[..|keys| - 1]).value;
    }
  }

  lemma HeldFrom(f: Pubkey -> Result<Entry, ChainError>, keys: seq<Pubkey>, entries: seq<Entry>, h: Holding)
        returns (i: nat)
    requires Collect(f, keys) == Success(entries) && h in Found(entries)
    ensures i < |keys| && f(keys[i]) == Success(Held(h.0, h.1))
  {
    CollectAll(f, keys);
    i := FoundOnly(entries, h);
  }

  lemma EntryShows<A, M>(program: Program<A, M>, view: View<A>, owner: Pubkey, keys: seq<Pubkey>, entries: seq<Entry>,
        h: Holding)
    requires Collect(ReadPosition(program, view, owner), keys) == Success(entries) && h in Found(entries)
    ensures view(h.0).Some? && program.positionOf(view(h.0).value) == Success(h.1) && h.1.holder == owner
  {
    var i := HeldFrom(ReadPosition(program, view, owner), keys, entries, h);
    assert DecodePosition(program, view(keys[i]), owner, keys[i]) == Success(Held(h.0, h.1));
  }

  lemma PositionShown<A, M>(program: Program<A, M>, first: View<A>, second: View<A>, owner: Pubkey, keys: seq<Pubkey>,
        entries: seq<Entry>, h: Holding, s: PositionSnapshot<M>)
    requires Collect(ReadPosition(program, first, owner), keys) == Success(entries) && h in Found(entries)
    requires WithMarket(ReadMarket(program, second))(h) == Success(s)
    ensures s.address == h.0 && ShowsPosition(program, first, second, owner, s)
  {
    EntryShows(program, first, owner, keys, entries, h);
  }

  lemma PositionsShown<A, M>(program: Program<A, M>, first: View<A>, second: View<A>, owner: Pubkey, keys: seq<Pubkey>,
        entries: seq<Entry>, shown: seq<PositionSnapshot<M>>)
    requires Collect(ReadPosition(program, first, owner), keys) == Success(entries)
    requires Collect(WithMarket(ReadMarket(program, second)), Found(entries)) == Success(shown)
    ensures |shown| == |Present(first, keys, true)|
    ensures forall i :: 0 <= i < |shown| ==>
              shown[i].address == Present(first, keys, true)[i]
                  && ShowsPosition(program, first, second, owner, shown[i])
  {
    var found := Found(entries);
    EntriesPartition(program, first, owner, keys);
    CollectAll(WithMarket(ReadMarket(program, second)), found);
    forall i | 0 <= i < |shown|
      ensures shown[i].address == Present(first, keys, true)[i]
          && ShowsPosition(program, first, second, owner, shown[i])
    {
      PositionShown(program, first, second, owner, keys, entries, found[i], shown[i]);
      assert Addresses(found)[i] == found[i].0;
    }
  }

  lemma BalanceShown<A, M>(program: Program<A, M>, view: View<A>, maker: Pubkey, token: PremiumToken,
        shown: PremiumBalance)
    requires ReadBalance(program, view, maker)(token) == Success(shown)
    ensures ShowsBalance(program, view, maker, token, shown)
  {}

  lemma BalancesShown<A, M>(program: Program<A, M>, view: View<A>, maker: Pubkey, premiums: seq<PremiumToken>,
        shown: seq<PremiumBalance>)
    requires Collect(ReadBalance(program, view, maker), premiums) == Success(shown)
    ensures |shown| == |premiums|
    ensures forall k :: 0 <= k < |premiums| ==> ShowsBalance(program, view, maker, premiums[k], shown[k])
  {
    CollectAll(ReadBalance(program, view, maker), premiums);
    forall k | 0 <= k < |premiums|
      ensures ShowsBalance(program, view, maker, premiums[k], shown[k])
    {
      BalanceShown(program, view, maker, premiums[k], shown[k]);
    }
  }

  /**
   * What a snapshot contains, entry by entry: present positions with their markets, every balance, and the missing
   * keys.
   */
  lemma NaiveShows<A, M>(program: Program<A, M>, first: View<A>, second: View<A>, owner: Pubkey, positions: seq<Pubkey>,
        premiums: seq<PremiumToken>)
    requires Naive(program, first, second, owner, positions, premiums).Success?
    ensures var s := Naive(program, first, second, owner, positions, premiums).value;
            && s.missing == Present(first, positions, false)
            && |s.positions| == |Present(first, positions, true)| && |s.balances| == |premiums|
            && (forall i :: 0 <= i < |s.positions| ==>
                  s.positions[i].address == Present(first, positions, true)[i]
                      && ShowsPosition(program, first, second, owner, s.positions[i]))
            && (forall k :: 0 <= k < |premiums| ==>
                  ShowsBalance(program, first, program.makerAddress(owner), premiums[k], s.balances[k]))
  {
    var entries := Collect(ReadPosition(program, first, owner), positions).value;
    var s := Naive(program, first, second, owner, positions, premiums).value;
    EntriesPartition(program, first, owner, positions);
    PositionsShown(program, first, second, owner, positions, entries, s.positions);
    BalancesShown(program, first, program.makerAddress(owner), premiums, s.balances);
  }

  // ---- the batched snapshot ----

  /** The values a read returned, as a view of its keys. */
  ghost function ZipView<A>(keys: seq<Pubkey>, values: seq<Option<A>>): View<A>
    requires |keys| == |values| && Increasing(keys)
  {
    var m := map i | 0 <= i < |keys| :: keys[i] := values[i];
    k => if k in m then m[k] else None
  }

  /** `fetch_accounts`; `view` is what the node showed, which is `lookup` when every chunk saw that one state. */
  method FetchAccounts<A>(read: Read<Pubkey, Option<A>, ChainError>, keys: seq<Pubkey>, ghost lookup: View<A>)
    returns (r: Result<seq<Option<A>>, ChainError>, ghost view: View<A>, ghost calls: seq<seq<Pubkey>>)
    requires Increasing(keys)
    ensures r == Chunked(CHUNK, read, InvalidAccountData, keys)
    ensures r.Success? ==> |r.value| == |keys| && forall i :: 0 <= i < |keys| ==> view(keys[i]) == r.value[i]
    ensures Faithful(read, lookup) ==> r.Success? && view == lookup
    ensures r.Success? ==> Covers(100, calls, keys)
  {
    r, calls := ReadChunks(CHUNK, read, InvalidAccountData, keys);
    view := lookup;
    if Faithful(read, lookup) {
      ChunkingInvisible(CHUNK, read, InvalidAccountData, lookup, keys);
    } else if r.Success? {
      view := ZipView(keys, r.value);
    }
  }

  lemma FoundMore(entries: seq<Entry>, e: Entry)
    ensures Found(entries + [e]) == if e.Held? then Found(entries) + [(e.key, e.position)] else Found(entries)
    ensures Missing(entries + [e]) == if e.Absent? then Missing(entries) + [e.key] else Missing(entries)
  {}

  method Push(entry: Entry, decoded: seq<Holding>, missing: seq<Pubkey>, ghost entries: seq<Entry>)
    returns (decoded': seq<Holding>, missing': seq<Pubkey>)
    requires decoded == Found(entries) && missing == Missing(entries)
    ensures decoded' == Found(entries + [entry]) && missing' == Missing(entries + [entry])
  {
    FoundMore(entries, entry);
    decoded', missing' := decoded, missing;
    match entry {
      case Held(key, position) => decoded' := decoded + [(key, position)];
      case Absent(key) => missing' := missing + [key];
    }
  }

  /** The loop that splits positions into decoded and missing ones; `f` is one read of it. */
  method DecodePositions<A, M>(program: Program<A, M>, accounts: map<Pubkey, Option<A>>, owner: Pubkey,
        positions: seq<Pubkey>, ghost f: Pubkey -> Result<Entry, ChainError>)
    returns (r: Result<(seq<Holding>, seq<Pubkey>), ChainError>)
    requires forall k :: k in positions ==> k in accounts && f(k) == DecodePosition(program, accounts[k], owner, k)
    ensures var c := Collect(f, positions);
            r == if c.Success? then Success((Found(c.value), Missing(c.value))) else Failure(c.error)
  {
    var decoded: seq<Holding>, missing: seq<Pubkey> := [], [];
    ghost var entries: seq<Entry> := [];
    for i := 0 to |positions|
      invariant Collect(f, positions[..i]) == Success(entries)
      invariant decoded == Found(entries) && missing == Missing(entries)
      invariant forall j :: 0 <= j < i ==> f(positions[j]).Success?
    {
      var entry := DecodePosition(program, accounts[positions[i]], owner, positions[i]);
      if entry.Failure? {
        CollectFirst(f, positions, i);
        return Failure(entry.error);
      }
      CollectMore(f, positions, i, entries, entry.value);
      decoded, missing := Push(entry.value, decoded, missing, entries);
      entries := entries + [entry.value];
    }
    assert positions[..|positions|] == positions;
    r := Success((decoded, missing));
  }

  /** The loop that decodes the fetched markets into a map. */
  method DecodeMarkets<A, M>(program: Program<A, M>, keys: seq<Pubkey>, values: seq<Option<A>>, ghost view: View<A>)
    returns (r: Result<map<Pubkey, M>, ChainError>)
    requires Increasing(keys) && |keys| == |values| && forall i :: 0 <= i < |keys| ==> view(keys[i]) == values[i]
    ensures var f := ReadMarket(program, view);
            && (r.Failure? ==> Collect(f, keys) == Failure(r.error))
            && (r.Success? ==> forall k :: k in keys ==> k in r.value && f(k) == Success(r.value[k]))
  {
    var markets: map<Pubkey, M> := map[];
    ghost var f := ReadMarket(program, view);
    for i := 0 to |keys|
      invariant forall j :: 0 <= j < i ==> keys[j] in markets && f(keys[j]) == Success(markets[keys[j]])
    {
      if values[i].None? {
        CollectFirst(f, keys, i);
        return Failure(MissingAccount(keys[i]));
      }
      var market := program.marketOf(values[i].value);
      if market.Failure? {
        CollectFirst(f, keys, i);
        return Failure(market.error);
      }
      markets := markets[keys[i] := market.value];
    }
    r := Success(markets);
  }

  method DecodeBalances<A, M>(program: Program<A, M>, accounts: map<Pubkey, Option<A>>, ghost view: View<A>,
        maker: Pubkey, premiums: seq<PremiumToken>) returns (r: Result<seq<PremiumBalance>, ChainError>)
    requires forall i :: 0 <= i < |premiums| ==>
               var address := program.tokenAddress(maker, premiums[i]);
               address in accounts && accounts[address] == view(address)
    ensures r == Collect(ReadBalance(program, view, maker), premiums)
  {
    var balances: seq<PremiumBalance> := [];
    ghost var f := ReadBalance(program, view, maker);
    for i := 0 to |premiums|
      invariant Collect(f, premiums[..i]) == Success(balances)
      invariant forall j :: 0 <= j < i ==> f(premiums[j]).Success?
    {
      var address := program.tokenAddress(maker, premiums[i]);
      var amount: Option<u64> := None;
      if accounts[address].Some? {
        var decoded := program.balanceOf(accounts[address].value, maker, premiums[i]);
        if decoded.Failure? {
          CollectFirst(f, premiums, i);
          return Failure(decoded.error);
        }
        amount := Some(decoded.value);
      }
      CollectMore(f, premiums, i, balances, PremiumBalance(premiums[i], address, amount));
      balances := balances + [PremiumBalance(premiums[i], address, amount)];
    }
    assert premiums[..|premiums|] == premiums;
    r := Success(balances);
  }

  method AttachMarkets<M>(found: seq<Holding>, markets: map<Pubkey, M>, ghost market: Pubkey -> Result<M, ChainError>)
    returns (r: seq<PositionSnapshot<M>>)
    requires forall i :: 0 <= i < |found| ==>
               found[i].1.market in markets && market(found[i].1.market) == Success(markets[found[i].1.market])
    ensures Collect(WithMarket(market), found) == Success(r)
  {
    r := [];
    for i := 0 to |found|
      invariant Collect(WithMarket(market), found[..i]) == Success(r)
    {
      var position := found[i].1;
      var snapshot := PositionSnapshot(found[i].0, position, position.market, markets[position.market]);
      CollectMore(WithMarket(market), found, i, r, snapshot);
      r := r + [snapshot];
    }
    assert found[..|found|] == found;
  }

  function TokenKeys<A, M>(program: Program<A, M>, maker: Pubkey, premiums: seq<PremiumToken>): seq<Pubkey> {
    seq<Pubkey>(|premiums|, i requires 0 <= i < |premiums| => program.tokenAddress(maker, premiums[i]))
  }

  /** The read failed as a whole: a transport error, or an answer of the wrong length. */
  ghost predicate ReadFails<A, T>(
      read: Read<Pubkey, Option<A>, ChainError>, wanted: seq<Pubkey>, r: Result<T, ChainError>)
  {
    var values := Chunked(CHUNK, read, InvalidAccountData, DistinctSorted(wanted));
    values.Failure? && r == Failure(values.error)
  }

  /** `view` is what the read of the wanted keys returned. */
  ghost predicate Saw<A>(read: Read<Pubkey, Option<A>, ChainError>, wanted: seq<Pubkey>, view: View<A>) {
    var keys := DistinctSorted(wanted);
    var values := Chunked(CHUNK, read, InvalidAccountData, keys);
    values.Success? && forall i :: 0 <= i < |keys| ==> view(keys[i]) == values.value[i]
  }

  /** The first round: every position and token account, each fetched once. */
  method FirstRound<A>(read: Read<Pubkey, Option<A>, ChainError>, wanted: seq<Pubkey>, ghost lookup: View<A>)
    returns (r: Result<map<Pubkey, Option<A>>, ChainError>, ghost view: View<A>)
    ensures r.Success? ==> Saw(read, wanted, view) && forall k :: k in wanted ==> k in r.value && r.value[k] == view(k)
    ensures r.Failure? ==> ReadFails(read, wanted, r)
    ensures Faithful(read, lookup) ==> r.Success? && view == lookup
  {
    var keys := DistinctSorted(wanted);
    DistinctSortedMeans(wanted);
    var values;
    ghost var calls;
    values, view, calls := FetchAccounts(read, keys, lookup);
    if values.Failure? {
      return Failure(values.error), view;
    }
    var accounts := Index(keys, values.value);
    forall k | k in wanted
      ensures k in accounts && accounts[k] == view(k)
    {
      var i :| 0 <= i < |keys| && keys[i] == k;
    }
    r := Success(accounts);
  }

  /** The second round: every market of a found position, each fetched and decoded once. */
  method SecondRound<A, M>(
      program: Program<A, M>, read: Read<Pubkey, Option<A>, ChainError>, wanted: seq<Pubkey>, ghost lookup: View<A>)
    returns (r: Result<map<Pubkey, M>, ChainError>, ghost view: View<A>)
    ensures Faithful(read, lookup) ==> view == lookup && !ReadFails(read, wanted, r)
    ensures Saw(read, wanted, view) || ReadFails(read, wanted, r)
    ensures var f := ReadMarket(program, view);
            && (r.Success? ==>
                  && LeastFailing(f, wanted).None?
                  && forall k :: k in wanted ==> k in r.value && f(k) == Success(r.value[k]))
            && (r.Failure? && !ReadFails(read, wanted, r) ==>
                  LeastFailing(f, wanted).Some? && r.error == f(LeastFailing(f, wanted).value).error)
  {
    var keys := DistinctSorted(wanted);
    DistinctSortedMeans(wanted);
    var values;
    ghost var calls;
    values, view, calls := FetchAccounts(read, keys, lookup);
    if values.Failure? {
      return Failure(values.error), view;
    }
    r := DecodeMarkets(program, keys, values.value, view);
    SortedReportsLeast(ReadMarket(program, view), keys, wanted);
    CollectAll(ReadMarket(program, view), keys);
  }

  /** The keys of the first round, and the keys of the second given what the first showed. */
  function FirstKeys<A, M>(
      program: Program<A, M>, owner: Pubkey, positions: seq<Pubkey>, premiums: seq<PremiumToken>): seq<Pubkey>
  {
    positions + TokenKeys(program, program.makerAddress(owner), premiums)
  }

  function SecondKeys<A, M>(program: Program<A, M>, first: View<A>, owner: Pubkey,
        positions: seq<Pubkey>): seq<Pubkey>
  {
    var entries := Collect(ReadPosition(program, first, owner), positions);
    if entries.Success? then MarketsOf(Found(entries.value)) else []
  }

  /** A round failed as a whole, or the result is the naive snapshot of exactly what the two rounds read. */
  ghost predicate FromRounds<A, M>(
      program: Program<A, M>, read: Read<Pubkey, Option<A>, ChainError>, owner: Pubkey, positions: seq<Pubkey>,
      premiums: seq<PremiumToken>, first: View<A>, second: View<A>, r: Result<MakerSnapshot<M>, ChainError>)
  {
    || ReadFails(read, FirstKeys(program, owner, positions, premiums), r)
    || (&& Saw(read, FirstKeys(program, owner, positions, premiums), first)
        && (|| ReadFails(read, SecondKeys(program, first, owner, positions), r)
            || (&& Saw(read, SecondKeys(program, first, owner, positions), second)
                && r == Naive(program, first, second, owner, positions, premiums))))
  }

  /** Both rounds and what is made of them, for supported tokens. */
  method ReadSnapshot<A, M>(
      program: Program<A, M>, read: Read<Pubkey, Option<A>, ChainError>, owner: Pubkey, positions: seq<Pubkey>,
      premiums: seq<PremiumToken>, ghost lookup: View<A>)
    returns (r: Result<MakerSnapshot<M>, ChainError>, ghost first: View<A>, ghost second: View<A>)
    requires AllSupported(program, premiums)
    ensures FromRounds(program, read, owner, positions, premiums, first, second, r)
    ensures Faithful(read, lookup) ==> r == Naive(program, lookup, lookup, owner, positions, premiums)
  {
    second := lookup;
    var maker := program.makerAddress(owner);
    var tokens := TokenKeys(program, maker, premiums);
    var accounts;
    accounts, first := FirstRound(read, positions + tokens, lookup);
    if accounts.Failure? {
      return Failure(accounts.error), first, second;
    }
    forall i | 0 <= i < |premiums|
      ensures program.tokenAddress(maker, premiums[i]) in positions + tokens
    {
      assert tokens[i] in tokens;
    }
    var split := DecodePositions(program, accounts.value, owner, positions, ReadPosition(program, first, owner));
    if split.Failure? {
      return Failure(split.error), first, second;
    }
    var found := split.value.0;
    var wanted := MarketsOf(found);
    var markets;
    markets, second := SecondRound(program, read, wanted, lookup);
    if markets.Failure? {
      return Failure(markets.error), first, second;
    }
    forall i | 0 <= i < |found|
      ensures found[i].1.market in wanted
    {
      assert wanted[i] in wanted;
    }
    var snapshots := AttachMarkets(found, markets.value, ReadMarket(program, second));
    var balances := DecodeBalances(program, accounts.value, first, maker, premiums);
    if balances.Failure? {
      return Failure(balances.error), first, second;
    }
    r := Success(MakerSnapshot(snapshots, balances.value, split.value.1));
  }

  /**
   * `maker_snapshot`. Whatever the node answers: an unsupported token is refused; otherwise a round fails as a whole
   * and its error is reported, or the result is the naive snapshot of exactly what the two rounds read: the same
   * positions, markets, balances and missing keys in input order with duplicates kept, and the same error. Against one
   * chain state both rounds read that state.
   */
  method Snapshot<A, M>(
      program: Program<A, M>, read: Read<Pubkey, Option<A>, ChainError>, owner: Pubkey, positions: seq<Pubkey>,
      premiums: seq<PremiumToken>, ghost lookup: View<A>)
    returns (r: Result<MakerSnapshot<M>, ChainError>, ghost first: View<A>, ghost second: View<A>)
    ensures AllSupported(program, premiums) ==>
              FromRounds(program, read, owner, positions, premiums, first, second, r)
    ensures !AllSupported(program, premiums) ==> r == Failure(InvalidAccountData)
    ensures Faithful(read, lookup) ==> r == Naive(program, lookup, lookup, owner, positions, premiums)
  {
    for i := 0 to |premiums|
      invariant forall j :: 0 <= j < i ==> Supported(program, premiums[j])
    {
      if !Supported(program, premiums[i]) {
        return Failure(InvalidAccountData), lookup, lookup;
      }
    }
    r, first, second := ReadSnapshot(program, read, owner, positions, premiums, lookup);
  }
}
