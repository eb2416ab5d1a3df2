/** The bytes a maker signs: the physical and the spread order preimage. */
module Orders {
  import opened Common
  import opened Bytes
  import opened Writes
  import opened Terms
  import Spreads

  datatype TakerSide = Sell | Buy

  function SideByte(side: TakerSide): u8 {
    if side.Buy? then 1 else 0
  }

  /** The order fields that both layouts hold; the product and its strikes come beside them. */
  datatype OrderFields = OrderFields(
    chainId: u64, programId: Bytes32, side: TakerSide, market: Bytes32, quantity: u64, grossPrice: u64,
    validUntil: u64, maker: Bytes32, taker: Bytes32, nonce: u64)

  datatype PhysicalArgs = PhysicalArgs(order: OrderFields, positionType: PositionType, strike: u64)

  datatype SpreadArgs = SpreadArgs(order: OrderFields, kind: Spreads.SpreadType, lower: u64, upper: u64)

  datatype OrderError = SpreadLayoutRequired | Spread(error: Spreads.SpreadError)

  const PHYSICAL_LEN: nat := 182
  const SPREAD_LEN: nat := 190

  /** The domain tag `ACTA`. */
  const TAG: bytes := [0x41, 0x43, 0x54, 0x41]

  function Zeros(n: nat): (z: bytes)
    ensures |z| == n
  {
    seq(n, i => 0)
  }

  function U64(n: u64): (b: bytes)
    ensures |b| == 8
  {
    ToLe(n, 8)
  }

  function KindByte(kind: Spreads.SpreadType): u8 {
    if kind.CallSpread? then 2 else 3
  }

  // ---- the layout: fourteen cells one after another, of which the last is only in spreads ----

  /** Where each cell starts; cell `c` ends where cell `c + 1` starts. */
  const STARTS: seq<nat> := [0, 4, 12, 44, 45, 46, 78, 86, 94, 102, 110, 142, 174, 182, 190]

  ghost predicate InCell(p: Piece, c: nat) {
    c < 14 && p.at == STARTS[c] && p.at + |p.data| == STARTS[c + 1]
  }

  lemma {:induction false} StartsOrdered(i: nat, j: nat)
    requires i <= j <= 14
    ensures STARTS[i] <= STARTS[j]
  {}

  lemma CellsApart(p: Piece, c: nat, q: Piece, d: nat)
    requires InCell(p, c) && InCell(q, d) && c != d
    ensures Apart(p, q)
  {}

  /** `pieces` fill distinct cells among the first `n`. */
  ghost predicate Fills(pieces: seq<Piece>, cells: seq<nat>, n: nat) {
    && n <= 14 && |pieces| == |cells|
    && (forall k :: 0 <= k < |cells| ==> cells[k] < n && InCell(pieces[k], cells[k]))
    && (forall i, j :: 0 <= i < j < |cells| ==> cells[i] != cells[j])
  }

  lemma FillsApart(pieces: seq<Piece>, cells: seq<nat>, n: nat)
    requires Fills(pieces, cells, n)
    ensures AllInBounds(STARTS[n], pieces) && AllApart(pieces)
  {
    forall i, j | 0 <= i < j < |pieces|
      ensures Apart(pieces[i], pieces[j])
    {
      CellsApart(pieces[i], cells[i], pieces[j], cells[j]);
    }
    forall k | 0 <= k < |pieces|
      ensures InBounds(STARTS[n], pieces[k])
    {
      StartsOrdered(cells[k] + 1, n);
    }
  }

  /** The first six cells, which both layouts write first: tag, chain, program, side, product and market. */
  function Head(o: OrderFields, product: u8): (p: seq<Piece>)
    ensures |p| == 6
  {
    [ Piece(0, TAG), Piece(4, U64(o.chainId)), Piece(12, o.programId), Piece(44, [SideByte(o.side)]),
      Piece(45, [product]), Piece(46, o.market) ]
  }

  function PhysicalTail(o: OrderFields, strike: u64): (p: seq<Piece>)
    ensures |p| == 7
  {
    [ Piece(78, U64(strike)), Piece(86, U64(o.quantity)), Piece(94, U64(o.grossPrice)),
      Piece(102, U64(o.validUntil)), Piece(110, o.maker), Piece(142, o.taker), Piece(174, U64(o.nonce)) ]
  }

  function SpreadTail(o: OrderFields, lower: u64, upper: u64): (p: seq<Piece>)
    ensures |p| == 8
  {
    [ Piece(78, U64(lower)), Piece(86, U64(o.quantity)), Piece(94, U64(o.grossPrice)), Piece(102, U64(o.validUntil)),
      Piece(174, U64(o.nonce)), Piece(182, U64(upper)), Piece(110, o.maker), Piece(142, o.taker) ]
  }

  const HEAD_CELLS: seq<nat> := [0, 1, 2, 3, 4, 5]
  const PHYSICAL_CELLS: seq<nat> := [6, 7, 8, 9, 10, 11, 12]
  const SPREAD_CELLS: seq<nat> := [6, 7, 8, 9, 12, 13, 10, 11]

  lemma HeadFills(o: OrderFields, product: u8)
    ensures Fills(Head(o, product), HEAD_CELLS, 6)
  {}

  lemma FillsJoin(a: seq<Piece>, ca: seq<nat>, b: seq<Piece>, cb: seq<nat>, n: nat)
    requires Fills(a, ca, 6) && Fills(b, cb, n) && 6 <= n && forall k :: 0 <= k < |cb| ==> 6 <= cb[k]
    ensures Fills(a + b, ca + cb, n)
  {}

  lemma PhysicalFills(o: OrderFields, product: u8, strike: u64)
    ensures Fills(Head(o, product) + PhysicalTail(o, strike), HEAD_CELLS + PHYSICAL_CELLS, 13)
    ensures AllInBounds(PHYSICAL_LEN, Head(o, product) + PhysicalTail(o, strike))
    ensures AllApart(Head(o, product) + PhysicalTail(o, strike))
  {
    HeadFills(o, product);
    assert Fills(PhysicalTail(o, strike), PHYSICAL_CELLS, 13);
    FillsJoin(Head(o, product), HEAD_CELLS, PhysicalTail(o, strike), PHYSICAL_CELLS, 13);
    FillsApart(Head(o, product) + PhysicalTail(o, strike), HEAD_CELLS + PHYSICAL_CELLS, 13);
  }

  lemma SpreadFills(o: OrderFields, product: u8, lower: u64, upper: u64)
    ensures Fills(Head(o, product) + SpreadTail(o, lower, upper), HEAD_CELLS + SPREAD_CELLS, 14)
    ensures AllInBounds(SPREAD_LEN, Head(o, product) + SpreadTail(o, lower, upper))
    ensures AllApart(Head(o, product) + SpreadTail(o, lower, upper))
  {
    HeadFills(o, product);
    assert Fills(SpreadTail(o, lower, upper), SPREAD_CELLS, 14);
    FillsJoin(Head(o, product), HEAD_CELLS, SpreadTail(o, lower, upper), SPREAD_CELLS, 14);
    FillsApart(Head(o, product) + SpreadTail(o, lower, upper), HEAD_CELLS + SPREAD_CELLS, 14);
  }

  ghost function PhysicalPieces(o: OrderFields, product: u8, strike: u64): (p: seq<Piece>)
    ensures Fills(p, HEAD_CELLS + PHYSICAL_CELLS, 13) && AllInBounds(PHYSICAL_LEN, p) && AllApart(p) && |p| == 13
  {
    PhysicalFills(o, product, strike);
    Head(o, product) + PhysicalTail(o, strike)
  }

  ghost function SpreadPieces(a: SpreadArgs): (p: seq<Piece>)
    ensures Fills(p, HEAD_CELLS + SPREAD_CELLS, 14) && AllInBounds(SPREAD_LEN, p) && AllApart(p) && |p| == 14
  {
    SpreadFills(a.order, KindByte(a.kind), a.lower, a.upper);
    Head(a.order, KindByte(a.kind)) + SpreadTail(a.order, a.lower, a.upper)
  }

  ghost function PhysicalPreimage(o: OrderFields, isPut: bool, strike: u64): (b: bytes)
    ensures |b| == PHYSICAL_LEN
  {
    Written(Zeros(PHYSICAL_LEN), PhysicalPieces(o, if isPut then 1 else 0, strike), 13)
  }

  ghost function SpreadPreimage(a: SpreadArgs): (b: bytes)
    ensures |b| == SPREAD_LEN
  {
    Written(Zeros(SPREAD_LEN), SpreadPieces(a), 14)
  }

  // ---- the buffers, filled in place ----

  method CopyHead(buf: array<u8>, ghost start: bytes, ghost all: seq<Piece>, o: OrderFields, product: u8)
    requires |start| == buf.Length && buf[..] == start && AllInBounds(|start|, all)
    requires |all| >= 6 && forall k :: 0 <= k < 6 ==> all[k] == Head(o, product)[k]
    modifies buf
    ensures buf[..] == Written(start, all, 6)
  {
    Copy(buf, start, all, 0, 0, TAG);
    Copy(buf, start, all, 1, 4, U64(o.chainId));
    Copy(buf, start, all, 2, 12, o.programId);
    Copy(buf, start, all, 3, 44, [SideByte(o.side)]);
    Copy(buf, start, all, 4, 45, [product]);
    Copy(buf, start, all, 5, 46, o.market);
  }

  method CopyNumbers(buf: array<u8>, ghost start: bytes, ghost all: seq<Piece>, o: OrderFields, strike: u64)
    requires |start| == buf.Length && AllInBounds(|start|, all) && |all| == 13
    requires all[6] == Piece(78, U64(strike)) && all[7] == Piece(86, U64(o.quantity))
    requires all[8] == Piece(94, U64(o.grossPrice)) && all[9] == Piece(102, U64(o.validUntil))
    requires buf[..] == Written(start, all, 6)
    modifies buf
    ensures buf[..] == Written(start, all, 10)
  {
    Copy(buf, start, all, 6, 78, U64(strike));
    Copy(buf, start, all, 7, 86, U64(o.quantity));
    Copy(buf, start, all, 8, 94, U64(o.grossPrice));
    Copy(buf, start, all, 9, 102, U64(o.validUntil));
  }

  method CopyParties(buf: array<u8>, ghost start: bytes, ghost all: seq<Piece>, ghost first: nat, maker: bytes,
        taker: bytes)
    requires |start| == buf.Length && AllInBounds(|start|, all) && first + 2 <= |all|
    requires all[first] == Piece(110, maker) && all[first + 1] == Piece(142, taker)
    requires buf[..] == Written(start, all, first)
    modifies buf
    ensures buf[..] == Written(start, all, first + 2)
  {
    Copy(buf, start, all, first, 110, maker);
    Copy(buf, start, all, first + 1, 142, taker);
  }

  /** `build_physical_order_preimage` */
  method BuildPhysicalPreimage(o: OrderFields, isPut: bool, strike: u64) returns (buf: array<u8>)
    ensures fresh(buf) && buf[..] == PhysicalPreimage(o, isPut, strike)
  {
    buf := new u8[PHYSICAL_LEN](i => 0);
    ghost var start := Zeros(PHYSICAL_LEN);
    assert buf[..] == start;
    var product := if isPut then 1 else 0;
    ghost var all := PhysicalPieces(o, product, strike);
    CopyHead(buf, start, all, o, product);
    CopyNumbers(buf, start, all, o, strike);
    CopyParties(buf, start, all, 10, o.maker, o.taker);
    Copy(buf, start, all, 12, 174, U64(o.nonce));
  }

  /** `build_order_preimage` */
  method BuildOrderPreimage(a: PhysicalArgs) returns (r: Result<array<u8>, OrderError>)
    ensures a.positionType.IsSpread() ==> r == Failure(SpreadLayoutRequired)
    ensures !a.positionType.IsSpread() ==>
              r.Success? && fresh(r.value) && r.value[..] == PhysicalPreimage(a.order, a.positionType.IsPut(), a.strike)
  {
    if a.positionType.IsSpread() {
      return Failure(SpreadLayoutRequired);
    }
    var buf := BuildPhysicalPreimage(a.order, a.positionType == CashSecuredPutType, a.strike);
    r := Success(buf);
  }

  /** The loop over (offset, value) pairs. */
  method CopyValues(buf: array<u8>, ghost start: bytes, ghost all: seq<Piece>, ghost first: nat,
        values: seq<(nat, u64)>)
    requires |start| == buf.Length && AllInBounds(|start|, all) && |all| >= first + |values|
    requires forall i :: 0 <= i < |values| ==> all[first + i] == Piece(values[i].0, U64(values[i].1))
    requires buf[..] == Written(start, all, first)
    modifies buf
    ensures buf[..] == Written(start, all, first + |values|)
  {
    var i := 0;
    ghost var k := first;
    while i < |values|
      invariant i <= |values| && k == first + i
      invariant buf[..] == Written(start, all, k)
    {
      var data := U64(values[i].1);
      assert all[k] == Piece(values[i].0, data);
      Copy(buf, start, all, k, values[i].0, data);
      i, k := i + 1, k + 1;
    }
  }

  method FillSpreadPreimage(a: SpreadArgs) returns (buf: array<u8>)
    ensures fresh(buf) && buf[..] == SpreadPreimage(a)
  {
    buf := new u8[SPREAD_LEN](i => 0);
    ghost var start := Zeros(SPREAD_LEN);
    assert buf[..] == start;
    ghost var all := SpreadPieces(a);
    CopyHead(buf, start, all, a.order, KindByte(a.kind));
    var values: seq<(nat, u64)> := [(78, a.lower), (86, a.order.quantity), (94, a.order.grossPrice),
                                    (102, a.order.validUntil), (174, a.order.nonce), (182, a.upper)];
    CopyValues(buf, start, all, 6, values);
    CopyParties(buf, start, all, 12, a.order.maker, a.order.taker);
  }

  /** `build_spread_order_preimage` */
  method BuildSpreadPreimage(a: SpreadArgs) returns (r: Result<array<u8>, Spreads.SpreadError>)
    ensures var valid := Spreads.ValidatePremium(a.kind, a.lower, a.upper, a.order.quantity, a.order.grossPrice);
            if valid.Failure? then r == Failure(valid.error)
            else r.Success? && fresh(r.value) && r.value[..] == SpreadPreimage(a)
  {
    var valid := Spreads.ValidatePremium(a.kind, a.lower, a.upper, a.order.quantity, a.order.grossPrice);
    if valid.Failure? {
      return Failure(valid.error);
    }
    var buf := FillSpreadPreimage(a);
    r := Success(buf);
  }

  // ---- the documented layout: the fields end to end ----

  function Joined(fields: seq<bytes>, c: nat): bytes
    requires c <= |fields|
  {
    if c == 0 then [] else Joined(fields, c - 1) + fields[c - 1]
  }

  /** The physical layout, field by field. */
  function Fields(o: OrderFields, product: u8, strike: u64): seq<bytes> {
    [ TAG, U64(o.chainId), o.programId, [SideByte(o.side)], [product], o.market, U64(strike), U64(o.quantity),
      U64(o.grossPrice), U64(o.validUntil), o.maker, o.taker, U64(o.nonce) ]
  }

  ghost predicate CellHolds(buf: bytes, c: nat, field: bytes) {
    c < 14 && STARTS[c] <= STARTS[c + 1] <= |buf| && buf[STARTS[c]..STARTS[c + 1]] == field
  }

  /** A buffer whose cells hold the fields is the fields end to end. */
  lemma {:induction false} CellsJoin(buf: bytes, fields: seq<bytes>, c: nat)
    requires c <= |fields| <= 14 && STARTS[c] <= |buf|
    requires forall k :: 0 <= k < |fields| ==> CellHolds(buf, k, fields[k])
    ensures buf[..STARTS[c]] == Joined(fields, c)
  {
    if c > 0 {
      assert CellHolds(buf, c - 1, fields[c - 1]);
      CellsJoin(buf, fields, c - 1);
      CellsSplice(buf, STARTS[c - 1], STARTS[c]);
    }
  }

  lemma CellsSplice(buf: bytes, i: nat, j: nat)
    requires i <= j <= |buf|
    ensures buf[..j] == buf[..i] + buf[i..j]
  {}

  /** The cell a piece fills can be read back once all pieces are written. */
  lemma CellRead(pieces: seq<Piece>, cells: seq<nat>, n: nat, j: nat)
    requires Fills(pieces, cells, n) && j < |cells| && AllInBounds(STARTS[n], pieces) && AllApart(pieces)
    ensures CellHolds(Written(Zeros(STARTS[n]), pieces, |pieces|), cells[j], pieces[j].data)
  {
    ReadBack(Zeros(STARTS[n]), pieces, |pieces|, j);
    assert InCell(pieces[j], cells[j]) && InBounds(STARTS[n], pieces[j]);
  }

  ghost predicate Placed(pieces: seq<Piece>, cells: seq<nat>, at: seq<nat>, fields: seq<bytes>) {
    && |fields| == |at| && |pieces| == |cells|
    && forall c :: 0 <= c < |at| ==> at[c] < |cells| && cells[at[c]] == c && pieces[at[c]].data == fields[c]
  }

  /** Pieces that fill `n` cells, cell `c` by piece `at[c]`, leave the fields end to end. */
  lemma WrittenJoins(pieces: seq<Piece>, cells: seq<nat>, n: nat, at: seq<nat>, fields: seq<bytes>)
    requires Fills(pieces, cells, n) && AllInBounds(STARTS[n], pieces) && AllApart(pieces)
    requires |fields| == n && Placed(pieces, cells, at, fields)
    ensures Written(Zeros(STARTS[n]), pieces, |pieces|) == Joined(fields, n)
  {
    var buf := Written(Zeros(STARTS[n]), pieces, |pieces|);
    forall c | 0 <= c < n
      ensures CellHolds(buf, c, fields[c])
    {
      CellRead(pieces, cells, n, at[c]);
    }
    CellsJoin(buf, fields, n);
    assert buf[..STARTS[n]] == buf;
  }

  lemma PhysicalPlaced(o: OrderFields, product: u8, strike: u64)
    ensures var cells := HEAD_CELLS + PHYSICAL_CELLS;
            Placed(Head(o, product) + PhysicalTail(o, strike), cells, cells, Fields(o, product, strike))
  {}

  /** A spread list is the physical one with its last three pieces and the upper strike in another order. */
  lemma SpreadReorders(o: OrderFields, product: u8, lower: u64, upper: u64)
    ensures var p, q := Head(o, product) + PhysicalTail(o, lower), Head(o, product) + SpreadTail(o, lower, upper);
            q == p[..10] + [p[12], Piece(182, U64(upper)), p[10], p[11]]
  {}

  lemma ReorderedPlaced(p: seq<Piece>, cells: seq<nat>, fields: seq<bytes>, last: Piece)
    requires |p| == |cells| == 13 && Placed(p, cells, cells, fields) && forall c :: 0 <= c < 13 ==> cells[c] == c
    ensures var order := cells[..10] + [12, 13, 10, 11];
            Placed(p[..10] + [p[12], last, p[10], p[11]], order, order, fields + [last.data])
  {}

  lemma SpreadPlaced(o: OrderFields, product: u8, lower: u64, upper: u64)
    ensures var cells := HEAD_CELLS + SPREAD_CELLS;
            Placed(Head(o, product) + SpreadTail(o, lower, upper), cells, cells,
                Fields(o, product, lower) + [U64(upper)])
  {
    var cells := HEAD_CELLS + PHYSICAL_CELLS;
    assert forall c :: 0 <= c < 13 ==> cells[c] == c;
    PhysicalPlaced(o, product, lower);
    ReorderedPlaced(Head(o, product) + PhysicalTail(o, lower), cells, Fields(o, product, lower),
        Piece(182, U64(upper)));
    SpreadReorders(o, product, lower, upper);
    assert HEAD_CELLS + SPREAD_CELLS == cells[..10] + [12, 13, 10, 11];
  }

  /** The filled physical buffer is the documented layout. */
  lemma PhysicalLayout(o: OrderFields, isPut: bool, strike: u64)
    ensures PhysicalPreimage(o, isPut, strike) == Joined(Fields(o, if isPut then 1 else 0, strike), 13)
  {
    var product: u8 := if isPut then 1 else 0;
    var cells := HEAD_CELLS + PHYSICAL_CELLS;
    PhysicalPlaced(o, product, strike);
    WrittenJoins(PhysicalPieces(o, product, strike), cells, 13, cells, Fields(o, product, strike));
  }

  /** The filled spread buffer is the physical layout of its lower strike followed by the upper strike. */
  lemma SpreadLayout(a: SpreadArgs)
    ensures SpreadPreimage(a) == Joined(Fields(a.order, KindByte(a.kind), a.lower) + [U64(a.upper)], 14)
  {
    var cells := HEAD_CELLS + SPREAD_CELLS;
    SpreadPlaced(a.order, KindByte(a.kind), a.lower, a.upper);
    WrittenJoins(SpreadPieces(a), cells, 14, cells, Fields(a.order, KindByte(a.kind), a.lower) + [U64(a.upper)]);
  }

  /** The tag and the side byte of a physical preimage, as literal bytes. */
  lemma PhysicalHeader(o: OrderFields, isPut: bool, strike: u64)
    ensures var b := PhysicalPreimage(o, isPut, strike);
            b[..4] == [0x41, 0x43, 0x54, 0x41] && b[44] == (if o.side == Buy then 1 else 0)
            && b[45] == (if isPut then 1 else 0)
  {
    var product: u8 := if isPut then 1 else 0;
    var pieces, start := PhysicalPieces(o, product, strike), Zeros(PHYSICAL_LEN);
    var b := PhysicalPreimage(o, isPut, strike);
    HeadReadBack(o, product, pieces, start, 13);
    assert b[44] == b[44..45][0] && b[45] == b[45..46][0];
  }

  /** The tag and the side byte of a spread preimage, as literal bytes. */
  lemma SpreadHeader(a: SpreadArgs)
    ensures var b := SpreadPreimage(a);
            b[..4] == [0x41, 0x43, 0x54, 0x41] && b[44] == (if a.order.side == Buy then 1 else 0)
            && b[45] == (if a.kind == Spreads.CallSpread then 2 else 3)
  {
    var b := SpreadPreimage(a);
    HeadReadBack(a.order, KindByte(a.kind), SpreadPieces(a), Zeros(SPREAD_LEN), 14);
    assert b[44] == b[44..45][0] && b[45] == b[45..46][0];
  }

  lemma HeadReadBack(o: OrderFields, product: u8, pieces: seq<Piece>, start: bytes, n: nat)
    requires AllInBounds(|start|, pieces) && AllApart(pieces) && 6 <= n == |pieces| && 46 <= |start|
    requires pieces[0] == Piece(0, TAG) && pieces[3] == Piece(44, [SideByte(o.side)])
        && pieces[4] == Piece(45, [product])
    ensures var b := Written(start, pieces, n);
            b[0..4] == TAG && b[44..45] == [SideByte(o.side)] && b[45..46] == [product]
  {
    ReadBack(start, pieces, n, 0);
    ReadBack(start, pieces, n, 3);
    ReadBack(start, pieces, n, 4);
  }

  // ---- what a preimage commits to ----

  lemma U64Same(m: u64, n: u64)
    requires U64(m) == U64(n)
    ensures m == n
  {
    Widths();
    LeInjective(m, n, 8);
  }

  lemma HeadSame(o: OrderFields, p: u8, o': OrderFields, p': u8)
    requires Head(o, p) == Head(o', p')
    ensures o.chainId == o'.chainId && o.programId == o'.programId && o.side == o'.side && p == p'
        && o.market == o'.market
  {
    var a, b := Head(o, p), Head(o', p');
    assert a[1].data == b[1].data && a[2].data == b[2].data && a[5].data == b[5].data;
    assert a[3].data[0] == b[3].data[0] && a[4].data[0] == b[4].data[0];
    U64Same(o.chainId, o'.chainId);
  }

  lemma PhysicalTailSame(o: OrderFields, k: u64, o': OrderFields, k': u64)
    requires PhysicalTail(o, k) == PhysicalTail(o', k')
    ensures k == k' && o.quantity == o'.quantity && o.grossPrice == o'.grossPrice && o.validUntil == o'.validUntil
    ensures o.maker == o'.maker && o.taker == o'.taker && o.nonce == o'.nonce
  {
    var a, b := PhysicalTail(o, k), PhysicalTail(o', k');
    assert forall j :: 0 <= j < 7 ==> a[j].data == b[j].data;
    U64Same(k, k');
    U64Same(o.quantity, o'.quantity);
    U64Same(o.grossPrice, o'.grossPrice);
    U64Same(o.validUntil, o'.validUntil);
    U64Same(o.nonce, o'.nonce);
  }

  lemma SpreadTailSame(o: OrderFields, l: u64, u: u64, o': OrderFields, l': u64, u': u64)
    requires SpreadTail(o, l, u) == SpreadTail(o', l', u')
    ensures l == l' && u == u' && o.quantity == o'.quantity && o.grossPrice == o'.grossPrice
    ensures o.validUntil == o'.validUntil && o.maker == o'.maker && o.taker == o'.taker && o.nonce == o'.nonce
  {
    var a, b := SpreadTail(o, l, u), SpreadTail(o', l', u');
    assert forall j :: 0 <= j < 8 ==> a[j].data == b[j].data;
    U64Same(l, l');
    U64Same(u, u');
    U64Same(o.quantity, o'.quantity);
    U64Same(o.grossPrice, o'.grossPrice);
    U64Same(o.validUntil, o'.validUntil);
    U64Same(o.nonce, o'.nonce);
  }

  /** Piece lists that fill the same cells have the same shape. */
  lemma SameShape(a: seq<Piece>, b: seq<Piece>, cells: seq<nat>, n: nat)
    requires Fills(a, cells, n) && Fills(b, cells, n)
    ensures |a| == |b| && forall j :: 0 <= j < |a| ==> a[j].at == b[j].at && |a[j].data| == |b[j].data|
  {}

  lemma Halves<T>(h: seq<T>, t: seq<T>, h': seq<T>, t': seq<T>)
    requires |h| == |h'| && h + t == h' + t'
    ensures h == h' && t == t'
  {
    assert h == (h + t)[..|h|] && h' == (h' + t')[..|h|];
    assert t == (h + t)[|h|..] && t' == (h' + t')[|h|..];
  }

  lemma PhysicalPiecesSame(o: OrderFields, p: u8, k: u64, o': OrderFields, p': u8, k': u64)
    requires Written(Zeros(PHYSICAL_LEN), PhysicalPieces(o, p, k), 13)
        == Written(Zeros(PHYSICAL_LEN), PhysicalPieces(o', p', k'), 13)
    ensures o == o' && p == p' && k == k'
  {
    var a, b := PhysicalPieces(o, p, k), PhysicalPieces(o', p', k');
    SameShape(a, b, HEAD_CELLS + PHYSICAL_CELLS, 13);
    SameImage(Zeros(PHYSICAL_LEN), a, b);
    Halves(Head(o, p), PhysicalTail(o, k), Head(o', p'), PhysicalTail(o', k'));
    HeadSame(o, p, o', p');
    PhysicalTailSame(o, k, o', k');
  }

  /** Two physical preimages are equal exactly when every field, the put flag and the strike are. */
  lemma PhysicalInjective(o: OrderFields, isPut: bool, k: u64, o': OrderFields, isPut': bool, k': u64)
    ensures PhysicalPreimage(o, isPut, k) == PhysicalPreimage(o', isPut', k') <==> o == o' && isPut == isPut' && k == k'
  {
    if PhysicalPreimage(o, isPut, k) == PhysicalPreimage(o', isPut', k') {
      PhysicalPiecesSame(o, if isPut then 1 else 0, k, o', if isPut' then 1 else 0, k');
    }
  }

  /** Two spread preimages are equal exactly when all their arguments are. */
  lemma SpreadInjective(x: SpreadArgs, y: SpreadArgs)
    ensures SpreadPreimage(x) == SpreadPreimage(y) <==> x == y
  {
    if SpreadPreimage(x) == SpreadPreimage(y) {
      var a, b := SpreadPieces(x), SpreadPieces(y);
      SameShape(a, b, HEAD_CELLS + SPREAD_CELLS, 14);
      SameImage(Zeros(SPREAD_LEN), a, b);
      Halves(Head(x.order, KindByte(x.kind)), SpreadTail(x.order, x.lower, x.upper),
             Head(y.order, KindByte(y.kind)), SpreadTail(y.order, y.lower, y.upper));
      HeadSame(x.order, KindByte(x.kind), y.order, KindByte(y.kind));
      SpreadTailSame(x.order, x.lower, x.upper, y.order, y.lower, y.upper);
    }
  }
}
