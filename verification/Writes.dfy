/** A byte buffer filled by slice copies at fixed offsets. */
module Writes {
  import opened Common
  import opened Bytes

  datatype Piece = Piece(at: nat, data: bytes)

  predicate InBounds(size: nat, p: Piece) {
    p.at + |p.data| <= size
  }

  /** `buf[at..at + len].copy_from_slice(data)` */
  function Write(buf: bytes, p: Piece): (r: bytes)
    requires InBounds(|buf|, p)
    ensures |r| == |buf|
  {
    seq(|buf|, i requires 0 <= i < |buf| => if p.at <= i < p.at + |p.data| then p.data[i - p.at] else buf[i])
  }

  predicate AllInBounds(size: nat, pieces: seq<Piece>) {
    forall k :: 0 <= k < |pieces| ==> InBounds(size, pieces[k])
  }

  /** `buf` after the first `k` pieces were written. */
  function Written(buf: bytes, pieces: seq<Piece>, k: nat): (r: bytes)
    requires AllInBounds(|buf|, pieces) && k <= |pieces|
    ensures |r| == |buf|
  {
    if k == 0 then buf else Write(Written(buf, pieces, k - 1), pieces[k - 1])
  }

  /** Two pieces that do not overlap. */
  predicate Apart(p: Piece, q: Piece) {
    p.at + |p.data| <= q.at || q.at + |q.data| <= p.at
  }

  ghost predicate AllApart(pieces: seq<Piece>) {
    forall i, j :: 0 <= i < j < |pieces| ==> Apart(pieces[i], pieces[j])
  }

  lemma WriteHere(buf: bytes, p: Piece)
    requires InBounds(|buf|, p)
    ensures Write(buf, p)[p.at..p.at + |p.data|] == p.data
  {}

  lemma WriteElsewhere(buf: bytes, p: Piece, q: Piece)
    requires InBounds(|buf|, p) && InBounds(|buf|, q) && Apart(p, q)
    ensures Write(buf, p)[q.at..q.at + |q.data|] == buf[q.at..q.at + |q.data|]
  {}

  /** Pieces that do not overlap can all be read back from where they were written. */
  lemma {:induction false} ReadBack(buf: bytes, pieces: seq<Piece>, k: nat, j: nat)
    requires AllInBounds(|buf|, pieces) && AllApart(pieces) && j < k <= |pieces|
    ensures var p := pieces[j]; Written(buf, pieces, k)[p.at..p.at + |p.data|] == p.data
  {
    if j == k - 1 {
      WriteHere(Written(buf, pieces, j), pieces[j]);
    } else {
      ReadBack(buf, pieces, k - 1, j);
      WriteElsewhere(Written(buf, pieces, k - 1), pieces[k - 1], pieces[j]);
    }
  }

  /** Same-shaped pieces that do not overlap and leave the same buffer are the same pieces. */
  lemma SameImage(buf: bytes, a: seq<Piece>, b: seq<Piece>)
    requires AllInBounds(|buf|, a) && AllApart(a) && AllInBounds(|buf|, b) && AllApart(b) && |a| == |b|
    requires forall j :: 0 <= j < |a| ==> a[j].at == b[j].at && |a[j].data| == |b[j].data|
    requires Written(buf, a, |a|) == Written(buf, b, |b|)
    ensures a == b
  {
    forall j | 0 <= j < |a|
      ensures a[j] == b[j]
    {
      ReadBack(buf, a, |a|, j);
      ReadBack(buf, b, |b|, j);
    }
  }

  /** Copies the `k`-th of `all` pieces into an array that holds the pieces before it. */
  method Copy(buf: array<u8>, ghost start: bytes, ghost all: seq<Piece>, ghost k: nat, at: nat, data: bytes)
    requires |start| == buf.Length && AllInBounds(|start|, all) && k < |all| && all[k] == Piece(at, data)
    requires buf[..] == Written(start, all, k)
    modifies buf
    ensures buf[..] == Written(start, all, k + 1)
  {
    ghost var before := buf[..];
    assert InBounds(|start|, all[k]);
    for i := 0 to |data|
      invariant forall k :: 0 <= k < buf.Length ==> buf[k] == if at <= k < at + i then data[k - at] else before[k]
    {
      buf[at + i] := data[i];
    }
    assert buf[..] == Write(before, Piece(at, data));
  }
}
