/** Reads split into bounded chunks, as the status read and the account read both do. */
module Chunks {
  import opened Common

  /** A remote read: an answer of some length for a list of keys, or a transport error. */
  type Read<!K, +V, +E> = seq<K> -> Result<seq<V>, E>

  /** The answers of consecutive chunks, or the first thing that goes wrong; a short or long answer is `mismatch`. */
  function Chunked<K, V, E>(size: nat, read: Read<K, V, E>, mismatch: E, keys: seq<K>): (r: Result<seq<V>, E>)
    requires 0 < size
    ensures r.Success? ==> |r.value| == |keys|
    decreases |keys|
  {
    if keys == [] then
      Success([])
    else
      var n := Min(|keys|, size);
      var values :- read(keys[..n]);
      if |values| != n then Failure(mismatch) else Prepend(values, Chunked(size, read, mismatch, keys[n..]))
  }

  function Concat<K>(calls: seq<seq<K>>): seq<K> {
    if calls == [] then [] else Concat(calls[..|calls| - 1]) + calls[|calls| - 1]
  }

  /** The requests made: each non-empty and at most `size` long, together the keys in order. */
  ghost predicate Covers<K>(size: nat, calls: seq<seq<K>>, keys: seq<K>) {
    && (forall k :: 0 <= k < |calls| ==> 0 < |calls[k]| <= size)
    && Concat(calls) == keys
  }

  lemma CoversMore<K>(size: nat, calls: seq<seq<K>>, keys: seq<K>, chunk: seq<K>)
    requires Covers(size, calls, keys) && 0 < |chunk| <= size
    ensures Covers(size, calls + [chunk], keys + chunk)
  {}

  /** One iteration: the rest of the read starts with this chunk's values. */
  lemma ChunkedFrom<K, V, E>(size: nat, read: Read<K, V, E>, mismatch: E, keys: seq<K>, at: nat, end: nat, done: seq<V>)
    requires 0 < size && at < |keys| && end == at + Min(|keys| - at, size)
    ensures Prepend(done, Chunked(size, read, mismatch, keys[at..]))
         == (var reply := read(keys[at..end]);
             if reply.Failure? then Failure(reply.error)
             else if |reply.value| != end - at then Failure(mismatch)
             else Prepend(done + reply.value, Chunked(size, read, mismatch, keys[end..])))
  {
    assert keys[at..][..end - at] == keys[at..end];
    assert keys[at..][end - at..] == keys[end..];
    var reply, rest := read(keys[at..end]), Chunked(size, read, mismatch, keys[end..]);
    assert reply.Success? && rest.Success? ==> done + (reply.value + rest.value) == done + reply.value + rest.value;
  }

  method ReadChunks<K(==), V, E>(size: nat, read: Read<K, V, E>, mismatch: E, keys: seq<K>)
    returns (r: Result<seq<V>, E>, calls: seq<seq<K>>)
    requires 0 < size
    ensures r == Chunked(size, read, mismatch, keys)
    ensures r.Success? ==> Covers(size, calls, keys)
  {
    var results: seq<V> := [];
    calls := [];
    var at := 0;
    assert keys[0..] == keys && keys[..0] == [];
    PrependNothing(Chunked(size, read, mismatch, keys));
    while at < |keys|
      invariant at <= |keys|
      invariant Covers(size, calls, keys[..at])
      invariant Prepend(results, Chunked(size, read, mismatch, keys[at..])) == Chunked(size, read, mismatch, keys)
    {
      var end := at + Min(|keys| - at, size);
      var chunk := keys[at..end];
      ChunkedFrom(size, read, mismatch, keys, at, end, results);
      var reply := read(chunk);
      if reply.Failure? {
        return Failure(reply.error), calls;
      }
      if |reply.value| != |chunk| {
        return Failure(mismatch), calls;
      }
      CoversMore(size, calls, keys[..at], chunk);
      assert keys[..at] + chunk == keys[..end];
      calls := calls + [chunk];
      results := results + reply.value;
      at := end;
    }
    assert keys[..at] == keys && keys[at..] == [] && results + [] == results;
    r := Success(results);
  }

  /** A node that answers each key on its own, whatever chunk it is asked in. */
  ghost predicate Faithful<K(!new), V, E>(read: Read<K, V, E>, lookup: K -> V) {
    forall chunk: seq<K> :: read(chunk) == Success(Lookups(lookup, chunk))
  }

  function Lookups<K, V>(lookup: K -> V, keys: seq<K>): seq<V> {
    seq(|keys|, i requires 0 <= i < |keys| => lookup(keys[i]))
  }

  /** Chunking is invisible: against a faithful node the read is the per-key lookup, in order. */
  lemma {:induction false} ChunkingInvisible<K(!new), V, E>(size: nat, read: Read<K, V, E>, mismatch: E, lookup: K -> V,
        keys: seq<K>)
    requires 0 < size && Faithful(read, lookup)
    ensures Chunked(size, read, mismatch, keys) == Success(Lookups(lookup, keys))
    decreases |keys|
  {
    if keys == [] {
      assert Lookups(lookup, keys) == [];
    } else {
      var n := Min(|keys|, size);
      ChunkingInvisible(size, read, mismatch, lookup, keys[n..]);
      assert Lookups(lookup, keys[..n]) + Lookups(lookup, keys[n..]) == Lookups(lookup, keys);
    }
  }
}
