/** A bounded list read item by item until its region is used up, over any decoder. */
module ItemLists {
  import opened Common
  import opened Bytes

  type Decoder<!T, !E> = bytes -> Result<(T, bytes), E>

  /** The items of `b` after `count` were read; reading another past `limit` is the error `tooMany`. */
  function Items<T, E>(decode: Decoder<T, E>, limit: nat, tooMany: E, b: bytes, count: nat): Result<seq<T>, E>
    requires count <= limit
    decreases limit - count
  {
    if b == [] then
      Success([])
    else if count == limit then
      Failure(tooMany)
    else
      var (item, rest) :- decode(b);
      var items :- Items(decode, limit, tooMany, rest, count + 1);
      Success([item] + items)
  }

  function PutItems<T>(encode: (T, bytes) -> bytes, items: seq<T>): bytes {
    if items == [] then [] else encode(items[0], PutItems(encode, items[1..]))
  }

  /** Reading undoes writing, for one item, and writing writes at least one byte. */
  ghost predicate Undoes<T, E>(decode: Decoder<T, E>, ok: T -> bool, encode: (T, bytes) -> bytes, b: bytes, item: T,
        rest: bytes)
  {
    && (decode(b) == Success((item, rest)) <==> ok(item) && b == encode(item, rest))
    && (ok(item) ==> |rest| < |encode(item, rest)|)
  }

  /** `encode` is the inverse of `decode` on the items that are `ok`. */
  ghost predicate Inverse<T(!new), E(!new)>(decode: Decoder<T, E>, ok: T -> bool, encode: (T, bytes) -> bytes) {
    forall b, item, rest :: Undoes(decode, ok, encode, b, item, rest)
  }

  lemma {:induction false} ItemsForward<T(!new), E(!new)>(
      decode: Decoder<T, E>, ok: T -> bool, encode: (T, bytes) -> bytes, limit: nat, tooMany: E, items: seq<T>,
      count: nat)
    requires Inverse(decode, ok, encode) && count + |items| <= limit
    requires forall k :: 0 <= k < |items| ==> ok(items[k])
    ensures Items(decode, limit, tooMany, PutItems(encode, items), count) == Success(items)
    decreases |items|
  {
    if items != [] {
      var rest := PutItems(encode, items[1..]);
      assert Undoes(decode, ok, encode, encode(items[0], rest), items[0], rest);
      assert decode(encode(items[0], rest)) == Success((items[0], rest));
      ItemsForward(decode, ok, encode, limit, tooMany, items[1..], count + 1);
      assert items == [items[0]] + items[1..];
    }
  }

  lemma {:induction false} ItemsBack<T(!new), E(!new)>(
      decode: Decoder<T, E>, ok: T -> bool, encode: (T, bytes) -> bytes, limit: nat, tooMany: E, b: bytes, count: nat)
    requires count <= limit && Inverse(decode, ok, encode) && Items(decode, limit, tooMany, b, count).Success?
    ensures var items := Items(decode, limit, tooMany, b, count).value;
            && (forall k :: 0 <= k < |items| ==> ok(items[k]))
            && b == PutItems(encode, items) && count + |items| <= limit
    decreases limit - count
  {
    if b != [] {
      var (item, rest) := decode(b).value;
      assert Undoes(decode, ok, encode, b, item, rest);
      ItemsBack(decode, ok, encode, limit, tooMany, rest, count + 1);
      var tail := Items(decode, limit, tooMany, rest, count + 1).value;
      assert ([item] + tail)[1..] == tail;
    }
  }

  /** One turn of the loop that reads items. */
  lemma PrependOne<T, E>(decode: Decoder<T, E>, limit: nat, tooMany: E, done: seq<T>, b: bytes)
    requires b != [] && |done| < limit
    ensures Prepend(done, Items(decode, limit, tooMany, b, |done|))
         == (var decoded := decode(b);
             if decoded.Failure? then Failure(decoded.error)
             else Prepend(done + [decoded.value.0], Items(decode, limit, tooMany, decoded.value.1, |done| + 1)))
  {
    if decode(b).Success? {
      var (item, rest) := decode(b).value;
      var tail := Items(decode, limit, tooMany, rest, |done| + 1);
      assert tail.Success? ==> done + ([item] + tail.value) == done + [item] + tail.value;
    }
  }
}
