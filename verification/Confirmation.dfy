/**
 * Waiting for transaction signatures: subscription acknowledgements and notifications arrive in any
 * order over one socket and are joined through two maps; what is still pending when the socket ends
 * or the deadline cuts it is reconciled by one chunked status read.
 */
module Confirmation {
  import opened Common

  datatype ConfirmationStatus = Confirmed | Failed(reason: string) | Pending

  datatype ChainError = InvalidAccountData | Socket | Rpc(reason: string)

  /** One item read from the socket, as far as the loop distinguishes it. */
  datatype Message =
    | TransportError
    | NotJson
    | Ping(ponged: bool)
    | Close
    | OtherFrame
    | ErrorReply
    | Ack(id: u64, subscription: u64)
    | Notification(topic: Option<u64>, err: Option<Option<string>>)
    | OtherJson

  function Verdict(err: Option<string>): (s: ConfirmationStatus)
    ensures !s.Pending?
  {
    if err.None? then Confirmed else Failed(err.value)
  }

  /** The loop's variables: results by index, acknowledged subscriptions, early notifications. */
  datatype Join = Join(
    results: seq<ConfirmationStatus>, subscriptions: map<u64, nat>, early: map<u64, ConfirmationStatus>)

  datatype Flow = Continue | Stop | Fail(error: ChainError)

  predicate AllResolved(results: seq<ConfirmationStatus>) {
    forall i :: 0 <= i < |results| ==> !results[i].Pending?
  }

  /** Every acknowledged subscription is for an index of the results. */
  predicate Indexed(j: Join) {
    forall s :: s in j.subscriptions ==> j.subscriptions[s] < |j.results|
  }

  function OnAck(j: Join, id: u64, subscription: u64): (Join, Flow)
    requires Indexed(j)
  {
    if id >= |j.results| then
      (j, Fail(InvalidAccountData))
    else if subscription in j.early then
      (j.(results := j.results[id := j.early[subscription]], early := j.early - {subscription}), Continue)
    else
      (j.(subscriptions := j.subscriptions[subscription := id]), Continue)
  }

  function OnNotification(j: Join, subscription: u64, status: ConfirmationStatus): (Join, Flow)
    requires Indexed(j)
  {
    if subscription in j.subscriptions then
      (j.(results := j.results[j.subscriptions[subscription] := status],
          subscriptions := j.subscriptions - {subscription}), Continue)
    else if |j.early| >= |j.results| then
      (j, Fail(InvalidAccountData))
    else
      (j.(early := j.early[subscription := status]), Continue)
  }

  /** The branches of one loop iteration, before the all-resolved test. */
  function OnMessage(j: Join, m: Message): (Join, Flow)
    requires Indexed(j)
  {
    match m
    case TransportError => (j, Fail(Socket))
    case NotJson => (j, Fail(Socket))
    case Ping(ponged) => (j, if ponged then Continue else Fail(Socket))
    case Close => (j, Stop)
    case OtherFrame => (j, Continue)
    case ErrorReply => (j, Stop)
    case Ack(id, subscription) => OnAck(j, id, subscription)
    case Notification(subscription, err) =>
      if subscription.None? || err.None? then (j, Fail(InvalidAccountData))
      else OnNotification(j, subscription.value, Verdict(err.value))
    case OtherJson => (j, Continue)
  }

  /** Messages that reach the all-resolved test; control frames `continue` past it. */
  predicate TestsCompletion(m: Message) {
    m.Ack? || m.Notification? || m.OtherJson?
  }

  /** The results after the loop has read `messages`, wherever it stops among them. */
  function Listen(j: Join, messages: seq<Message>): (r: (seq<ConfirmationStatus>, Result<(), ChainError>))
    requires Indexed(j)
    ensures |r.0| == |j.results|
    decreases |messages|
  {
    if messages == [] then
      (j.results, Success(()))
    else
      var (j', flow) := OnMessage(j, messages[0]);
      match flow
      case Fail(error) => (j'.results, Failure(error))
      case Stop => (j'.results, Success(()))
      case Continue =>
        if TestsCompletion(messages[0]) && AllResolved(j'.results) then (j'.results, Success(()))
        else Listen(j', messages[1..])
  }

  function Start(n: nat): Join {
    Join(seq(n, i => Pending), map[], map[])
  }

  /** The message loop, updating the caller's results in place. */
  method SubscribeSignatures(results: array<ConfirmationStatus>, messages: seq<Message>)
        returns (r: Result<(), ChainError>)
    modifies results
    ensures (results[..], r) == Listen(Join(old(results[..]), map[], map[]), messages)
  {
    var subscriptions: map<u64, nat>, early: map<u64, ConfirmationStatus> := map[], map[];
    ghost var start := Join(results[..], map[], map[]);
    var next := 0;
    while next < |messages|
      invariant next <= |messages|
      invariant Indexed(Join(results[..], subscriptions, early))
      invariant Listen(Join(results[..], subscriptions, early), messages[next..]) == Listen(start, messages)
    {
      ghost var j := Join(results[..], subscriptions, early);
      var m := messages[next];
      assert messages[next..][0] == m && messages[next..][1..] == messages[next + 1..];
      next := next + 1;
      if m.TransportError? || m.NotJson? {
        return Failure(Socket);
      }
      if m.Close? || m.ErrorReply? {
        return Success(());
      }
      if m.Ping? {
        if !m.ponged {
          return Failure(Socket);
        }
        continue;
      }
      if m.OtherFrame? {
        continue;
      }
      if m.Ack? {
        if m.id >= results.Length {
          return Failure(InvalidAccountData);
        }
        if m.subscription in early {
          results[m.id] := early[m.subscription];
          early := early - {m.subscription};
        } else {
          subscriptions := subscriptions[m.subscription := m.id];
        }
      } else if m.Notification? {
        if m.topic.None? || m.err.None? {
          return Failure(InvalidAccountData);
        }
        var subscription, status := m.topic.value, Verdict(m.err.value);
        if subscription in subscriptions {
          results[subscriptions[subscription]] := status;
          subscriptions := subscriptions - {subscription};
        } else {
          if |early| >= results.Length {
            return Failure(InvalidAccountData);
          }
          early := early[subscription := status];
        }
      }
      assert (Join(results[..], subscriptions, early), Continue) == OnMessage(j, m);
      var done := Resolved(results);
      if done {
        return Success(());
      }
    }
    r := Success(());
  }

  method Resolved(results: array<ConfirmationStatus>) returns (all: bool)
    ensures all == AllResolved(results[..])
  {
    for i := 0 to results.Length
      invariant forall k :: 0 <= k < i ==> !results[k].Pending?
    {
      if results[i].Pending? {
        assert results[..][i].Pending?;
        return false;
      }
    }
    all := true;
  }

  // ---- any server: a result is only ever what its own subscription was told ----

  /** `past` acknowledged `i` under some subscription that was notified of `status`. */
  ghost predicate Attributed(past: seq<Message>, i: nat, status: ConfirmationStatus) {
    exists s, err :: i <= U64_MAX && Ack(i, s) in past && Notification(Some(s), Some(err)) in past
        && status == Verdict(err)
  }

  ghost predicate NotifiedOf(past: seq<Message>, s: u64, status: ConfirmationStatus) {
    exists err :: Notification(Some(s), Some(err)) in past && status == Verdict(err)
  }

  ghost predicate Justified(j: Join, past: seq<Message>) {
    && Indexed(j)
    && (forall s :: s in j.subscriptions ==> j.subscriptions[s] <= U64_MAX && Ack(j.subscriptions[s], s) in past)
    && (forall s :: s in j.early ==> NotifiedOf(past, s, j.early[s]))
    && (forall i :: 0 <= i < |j.results| && !j.results[i].Pending? ==> Attributed(past, i, j.results[i]))
  }

  /** A longer history justifies at least as much. */
  lemma HistoryGrows(j: Join, past: seq<Message>, m: Message)
    requires Justified(j, past)
    ensures Justified(j, past + [m])
  {}

  lemma AckJustified(j: Join, past: seq<Message>, id: u64, s: u64)
    requires Justified(j, past) && Ack(id, s) in past
    ensures Justified(OnAck(j, id, s).0, past)
  {}

  lemma NotificationJustified(j: Join, past: seq<Message>, s: u64, err: Option<string>)
    requires Justified(j, past) && Notification(Some(s), Some(err)) in past
    ensures Justified(OnNotification(j, s, Verdict(err)).0, past)
  {
    assert NotifiedOf(past, s, Verdict(err));
    if s in j.subscriptions {
      assert Attributed(past, j.subscriptions[s], Verdict(err));
    }
  }

  lemma StepJustified(j: Join, past: seq<Message>, m: Message)
    requires Justified(j, past)
    ensures Justified(OnMessage(j, m).0, past + [m])
  {
    HistoryGrows(j, past, m);
    if m.Ack? {
      AckJustified(j, past + [m], m.id, m.subscription);
    } else if m.Notification? && m.topic.Some? && m.err.Some? {
      NotificationJustified(j, past + [m], m.topic.value, m.err.value);
    }
  }

  /**
   * Whatever the server sends, every status that is not pending was notified for a subscription
   * that the server acknowledged for that very index.
   */
  lemma {:induction false} ListenAttributes(j: Join, past: seq<Message>, rest: seq<Message>, i: nat)
    requires Justified(j, past) && i < |j.results|
    ensures var status := Listen(j, rest).0[i]; !status.Pending? ==> Attributed(past + rest, i, status)
    decreases |rest|
  {
    if rest == [] {
      assert past + rest == past;
    } else {
      var m := rest[0];
      var (j', flow) := OnMessage(j, m);
      StepJustified(j, past, m);
      assert past + [m] + rest[1..] == past + rest;
      if flow.Continue? && !(TestsCompletion(m) && AllResolved(j'.results)) {
        ListenAttributes(j', past + [m], rest[1..], i);
      } else if !j'.results[i].Pending? {
        AttributionGrows(past + [m], rest[1..], i, j'.results[i]);
      }
    }
  }

  lemma AttributionGrows(past: seq<Message>, more: seq<Message>, i: nat, status: ConfirmationStatus)
    requires Attributed(past, i, status)
    ensures Attributed(past + more, i, status)
  {}

  // ---- a well-behaved server: the join does not depend on the order of arrival ----

  /** The server's side: index `i` is watched under `topics[i]`, and no two indices share a topic. */
  predicate DistinctTopics(topics: seq<u64>) {
    forall i, k :: 0 <= i < k < |topics| ==> topics[i] != topics[k]
  }

  /** A message such a server may send. */
  predicate Expected(topics: seq<u64>, m: Message) {
    || (m.Ack? && m.id < |topics| && m.subscription == topics[m.id])
    || (m.Notification? && m.topic.Some? && m.topic.value in topics && m.err.Some?)
    || m == Ping(true) || m.OtherFrame? || m.OtherJson?
  }

  /** Two acknowledgements of one index, or two notifications of one topic. */
  predicate Repeats(a: Message, b: Message) {
    || (a.Ack? && b.Ack? && a.id == b.id)
    || (a.Notification? && b.Notification? && a.topic == b.topic)
  }

  predicate WellBehaved(topics: seq<u64>, messages: seq<Message>) {
    && DistinctTopics(topics)
    && (forall k :: 0 <= k < |messages| ==> Expected(topics, messages[k]))
    && (forall a, b :: 0 <= a < b < |messages| ==> !Repeats(messages[a], messages[b]))
  }

  /** Whether index `i` was acknowledged among `messages`. */
  predicate Acked(messages: seq<Message>, i: nat)
    decreases |messages|
  {
    if messages == [] then false
    else
      var last := messages[|messages| - 1];
      (last.Ack? && last.id == i) || Acked(messages[..|messages| - 1], i)
  }

  /** The status that `messages` tell for a topic, if any. */
  function Told(messages: seq<Message>, topic: u64): (s: Option<ConfirmationStatus>)
    ensures s.Some? ==> !s.value.Pending?
    decreases |messages|
  {
    if messages == [] then None
    else
      var last := messages[|messages| - 1];
      if last.Notification? && last.topic == Some(topic) && last.err.Some? then Some(Verdict(last.err.value))
      else Told(messages[..|messages| - 1], topic)
  }

  /** The order-free meaning of a stream: an index has the status its topic was told, once it was also acknowledged. */
  function Joined(topics: seq<u64>, messages: seq<Message>, i: nat): ConfirmationStatus
    requires i < |topics|
  {
    if Acked(messages, i) && Told(messages, topics[i]).Some? then Told(messages, topics[i]).value else Pending
  }

  lemma {:induction false} AckedMeans(messages: seq<Message>, i: nat)
    ensures Acked(messages, i) <==> exists m :: m in messages && m.Ack? && m.id == i
    decreases |messages|
  {
    if messages != [] {
      var before, last := messages[..|messages| - 1], messages[|messages| - 1];
      assert messages == before + [last];
      AckedMeans(before, i);
    }
  }

  /** Under a well-behaved server a topic is told at most one status, the one in its notification. */
  lemma {:induction false} ToldMeans(topics: seq<u64>, messages: seq<Message>, topic: u64, err: Option<string>)
    requires WellBehaved(topics, messages)
    ensures Notification(Some(topic), Some(err)) in messages ==> Told(messages, topic) == Some(Verdict(err))
    ensures Told(messages, topic).Some? ==> exists e :: Notification(Some(topic), Some(e)) in messages
    decreases |messages|
  {
    if messages != [] {
      var before, last := messages[..|messages| - 1], messages[|messages| - 1];
      assert messages == before + [last];
      ToldMeans(topics, before, topic, err);
      if Notification(Some(topic), Some(err)) in before {
        var k :| 0 <= k < |before| && before[k] == Notification(Some(topic), Some(err));
        assert !Repeats(messages[k], last);
      } else if last.Notification? && last.topic == Some(topic) {
        assert Expected(topics, last);
        assert last == Notification(Some(topic), Some(last.err.value));
      } else if Told(before, topic).Some? {
        var e :| Notification(Some(topic), Some(e)) in before;
        assert Notification(Some(topic), Some(e)) in messages;
      }
    }
  }

  /** The loop's variables, described by what has been read so far. */
  ghost predicate Describes(topics: seq<u64>, past: seq<Message>, j: Join) {
    && |j.results| == |topics|
    && (forall i :: 0 <= i < |topics| ==> j.results[i] == Joined(topics, past, i))
    && (forall s :: s in j.subscriptions || s in j.early ==> s in topics)
    && (forall i :: 0 <= i < |topics| ==> IndexDescribed(topics, past, j, i))
  }

  predicate IndexDescribed(topics: seq<u64>, past: seq<Message>, j: Join, i: nat)
    requires i < |topics|
  {
    var t := topics[i];
    && (t in j.subscriptions <==> Acked(past, i) && Told(past, t).None?)
    && (t in j.subscriptions ==> j.subscriptions[t] == i)
    && (t in j.early <==> !Acked(past, i) && Told(past, t).Some?)
    && (t in j.early ==> Some(j.early[t]) == Told(past, t))
  }

  lemma DescribedIndexed(topics: seq<u64>, past: seq<Message>, j: Join)
    requires Describes(topics, past, j)
    ensures Indexed(j)
  {
    forall s | s in j.subscriptions
      ensures j.subscriptions[s] < |j.results|
    {
      var i :| 0 <= i < |topics| && topics[i] == s;
      assert IndexDescribed(topics, past, j, i);
    }
  }

  /** Reading one more message adds its acknowledgement or its notification and nothing else. */
  lemma ReadOne(past: seq<Message>, m: Message)
    ensures forall i :: Acked(past + [m], i) == ((m.Ack? && m.id == i) || Acked(past, i))
    ensures forall t: u64 :: Told(past + [m], t) ==
              if m.Notification? && m.topic == Some(t) && m.err.Some? then Some(Verdict(m.err.value)) else Told(past, t)
  {}

  /** A well-behaved stream never repeats what it has already sent. */
  lemma NewsOnly(topics: seq<u64>, past: seq<Message>, m: Message)
    requires WellBehaved(topics, past + [m])
    ensures WellBehaved(topics, past)
    ensures m.Ack? ==> !Acked(past, m.id)
    ensures m.Notification? ==> m.topic.Some? && Told(past, m.topic.value).None?
  {
    var now := past + [m];
    assert forall k :: 0 <= k < |past| ==> past[k] == now[k];
    assert now[|past|] == m;
    if m.Ack? {
      AckedMeans(past, m.id);
    }
    if m.Notification? {
      assert Expected(topics, now[|past|]);
      ToldMeans(topics, past, m.topic.value, None);
    }
  }

  lemma AckDescribed(topics: seq<u64>, past: seq<Message>, j: Join, m: Message)
    requires Describes(topics, past, j) && WellBehaved(topics, past + [m]) && m.Ack?
    ensures Indexed(j)
    ensures OnMessage(j, m).1.Continue? && Describes(topics, past + [m], OnMessage(j, m).0)
  {
    DescribedIndexed(topics, past, j);
    NewsOnly(topics, past, m);
    ReadOne(past, m);
    assert Expected(topics, (past + [m])[|past|]);
    assert IndexDescribed(topics, past, j, m.id);
    var j' := OnMessage(j, m).0;
    forall i | 0 <= i < |topics|
      ensures IndexDescribed(topics, past + [m], j', i)
    {
      assert IndexDescribed(topics, past, j, i);
    }
  }

  /** The topics of a server number at most its indices, so an early notification always has room. */
  lemma {:induction false} EarlyHasRoom(topics: seq<u64>, early: set<u64>)
    requires forall s :: s in early ==> s in topics
    ensures |early| <= |topics|
    decreases |topics|
  {
    if topics != [] {
      var last := topics[|topics| - 1];
      EarlyHasRoom(topics[..|topics| - 1], early - {last});
      if last in early {
        assert |early - {last}| == |early| - 1;
      } else {
        assert early - {last} == early;
      }
    } else {
      assert early == {};
    }
  }

  /** The index a topic belongs to. */
  lemma TopicIndex(topics: seq<u64>, past: seq<Message>, j: Join, m: Message) returns (i: nat)
    requires Describes(topics, past, j) && WellBehaved(topics, past + [m]) && m.Notification?
    ensures m.topic.Some? && m.err.Some? && Told(past, m.topic.value).None?
    ensures i < |topics| && topics[i] == m.topic.value && IndexDescribed(topics, past, j, i)
    ensures forall k :: 0 <= k < |topics| && k != i ==> topics[k] != m.topic.value
  {
    NewsOnly(topics, past, m);
    assert Expected(topics, (past + [m])[|past|]);
    i :| 0 <= i < |topics| && topics[i] == m.topic.value;
  }

  lemma RoomForNotification(topics: seq<u64>, past: seq<Message>, j: Join, m: Message)
    requires Describes(topics, past, j) && WellBehaved(topics, past + [m]) && m.Notification?
    ensures Indexed(j) && OnMessage(j, m).1.Continue?
  {
    DescribedIndexed(topics, past, j);
    var i := TopicIndex(topics, past, j, m);
    EarlyHasRoom(topics, j.early.Keys + {m.topic.value});
    assert m.topic.value !in j.early.Keys;
    assert |j.early.Keys + {m.topic.value}| == |j.early| + 1;
  }

  /** What a notification changes, index by index. */
  lemma NotificationAt(topics: seq<u64>, past: seq<Message>, j: Join, m: Message, i0: nat, i: nat)
    requires Describes(topics, past, j) && DistinctTopics(topics) && Indexed(j) && i < |topics| && i0 < |topics|
    requires m.Notification? && m.topic == Some(topics[i0]) && m.err.Some? && Told(past, topics[i0]).None?
    requires OnMessage(j, m).1.Continue?
    ensures var j' := OnMessage(j, m).0;
            && |j'.results| == |topics|
            && IndexDescribed(topics, past + [m], j', i)
            && j'.results[i] == Joined(topics, past + [m], i)
  {
    ReadOne(past, m);
    assert IndexDescribed(topics, past, j, i);
    assert IndexDescribed(topics, past, j, i0);
    assert i != i0 ==> topics[i] != topics[i0];
  }

  lemma NotificationDescribed(topics: seq<u64>, past: seq<Message>, j: Join, m: Message)
    requires Describes(topics, past, j) && WellBehaved(topics, past + [m]) && m.Notification?
    ensures Indexed(j)
    ensures OnMessage(j, m).1.Continue? && Describes(topics, past + [m], OnMessage(j, m).0)
  {
    RoomForNotification(topics, past, j, m);
    var i0 := TopicIndex(topics, past, j, m);
    var j' := OnMessage(j, m).0;
    assert |j'.results| == |topics|;
    forall i | 0 <= i < |topics|
      ensures IndexDescribed(topics, past + [m], j', i)
      ensures j'.results[i] == Joined(topics, past + [m], i)
    {
      NotificationAt(topics, past, j, m, i0, i);
    }
  }

  lemma StepDescribed(topics: seq<u64>, past: seq<Message>, j: Join, m: Message)
    requires Describes(topics, past, j) && WellBehaved(topics, past + [m])
    ensures Indexed(j)
    ensures OnMessage(j, m).1.Continue? && Describes(topics, past + [m], OnMessage(j, m).0)
  {
    DescribedIndexed(topics, past, j);
    if m.Ack? {
      AckDescribed(topics, past, j, m);
    } else if m.Notification? {
      NotificationDescribed(topics, past, j, m);
    } else {
      assert Expected(topics, (past + [m])[|past|]);
      ReadOne(past, m);
      forall i | 0 <= i < |topics|
        ensures IndexDescribed(topics, past + [m], j, i)
      {
        assert IndexDescribed(topics, past, j, i);
      }
    }
  }

  /** Once resolved, an index is not touched by the rest of a well-behaved stream. */
  lemma {:induction false} ResolvedIsFinal(topics: seq<u64>, past: seq<Message>, more: seq<Message>, i: nat)
    requires WellBehaved(topics, past + more) && i < |topics| && !Joined(topics, past, i).Pending?
    ensures Joined(topics, past + more, i) == Joined(topics, past, i)
    decreases |more|
  {
    if more == [] {
      assert past + more == past;
    } else {
      var before, last := more[..|more| - 1], more[|more| - 1];
      assert past + more == (past + before) + [last];
      NewsOnly(topics, past + before, last);
      ResolvedIsFinal(topics, past, before, i);
      ReadOne(past + before, last);
    }
  }

  lemma PrefixWellBehaved(topics: seq<u64>, past: seq<Message>, rest: seq<Message>)
    requires WellBehaved(topics, past + rest) && rest != []
    ensures WellBehaved(topics, past + [rest[0]])
  {
    var all, now := past + rest, past + [rest[0]];
    assert forall k :: 0 <= k < |now| ==> now[k] == all[k];
  }

  lemma {:induction false} JoinFrom(topics: seq<u64>, past: seq<Message>, j: Join, rest: seq<Message>)
    requires Describes(topics, past, j) && WellBehaved(topics, past + rest)
    ensures Indexed(j)
    ensures Listen(j, rest).1 == Success(())
    ensures forall i :: 0 <= i < |topics| ==> Listen(j, rest).0[i] == Joined(topics, past + rest, i)
    decreases |rest|
  {
    DescribedIndexed(topics, past, j);
    if rest == [] {
      assert past + rest == past;
    } else {
      var m := rest[0];
      PrefixWellBehaved(topics, past, rest);
      StepDescribed(topics, past, j, m);
      var j' := OnMessage(j, m).0;
      assert past + [m] + rest[1..] == past + rest;
      if TestsCompletion(m) && AllResolved(j'.results) {
        forall i | 0 <= i < |topics|
          ensures j'.results[i] == Joined(topics, past + rest, i)
        {
          ResolvedIsFinal(topics, past + [m], rest[1..], i);
        }
      } else {
        JoinFrom(topics, past + [m], j', rest[1..]);
      }
    }
  }

  /**
   * Against a well-behaved server, wherever the stream is cut, each index has exactly the status
   * its topic was told if its acknowledgement also arrived, and is pending otherwise. The loop
   * never fails; in particular the bound on early notifications never fires.
   */
  lemma ListenJoins(topics: seq<u64>, messages: seq<Message>)
    requires WellBehaved(topics, messages)
    ensures Listen(Start(|topics|), messages).1 == Success(())
    ensures forall i :: 0 <= i < |topics| ==> Listen(Start(|topics|), messages).0[i] == Joined(topics, messages, i)
  {
    assert Describes(topics, [], Start(|topics|));
    assert [] + messages == messages;
    JoinFrom(topics, [], Start(|topics|), messages);
  }

  /** Any two arrival orders of the same messages give the same results. */
  lemma OrderIndependent(topics: seq<u64>, a: seq<Message>, b: seq<Message>)
    requires WellBehaved(topics, a) && WellBehaved(topics, b)
    requires multiset(a) == multiset(b)
    ensures Listen(Start(|topics|), a) == Listen(Start(|topics|), b)
  {
    ListenJoins(topics, a);
    ListenJoins(topics, b);
    forall m: Message
      ensures m in a <==> m in b
    {
      assert m in a <==> m in multiset(a);
      assert m in b <==> m in multiset(b);
    }
    forall i | 0 <= i < |topics|
      ensures Joined(topics, a, i) == Joined(topics, b, i)
    {
      AckedMeans(a, i);
      AckedMeans(b, i);
      SameTold(topics, a, b, topics[i]);
    }
    assert Listen(Start(|topics|), a).0 == Listen(Start(|topics|), b).0;
  }

  lemma SameTold(topics: seq<u64>, a: seq<Message>, b: seq<Message>, topic: u64)
    requires WellBehaved(topics, a) && WellBehaved(topics, b)
    requires forall m :: m in a <==> m in b
    ensures Told(a, topic) == Told(b, topic)
  {
    ToldMeans(topics, a, topic, None);
    ToldMeans(topics, b, topic, None);
    if Told(a, topic).Some? {
      var e :| Notification(Some(topic), Some(e)) in a;
      ToldMeans(topics, a, topic, e);
      ToldMeans(topics, b, topic, e);
    } else if Told(b, topic).Some? {
      var e :| Notification(Some(topic), Some(e)) in b;
      ToldMeans(topics, a, topic, e);
    }
  }

  /**
   * What a well-behaved server's stream reports, message by message: an index is confirmed exactly when it was
   * acknowledged and its topic notified without an error, failed exactly when notified with that error, else pending.
   */
  lemma StreamReports(topics: seq<u64>, messages: seq<Message>, i: nat, reason: string)
    requires WellBehaved(topics, messages) && i < |topics| && i <= U64_MAX
    ensures var status := Listen(Start(|topics|), messages).0[i];
            var acked := Ack(i, topics[i]) in messages;
            && (status == Confirmed <==> acked && Notification(Some(topics[i]), Some(None)) in messages)
            && (status == Failed(reason) <==> acked && Notification(Some(topics[i]), Some(Some(reason))) in messages)
            && (status == Pending <==> !acked || !exists err :: Notification(Some(topics[i]), Some(err)) in messages)
  {
    ListenJoins(topics, messages);
    AckedExactly(topics, messages, i);
    ToldExactly(topics, messages, topics[i], None);
    ToldExactly(topics, messages, topics[i], Some(reason));
  }

  /** A topic was told a verdict exactly by a notification of it, and nothing exactly when there is none. */
  lemma ToldExactly(topics: seq<u64>, messages: seq<Message>, topic: u64, err: Option<string>)
    requires WellBehaved(topics, messages)
    ensures Told(messages, topic) == Some(Verdict(err)) <==> Notification(Some(topic), Some(err)) in messages
    ensures Told(messages, topic).None? <==> !exists e :: Notification(Some(topic), Some(e)) in messages
  {
    ToldMeans(topics, messages, topic, err);
    if e: Option<string> :| Notification(Some(topic), Some(e)) in messages {
      ToldMeans(topics, messages, topic, e);
    }
  }

  lemma AckedExactly(topics: seq<u64>, messages: seq<Message>, i: nat)
    requires WellBehaved(topics, messages) && i < |topics| && i <= U64_MAX
    ensures Acked(messages, i) <==> Ack(i, topics[i]) in messages
  {
    AckedMeans(messages, i);
    if Acked(messages, i) {
      var m :| m in messages && m.Ack? && m.id == i;
      var k :| 0 <= k < |messages| && messages[k] == m;
      assert Expected(topics, messages[k]);
    }
  }

  /** For any server at all: a confirmed index was notified without an error, a failed one with that error. */
  lemma AnyStreamReports(n: nat, messages: seq<Message>, i: nat, reason: string)
    requires i < n
    ensures var status := Listen(Start(n), messages).0[i];
            && (status == Confirmed ==> NotifiedAs(messages, i, None))
            && (status == Failed(reason) ==> NotifiedAs(messages, i, Some(reason)))
  {
    assert Justified(Start(n), []);
    ListenAttributes(Start(n), [], messages, i);
    assert [] + messages == messages;
  }

  /** Index `i` was acknowledged under some subscription that was notified with `err`. */
  ghost predicate NotifiedAs(messages: seq<Message>, i: nat, err: Option<string>) {
    i <= U64_MAX && exists s :: Ack(i, s) in messages && Notification(Some(s), Some(err)) in messages
  }

  /** What each other message does, whatever was heard before it and whatever follows. */
  lemma StreamEnds(j: Join, m: Message, rest: seq<Message>)
    requires Indexed(j)
    ensures var all := Listen(j, [m] + rest);
            && (m.Close? || m.ErrorReply? ==> all == (j.results, Success(())))
            && (m.TransportError? || m.NotJson? || m == Ping(false) ==> all == (j.results, Failure(Socket)))
            && (m.OtherFrame? || m == Ping(true) ==> all == Listen(j, rest))
            && (m.OtherJson? ==> all == if AllResolved(j.results) then (j.results, Success(())) else Listen(j, rest))
            && (m.Notification? && (m.topic.None? || m.err.None?) ==> all == (j.results, Failure(InvalidAccountData)))
            && (m.Ack? && |j.results| <= m.id ==> all == (j.results, Failure(InvalidAccountData)))
  {
    assert ([m] + rest)[1..] == rest;
  }

  /** Notifications of these topics with these errors, in order. */
  function Notices(topics: seq<u64>, errs: seq<Option<string>>): seq<Message>
    requires |topics| == |errs|
  {
    seq(|topics|, i requires 0 <= i < |topics| => Notification(Some(topics[i]), Some(errs[i])))
  }

  /** Of notifications before any acknowledgement exactly as many are held as there are indices; one more is refused. */
  lemma {:induction false} EarlyBound(n: nat, topics: seq<u64>, errs: seq<Option<string>>)
    requires |topics| == |errs| && Distinct(topics)
    ensures Listen(Start(n), Notices(topics, errs))
         == (Start(n).results, if |topics| <= n then Success(()) else Failure(InvalidAccountData))
  {
    EarlyBoundFrom(Start(n), topics, errs);
  }

  ghost predicate Distinct(topics: seq<u64>) {
    forall i, k :: 0 <= i < k < |topics| ==> topics[i] != topics[k]
  }

  lemma {:induction false} EarlyBoundFrom(j: Join, topics: seq<u64>, errs: seq<Option<string>>)
    requires |topics| == |errs| && Distinct(topics) && forall k :: 0 <= k < |topics| ==> topics[k] !in j.early
    requires j.subscriptions == map[] && |j.early| <= |j.results|
    requires forall k :: 0 <= k < |j.results| ==> j.results[k].Pending?
    ensures Listen(j, Notices(topics, errs))
         == (j.results, if |j.early| + |topics| <= |j.results| then Success(()) else Failure(InvalidAccountData))
    decreases |topics|
  {
    if topics != [] && |j.early| < |j.results| {
      var next := j.(early := j.early[topics[0] := Verdict(errs[0])]);
      assert j.results[0].Pending?;
      assert Notices(topics, errs)[1..] == Notices(topics[1..], errs[1..]);
      EarlyBoundFrom(next, topics[1..], errs[1..]);
    }
  }
}
