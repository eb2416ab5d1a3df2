/** The chunked status read and the pass that fills in what the socket left pending. */
module Reconciliation {
  import opened Common
  import opened Confirmation
  import opened Chunks

  const CHUNK: nat := 256

  /** One entry of a status reply; `satisfies` is whether it meets the client's commitment. */
  datatype TxStatus = TxStatus(satisfies: bool, err: Option<string>)

  type Rpc<!S> = Read<S, Option<TxStatus>, ChainError>

  function Classify(status: Option<TxStatus>): ConfirmationStatus {
    if status.Some? && status.value.satisfies then Verdict(status.value.err) else Pending
  }

  function ClassifyAll(statuses: seq<Option<TxStatus>>): seq<ConfirmationStatus> {
    seq(|statuses|, i requires 0 <= i < |statuses| => Classify(statuses[i]))
  }

  /** The statuses of `signatures`, read in chunks of at most 256. */
  function Statuses<S>(rpc: Rpc<S>, signatures: seq<S>): (r: Result<seq<ConfirmationStatus>, ChainError>)
    ensures r.Success? ==> |r.value| == |signatures|
  {
    var statuses :- Chunked(CHUNK, rpc, InvalidAccountData, signatures);
    Success(ClassifyAll(statuses))
  }

  method SignatureStatuses<S(==)>(rpc: Rpc<S>, signatures: seq<S>)
    returns (r: Result<seq<ConfirmationStatus>, ChainError>, calls: seq<seq<S>>)
    ensures r == Statuses(rpc, signatures)
    ensures r.Success? ==> Covers(256, calls, signatures)
  {
    var statuses;
    statuses, calls := ReadChunks(CHUNK, rpc, InvalidAccountData, signatures);
    r := if statuses.Success? then Success(ClassifyAll(statuses.value)) else Failure(statuses.error);
  }

  // ---- the reconciliation pass ----

  /** Indices still pending, in order. */
  function Unresolved(results: seq<ConfirmationStatus>): (u: seq<nat>)
    ensures forall k :: 0 <= k < |u| ==> u[k] < |results| && results[u[k]].Pending?
    ensures forall k, l :: 0 <= k < l < |u| ==> u[k] < u[l]
    ensures forall i :: 0 <= i < |results| && results[i].Pending? ==> i in u
  {
    if results == [] then []
    else
      var n := |results| - 1;
      var before := Unresolved(results[..n]);
      if results[n].Pending? then before + [n] else before
  }

  function Pick<S>(signatures: seq<S>, indices: seq<nat>): seq<S>
    requires forall k :: 0 <= k < |indices| ==> indices[k] < |signatures|
  {
    seq(|indices|, k requires 0 <= k < |indices| => signatures[indices[k]])
  }

  /** `after` is `before` with the k-th unresolved index set to the k-th status. */
  ghost predicate Reconciled(before: seq<ConfirmationStatus>, statuses: seq<ConfirmationStatus>,
        after: seq<ConfirmationStatus>)
  {
    var u := Unresolved(before);
    && |after| == |before|
    && |statuses| == |u|
    && (forall i :: 0 <= i < |before| && !before[i].Pending? ==> after[i] == before[i])
    && (forall k :: 0 <= k < |u| ==> after[u[k]] == statuses[k])
  }

  /** `confirm_signatures`; `messages` are what the socket delivers before it ends or the deadline cuts it. */
  method ConfirmSignatures<S(==)>(rpc: Rpc<S>, signatures: seq<S>, messages: seq<Message>)
    returns (r: Result<seq<ConfirmationStatus>, ChainError>)
    ensures var heard := Listen(Start(|signatures|), messages).0;
            var pending := Statuses(rpc, Pick(signatures, Unresolved(heard)));
            match pending
            case Failure(error) => r == Failure(error)
            case Success(statuses) => r.Success? && Reconciled(heard, statuses, r.value)
  {
    var results := new ConfirmationStatus[|signatures|](i => Pending);
    assert results[..] == Start(|signatures|).results;
    if |signatures| == 0 {
      return Success([]);
    }
    var heard := SubscribeSignatures(results, messages);
    var unresolved := CollectUnresolved(results);
    var pending := Pick(signatures, unresolved);
    var statuses, calls := SignatureStatuses(rpc, pending);
    if statuses.Failure? {
      return Failure(statuses.error);
    }
    Fill(results, unresolved, statuses.value);
    r := Success(results[..]);
  }

  method Fill(results: array<ConfirmationStatus>, unresolved: seq<nat>, statuses: seq<ConfirmationStatus>)
    requires unresolved == Unresolved(results[..]) && |statuses| == |unresolved|
    modifies results
    ensures Reconciled(old(results[..]), statuses, results[..])
  {
    ghost var before := results[..];
    for k := 0 to |unresolved|
      invariant forall i :: 0 <= i < results.Length && !before[i].Pending? ==> results[i] == before[i]
      invariant forall l :: 0 <= l < k ==> results[unresolved[l]] == statuses[l]
    {
      results[unresolved[k]] := statuses[k];
    }
  }

  method CollectUnresolved(results: array<ConfirmationStatus>) returns (u: seq<nat>)
    ensures u == Unresolved(results[..])
  {
    u := [];
    for i := 0 to results.Length
      invariant u == Unresolved(results[..i])
    {
      assert results[..i + 1][..i] == results[..i];
      if results[i].Pending? {
        u := u + [i];
      }
    }
    assert results[..results.Length] == results[..];
  }

  /** What a status says, spelled out: confirmed without an error, failed with it, pending below the commitment. */
  ghost predicate Reports(status: Option<TxStatus>, c: ConfirmationStatus) {
    match c
    case Confirmed => status == Some(TxStatus(true, None))
    case Failed(reason) => status == Some(TxStatus(true, Some(reason)))
    case Pending => status.None? || !status.value.satisfies
  }

  lemma ClassifyReports(status: Option<TxStatus>, c: ConfirmationStatus)
    ensures Reports(status, c) <==> c == Classify(status)
  {}

  /**
   * With a faithful node, reconciliation keeps every status the socket delivered and gives each
   * pending index the status of its own signature.
   */
  lemma ReconciledByOwnSignature<S(!new)>(
      rpc: Rpc<S>, lookup: S -> Option<TxStatus>, signatures: seq<S>,
      heard: seq<ConfirmationStatus>, after: seq<ConfirmationStatus>, i: nat)
    requires Faithful(rpc, lookup) && |heard| == |signatures| && i < |heard|
    requires var pending := Statuses(rpc, Pick(signatures, Unresolved(heard)));
             pending.Success? && Reconciled(heard, pending.value, after)
    ensures if heard[i] == Pending then Reports(lookup(signatures[i]), after[i]) else after[i] == heard[i]
  {
    ClassifyReports(lookup(signatures[i]), Classify(lookup(signatures[i])));
    var u := Unresolved(heard);
    ChunkingInvisible(CHUNK, rpc, InvalidAccountData, lookup, Pick(signatures, u));
    if heard[i].Pending? {
      var k :| 0 <= k < |u| && u[k] == i;
    }
  }

  /** Against a faithful node every signature gets the one status its own lookup reports. */
  lemma StatusesReport<S(!new)>(rpc: Rpc<S>, lookup: S -> Option<TxStatus>, signatures: seq<S>, i: nat)
    requires Faithful(rpc, lookup) && i < |signatures|
    ensures Statuses(rpc, signatures).Success?
    ensures forall c :: Reports(lookup(signatures[i]), c) <==> c == Statuses(rpc, signatures).value[i]
  {
    ChunkingInvisible(CHUNK, rpc, InvalidAccountData, lookup, signatures);
    forall c
      ensures Reports(lookup(signatures[i]), c) <==> c == Statuses(rpc, signatures).value[i]
    {
      ClassifyReports(lookup(signatures[i]), c);
    }
  }
}
