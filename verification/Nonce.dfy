/**
 * The lock-free nonce generator as a step machine: any number of threads interleave the atomic
 * actions of `init` and `next_u64` on a shared counter and a lazily set entropy base.
 *
 * Loads are relaxed, so a thread that has not yet observed a nonzero base may still read a stale
 * zero; coherence forbids that once it has. The base only ever moves from zero, so zero is the
 * only stale value there is.
 */
module Nonce {
  import opened Common

  const MODULUS: nat := 0x1_0000_0000_0000_0000

  type Thread = nat

  /** Whether an initialisation runs inside `next_u64` or on its own. */
  datatype Purpose = ForNonce | ForInit

  /** The next atomic action of a thread. */
  datatype Pc =
    | Idle
    | InitLoad(purpose: Purpose)
    | Draw(purpose: Purpose)
    | Swap(purpose: Purpose, entropy: u64)
    | Reload
    | Add(base: u64)

  datatype Local = Local(pc: Pc, seen: bool)

  /** A nonce handed out: the base the thread used and the count it took. */
  datatype Issue = Issue(base: u64, count: u64)

  /** `u64::wrapping_add` */
  function WrappingAdd(a: u64, b: u64): u64 {
    if a + b <= U64_MAX then a + b else a + b - MODULUS
  }

  function NonceOf(i: Issue): u64 {
    WrappingAdd(i.base, i.count)
  }

  lemma WrappingAddExactly(a: u64, b: u64)
    ensures WrappingAdd(a, b) == (a + b) % 0x1_0000_0000_0000_0000
  {}

  datatype State = State(counter: u64, base: u64, threads: map<Thread, Local>, issued: seq<Issue>) {
    function At(t: Thread): Local {
      if t in threads then threads[t] else Local(Idle, false)
    }

    function Goto(t: Thread, pc: Pc, seen: bool): State {
      this.(threads := threads[t := Local(pc, seen)])
    }

    /** A relaxed load of the base by `t` may return `v`. */
    predicate MayLoad(t: Thread, v: u64) {
      v == base || (v == 0 && !At(t).seen)
    }
  }

  datatype Step =
    | CallNext(t: Thread, loaded: u64)
    | CallInit(t: Thread)
    | InitLoaded(t: Thread, loaded: u64)
    | Drew(t: Thread, entropy: u64)
    | DrawFailed(t: Thread)
    | CompareExchange(t: Thread)
    | Reloaded(t: Thread, loaded: u64)
    | FetchAdd(t: Thread)

  const START := State(1, 0, map[], [])

  ghost predicate Enabled(draws: iset<u64>, s: State, step: Step) {
    var pc := s.At(step.t).pc;
    match step
    case CallNext(t, v) => pc.Idle? && s.MayLoad(t, v)
    case CallInit(_) => pc.Idle?
    case InitLoaded(t, v) => pc.InitLoad? && s.MayLoad(t, v)
    case Drew(_, e) => pc.Draw? && e in draws
    case DrawFailed(_) => pc.Draw?
    case CompareExchange(_) => pc.Swap?
    case Reloaded(t, v) => pc.Reload? && s.MayLoad(t, v)
    case FetchAdd(_) => pc.Add?
  }

  /** Where a thread goes once initialisation returns. */
  function AfterInit(purpose: Purpose): Pc {
    if purpose.ForNonce? then Reload else Idle
  }

  function Apply(s: State, step: Step): State {
    var here := s.At(step.t);
    match step
    case CallNext(t, v) => s.Goto(t, if v == 0 then InitLoad(ForNonce) else Add(v), here.seen || v != 0)
    case CallInit(t) => s.Goto(t, InitLoad(ForInit), here.seen)
    case InitLoaded(t, v) =>
      if !here.pc.InitLoad? then s else
      s.Goto(t, if v == 0 then Draw(here.pc.purpose) else AfterInit(here.pc.purpose), here.seen || v != 0)
    case Drew(t, e) => if !here.pc.Draw? then s else s.Goto(t, Swap(here.pc.purpose, e), here.seen)
    case DrawFailed(t) => s.Goto(t, Idle, here.seen)
    case CompareExchange(t) =>
      if !here.pc.Swap? then s else
      var base := if s.base == 0 then here.pc.entropy else s.base;
      s.(base := base).Goto(t, AfterInit(here.pc.purpose), here.seen || base != 0)
    case Reloaded(t, v) => s.Goto(t, Add(v), here.seen || v != 0)
    case FetchAdd(t) =>
      if !here.pc.Add? then s else
      var added := s.(counter := WrappingAdd(s.counter, 1), issued := s.issued + [Issue(here.pc.base, s.counter)]);
      added.Goto(t, Idle, here.seen)
  }

  function Run(s: State, steps: seq<Step>): State
    decreases |steps|
  {
    if steps == [] then s else Apply(Run(s, steps[..|steps| - 1]), steps[|steps| - 1])
  }

  /** `steps` is an interleaving of the generator's threads, drawing entropy from `draws`. */
  ghost predicate Legal(draws: iset<u64>, steps: seq<Step>)
    decreases |steps|
  {
    steps == [] ||
    (var before := steps[..|steps| - 1];
     Legal(draws, before) && Enabled(draws, Run(START, before), steps[|steps| - 1]))
  }

  ghost predicate Distinct(issued: seq<Issue>) {
    forall i, j :: 0 <= i < j < |issued| ==> NonceOf(issued[i]) != NonceOf(issued[j])
  }

  /** Draws that cannot mix a zero base with a nonzero one. */
  ghost predicate Unmixed(draws: iset<u64>) {
    0 !in draws || draws <= iset{0}
  }

  /** What every step keeps when draws are unmixed. */
  ghost predicate Invariant(draws: iset<u64>, s: State) {
    && (|s.issued| < MODULUS ==> s.counter == WrappingAdd(|s.issued|, 1))
    && (forall k :: 0 <= k < |s.issued| && k < U64_MAX ==> s.issued[k].count == k + 1)
    && (forall k :: 0 <= k < |s.issued| ==> s.issued[k].base == s.base)
    && (s.base != 0 ==> s.base in draws)
    && (s.base == 0 && 0 !in draws ==> s.issued == [])
    && (forall t :: t in s.threads ==> LocalInvariant(draws, s.base, s.threads[t]))
  }

  ghost predicate LocalInvariant(draws: iset<u64>, base: u64, local: Local) {
    && (local.seen ==> base != 0)
    && (local.pc.Add? ==> local.pc.base == base && (base == 0 ==> 0 in draws))
    && (local.pc.Swap? ==> local.pc.entropy in draws)
    && (local.pc.Reload? && 0 !in draws ==> local.seen)
  }

  lemma StepKeepsInvariant(draws: iset<u64>, s: State, step: Step)
    requires Unmixed(draws) && Invariant(draws, s) && Enabled(draws, s, step)
    ensures Invariant(draws, Apply(s, step))
    ensures s.base != 0 ==> Apply(s, step).base == s.base
    ensures s.issued <= Apply(s, step).issued
  {
    assert LocalInvariant(draws, s.base, s.At(step.t)) by {
      assert LocalInvariant(draws, s.base, Local(Idle, false));
    }
    var s' := Apply(s, step);
    forall t | t in s'.threads
      ensures LocalInvariant(draws, s'.base, s'.threads[t])
    {
      if t != step.t {
        assert LocalInvariant(draws, s.base, s.threads[t]);
      }
    }
  }

  lemma {:induction false} RunKeepsInvariant(draws: iset<u64>, steps: seq<Step>)
    requires Unmixed(draws) && Legal(draws, steps)
    ensures Invariant(draws, Run(START, steps))
    decreases |steps|
  {
    if steps != [] {
      var before := steps[..|steps| - 1];
      RunKeepsInvariant(draws, before);
      StepKeepsInvariant(draws, Run(START, before), steps[|steps| - 1]);
    }
  }

  /** A single base, with fewer than 2^64 counts taken, gives pairwise distinct nonces. */
  lemma SameBaseDistinct(draws: iset<u64>, s: State)
    requires Invariant(draws, s) && |s.issued| < MODULUS
    ensures Distinct(s.issued)
  {}

  /**
   * Uniqueness: in every interleaving with nonzero draws and fewer than 2^64 calls, every nonce
   * uses the one nonzero base and no two nonces are equal.
   */
  lemma NoncesUnique(draws: iset<u64>, steps: seq<Step>)
    requires 0 !in draws && Legal(draws, steps)
    requires |Run(START, steps).issued| < MODULUS
    ensures var s := Run(START, steps);
            && Distinct(s.issued)
            && forall k :: 0 <= k < |s.issued| ==> s.issued[k].base == s.base && s.base != 0
  {
    RunKeepsInvariant(draws, steps);
    SameBaseDistinct(draws, Run(START, steps));
  }

  /** The base changes at most once over a whole run: a nonzero base is final. */
  lemma {:induction false} BaseSetOnce(draws: iset<u64>, steps: seq<Step>, k: nat)
    requires Unmixed(draws) && Legal(draws, steps) && k <= |steps|
    ensures Run(START, steps[..k]).base in {0, Run(START, steps).base}
    decreases |steps|
  {
    if k < |steps| {
      var before := steps[..|steps| - 1];
      assert before[..k] == steps[..k];
      BaseSetOnce(draws, before, k);
      RunKeepsInvariant(draws, before);
      StepKeepsInvariant(draws, Run(START, before), steps[|steps| - 1]);
    } else {
      assert steps[..k] == steps;
    }
  }

  // ---- the exact condition ----

  /** Every run with fewer than 2^64 calls hands out distinct nonces. */
  ghost predicate CollisionFree(draws: iset<u64>) {
    forall steps :: Legal(draws, steps) && |Run(START, steps).issued| < MODULUS ==> Distinct(Run(START, steps).issued)
  }

  /** Some run ends in `s`. */
  ghost predicate Reachable(draws: iset<u64>, s: State) {
    exists steps :: Legal(draws, steps) && Run(START, steps) == s
  }

  lemma Extend(draws: iset<u64>, s: State, step: Step)
    requires Reachable(draws, s) && Enabled(draws, s, step)
    ensures Reachable(draws, Apply(s, step))
  {
    var steps :| Legal(draws, steps) && Run(START, steps) == s;
    var steps' := steps + [step];
    assert steps'[..|steps|] == steps;
    assert Legal(draws, steps') && Run(START, steps') == Apply(s, step);
  }

  /** `s'` differs from `s` only in the base and in where thread `t` is. */
  ghost predicate OnlyMoves(s: State, s': State, t: Thread, base: u64, local: Local) {
    && s'.counter == s.counter
    && s'.issued == s.issued
    && s'.base == base
    && s'.At(t) == local
    && forall u: Thread :: u != t ==> s'.At(u) == s.At(u)
  }

  /** A thread that calls `next_u64`, draws `e` and wins the exchange is ready to add on `e`. */
  lemma Initialise(draws: iset<u64>, s: State, t: Thread, e: u64) returns (s': State)
    requires Reachable(draws, s) && e in draws
    requires s.base == 0 && s.At(t) == Local(Idle, false)
    ensures Reachable(draws, s')
    ensures OnlyMoves(s, s', t, e, Local(Add(e), e != 0))
  {
    var s1 := Apply(s, CallNext(t, 0));
    Extend(draws, s, CallNext(t, 0));
    assert OnlyMoves(s, s1, t, 0, Local(InitLoad(ForNonce), false));
    var s2 := Apply(s1, InitLoaded(t, 0));
    Extend(draws, s1, InitLoaded(t, 0));
    assert OnlyMoves(s, s2, t, 0, Local(Draw(ForNonce), false));
    s' := Exchange(draws, s2, t, e);
  }

  /** The second half: draw, exchange against a zero base, reload. */
  lemma Exchange(draws: iset<u64>, s: State, t: Thread, e: u64) returns (s': State)
    requires Reachable(draws, s) && e in draws
    requires s.base == 0 && s.At(t) == Local(Draw(ForNonce), false)
    ensures Reachable(draws, s')
    ensures OnlyMoves(s, s', t, e, Local(Add(e), e != 0))
  {
    var s1 := Apply(s, Drew(t, e));
    Extend(draws, s, Drew(t, e));
    assert OnlyMoves(s, s1, t, 0, Local(Swap(ForNonce, e), false));
    var s2 := Apply(s1, CompareExchange(t));
    Extend(draws, s1, CompareExchange(t));
    assert OnlyMoves(s, s2, t, e, Local(Reload, e != 0));
    s' := Apply(s2, Reloaded(t, e));
    Extend(draws, s2, Reloaded(t, e));
  }

  /** `s'` follows `s` by `n` adds of thread `t` on the same base, without the counter wrapping. */
  ghost predicate Took(s: State, s': State, t: Thread, n: nat) {
    && s'.base == s.base
    && s'.counter == s.counter + n <= U64_MAX
    && |s'.issued| == |s.issued| + n
    && s.issued <= s'.issued
    && forall u: Thread :: u != t ==> s'.At(u) == s.At(u)
  }

  lemma TakeOne(draws: iset<u64>, s: State, t: Thread) returns (s': State)
    requires Reachable(draws, s)
    requires s.At(t).pc.Add? && s.counter < U64_MAX
    ensures Reachable(draws, s')
    ensures Took(s, s', t, 1)
    ensures s'.At(t) == Local(Idle, s.At(t).seen)
    ensures s'.issued == s.issued + [Issue(s.At(t).pc.base, s.counter)]
  {
    s' := Apply(s, FetchAdd(t));
    Extend(draws, s, FetchAdd(t));
  }

  /** A thread ready to add takes `n + 1` consecutive nonces on the current base. */
  lemma {:induction false} TakeMany(draws: iset<u64>, s: State, t: Thread, n: nat) returns (s': State)
    requires Reachable(draws, s)
    requires s.base != 0 && s.At(t) == Local(Add(s.base), true) && s.counter + n < U64_MAX
    ensures Reachable(draws, s')
    ensures Took(s, s', t, n + 1)
    ensures s'.issued[|s.issued|] == Issue(s.base, s.counter)
    decreases n
  {
    s' := TakeOne(draws, s, t);
    if n > 0 {
      var s1 := Apply(s', CallNext(t, s.base));
      Extend(draws, s', CallNext(t, s.base));
      assert OnlyMoves(s', s1, t, s.base, Local(Add(s.base), true));
      s' := TakeMany(draws, s1, t, n - 1);
      assert Took(s, s', t, n + 1);
    }
  }

  /** Two issues with equal nonces refute distinctness. */
  lemma Collide(issued: seq<Issue>, i: nat, j: nat)
    requires i < j < |issued| && NonceOf(issued[i]) == NonceOf(issued[j])
    ensures !Distinct(issued)
  {}

  /** Thread 0 draws zero and takes the first nonce on base zero. */
  lemma FirstOnZeroBase(draws: iset<u64>) returns (s: State)
    requires 0 in draws && Reachable(draws, START)
    ensures Reachable(draws, s)
    ensures s.base == 0 && s.counter == 2 && s.issued == [Issue(0, 1)] && s.At(1) == Local(Idle, false)
  {
    var s1 := Initialise(draws, START, 0, 0);
    assert s1.At(1) == START.At(1);
    s := TakeOne(draws, s1, 0);
  }

  /** Thread 0 takes a nonce on base zero, then thread 1 installs the largest base: both get nonce 1. */
  lemma LargestDrawCollides(draws: iset<u64>) returns (s: State)
    requires 0 in draws && U64_MAX in draws && Reachable(draws, START)
    ensures Reachable(draws, s)
    ensures |s.issued| < MODULUS && !Distinct(s.issued)
  {
    var s1 := FirstOnZeroBase(draws);
    var s2 := Initialise(draws, s1, 1, U64_MAX);
    s := TakeOne(draws, s2, 1);
    Collide(s.issued, 0, 1);
  }

  /** Thread 0 is about to add on base zero when thread 1 installs `e`. */
  lemma HoldZeroBase(draws: iset<u64>, e: u64) returns (s: State)
    requires 0 in draws && e in draws && e != 0 && Reachable(draws, START)
    ensures Reachable(draws, s)
    ensures s.base == e && s.counter == 1 && s.issued == []
    ensures s.At(0) == Local(Add(0), false) && s.At(1) == Local(Add(e), true)
  {
    var s1 := Initialise(draws, START, 0, 0);
    assert s1.At(1) == START.At(1);
    s := Initialise(draws, s1, 1, e);
    assert s.At(0) == s1.At(0);
  }

  /** Thread 0 holds base zero while thread 1 installs `e` and takes `e` nonces; its own is then thread 1's first. */
  lemma SmallerDrawCollides(draws: iset<u64>, e: u64) returns (s: State)
    requires 0 in draws && e in draws && 0 < e < U64_MAX && Reachable(draws, START)
    ensures Reachable(draws, s)
    ensures |s.issued| < MODULUS && !Distinct(s.issued)
  {
    var s2 := HoldZeroBase(draws, e);
    var s3 := TakeMany(draws, s2, 1, e - 1);
    assert s3.At(0) == Local(Add(0), false);
    s := Apply(s3, FetchAdd(0));
    Extend(draws, s3, FetchAdd(0));
    assert s.issued == s3.issued + [Issue(0, e + 1)];
    Collide(s.issued, 0, e);
  }

  /**
   * The generator is collision-free exactly when its entropy source never mixes zero with a nonzero
   * value. `init` does not reject a zero draw, so this is a demand on the source.
   */
  lemma CollisionFreeExactlyWhenUnmixed(draws: iset<u64>)
    ensures CollisionFree(draws) <==> Unmixed(draws)
  {
    if Unmixed(draws) {
      forall steps | Legal(draws, steps) && |Run(START, steps).issued| < MODULUS
        ensures Distinct(Run(START, steps).issued)
      {
        RunKeepsInvariant(draws, steps);
        SameBaseDistinct(draws, Run(START, steps));
      }
    } else {
      var e :| e in draws && e != 0;
      assert Reachable(draws, START) by { assert Legal(draws, []) && Run(START, []) == START; }
      var s;
      if e == U64_MAX {
        s := LargestDrawCollides(draws);
      } else {
        s := SmallerDrawCollides(draws, e);
      }
    }
  }

  // ---- the generator as an object, one call at a time ----

  /** One uninterrupted `next_u64` of the machine; `draw` is what the OS returns if asked. */
  function Solo(counter: u64, base: u64, draw: Option<u64>): State {
    var called := Apply(State(counter, base, map[], []), CallNext(0, base));
    if base != 0 then
      Apply(called, FetchAdd(0))
    else
      var checked := Apply(called, InitLoaded(0, 0));
      if draw.None? then
        Apply(checked, DrawFailed(0))
      else
        var swapped := Apply(Apply(checked, Drew(0, draw.value)), CompareExchange(0));
        Apply(Apply(swapped, Reloaded(0, draw.value)), FetchAdd(0))
  }

  lemma SoloOutcome(counter: u64, base: u64, draw: Option<u64>)
    ensures var s := Solo(counter, base, draw);
            if base == 0 && draw.None? then
              s.counter == counter && s.base == 0 && s.issued == []
            else
              && s.base == (if base != 0 then base else draw.value)
              && s.counter == WrappingAdd(counter, 1)
              && s.issued == [Issue(s.base, counter)]
  {}

  class AtomicNonceGenerator {
    var counter: u64
    var entropyBase: u64

    constructor ()
      ensures counter == START.counter == 1 && entropyBase == START.base == 0
    {
      counter, entropyBase := 1, 0;
    }

    method Init(draw: Option<u64>) returns (ok: bool)
      modifies this`entropyBase
      ensures ok == (old(entropyBase) != 0 || draw.Some?)
      ensures entropyBase == if old(entropyBase) == 0 && draw.Some? then draw.value else old(entropyBase)
    {
      if entropyBase == 0 {
        if draw.None? {
          return false;
        }
        if entropyBase == 0 {
          entropyBase := draw.value;
        }
      }
      ok := true;
    }

    /** One call with no other thread running is the machine's uninterrupted run. */
    method NextU64(draw: Option<u64>) returns (nonce: Option<u64>)
      modifies this
      ensures var s := Solo(old(counter), old(entropyBase), draw);
              && counter == s.counter && entropyBase == s.base
              && nonce == if |s.issued| == 1 then Some(NonceOf(s.issued[0])) else None
      ensures nonce.None? <==> old(entropyBase) == 0 && draw.None?
      ensures nonce.Some? ==>
                var sum := entropyBase + old(counter);
                nonce.value == if sum < 0x1_0000_0000_0000_0000 then sum else sum - 0x1_0000_0000_0000_0000
      ensures nonce.Some? ==> counter == if old(counter) == U64_MAX then 0 else old(counter) + 1
    {
      SoloOutcome(counter, entropyBase, draw);
      var base := entropyBase;
      if base == 0 {
        var ok := Init(draw);
        if !ok {
          return None;
        }
        base := entropyBase;
      }
      var count := counter;
      counter := WrappingAdd(counter, 1);
      nonce := Some(WrappingAdd(base, count));
    }
  }
}
