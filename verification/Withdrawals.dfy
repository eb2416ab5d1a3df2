/** Planning a vault's withdrawal queue so that partial redemptions never drain the share supply. */
module Withdrawals {
  import opened Common

  datatype Request = Request(user: Pubkey, shares: u64)

  datatype WithdrawalPlan = WithdrawalPlan(partial: seq<Pubkey>, finalUser: Option<Pubkey>)

  function Users(requests: seq<Request>): seq<Pubkey> {
    seq(|requests|, i requires 0 <= i < |requests| => requests[i].user)
  }

  ghost predicate DistinctUsers(requests: seq<Request>) {
    forall i, j :: 0 <= i < j < |requests| ==> requests[i].user != requests[j].user
  }

  /** Shares requested, exactly. */
  function Total(requests: seq<Request>): nat {
    if requests == [] then 0 else Total(requests[..|requests| - 1]) + requests[|requests| - 1].shares
  }

  /** Shares requested, as the saturating fold computes them. */
  function Queued(requests: seq<Request>): u64 {
    if requests == [] then 0 else SaturatingAdd(Queued(requests[..|requests| - 1]), requests[|requests| - 1].shares)
  }

  /** The saturating sum compares with any supply as the exact sum does. */
  lemma {:induction false} SaturationHarmless(requests: seq<Request>, supply: u64)
    ensures Queued(requests) == Min(Total(requests), U64_MAX)
    ensures Queued(requests) >= supply <==> Total(requests) >= supply
  {
    if requests != [] {
      SaturationHarmless(requests[..|requests| - 1], supply);
    }
  }

  // ---- the stable descending sort ----

  function Insert(sorted: seq<Request>, r: Request): seq<Request> {
    if sorted == [] || sorted[|sorted| - 1].shares >= r.shares then sorted + [r]
    else Insert(sorted[..|sorted| - 1], r) + [sorted[|sorted| - 1]]
  }

  /** `sort_by_key(Reverse(shares))`: largest first, equal requests in queue order. */
  function SortDescending(requests: seq<Request>): seq<Request> {
    if requests == [] then [] else Insert(SortDescending(requests[..|requests| - 1]), requests[|requests| - 1])
  }

  ghost predicate Descending(s: seq<Request>) {
    forall i, j :: 0 <= i < j < |s| ==> s[i].shares >= s[j].shares
  }

  function WithShares(requests: seq<Request>, shares: u64): seq<Request> {
    if requests == [] then []
    else
      var last := requests[|requests| - 1];
      var before := WithShares(requests[..|requests| - 1], shares);
      if last.shares == shares then before + [last] else before
  }

  lemma SplitLast(s: seq<Request>, last: Request)
    ensures (s + [last])[..|s|] == s
  {}

  lemma {:induction false} InsertSorts(s: seq<Request>, r: Request)
    requires Descending(s)
    ensures Descending(Insert(s, r))
    ensures forall x :: x in Insert(s, r) <==> x in s || x == r
    ensures Total(Insert(s, r)) == Total(s) + r.shares
    ensures |Insert(s, r)| == |s| + 1
  {
    if s == [] || s[|s| - 1].shares >= r.shares {
      SplitLast(s, r);
    } else {
      var init, last := s[..|s| - 1], s[|s| - 1];
      assert s == init + [last];
      InsertSorts(init, r);
      SplitLast(Insert(init, r), last);
    }
  }

  lemma {:induction false} InsertStable(s: seq<Request>, r: Request, shares: u64)
    requires Descending(s)
    ensures WithShares(Insert(s, r), shares)
         == if r.shares == shares then WithShares(s, shares) + [r] else WithShares(s, shares)
  {
    if s == [] || s[|s| - 1].shares >= r.shares {
      SplitLast(s, r);
    } else {
      var init, last := s[..|s| - 1], s[|s| - 1];
      InsertStable(init, r, shares);
      SplitLast(Insert(init, r), last);
    }
  }

  /** The sort orders, keeps every request, and keeps the queue order among equal requests. */
  lemma {:induction false} SortIsStable(requests: seq<Request>, shares: u64)
    ensures Descending(SortDescending(requests))
    ensures forall x :: x in SortDescending(requests) <==> x in requests
    ensures Total(SortDescending(requests)) == Total(requests)
    ensures |SortDescending(requests)| == |requests|
    ensures WithShares(SortDescending(requests), shares) == WithShares(requests, shares)
  {
    if requests != [] {
      var init, last := requests[..|requests| - 1], requests[|requests| - 1];
      assert requests == init + [last];
      SortIsStable(init, shares);
      InsertSorts(SortDescending(init), last);
      InsertStable(SortDescending(init), last, shares);
    }
  }

  lemma {:induction false} InsertDistinct(s: seq<Request>, r: Request)
    requires Descending(s) && DistinctUsers(s) && forall x :: x in s ==> x.user != r.user
    ensures DistinctUsers(Insert(s, r))
  {
    if s != [] && s[|s| - 1].shares < r.shares {
      var init, last := s[..|s| - 1], s[|s| - 1];
      InsertDistinct(init, r);
      InsertSorts(init, r);
      AppendDistinct(Insert(init, r), last);
    }
  }

  lemma {:induction false} SortDistinct(requests: seq<Request>)
    requires DistinctUsers(requests)
    ensures DistinctUsers(SortDescending(requests))
  {
    if requests != [] {
      var init, last := requests[..|requests| - 1], requests[|requests| - 1];
      SortDistinct(init);
      SortIsStable(init, 0);
      InsertDistinct(SortDescending(init), last);
    }
  }

  // ---- the plan ----

  function Plan(requests: seq<Request>, supply: u64): WithdrawalPlan {
    if |requests| == 1 && requests[0].shares == supply then
      WithdrawalPlan([], Some(requests[0].user))
    else if requests != [] && Queued(requests) >= supply then
      SortIsStable(requests, 0);
      WithdrawalPlan(Users(SortDescending(requests)[1..]), None)
    else
      WithdrawalPlan(Users(requests), None)
  }

  method PlanWithdrawals(requests: seq<Request>, supply: u64) returns (plan: WithdrawalPlan)
    ensures plan == Plan(requests, supply)
  {
    plan := WithdrawalPlan([], None);
    if |requests| == 1 && requests[0].shares == supply {
      return plan.(finalUser := Some(requests[0].user));
    }
    var queued: u64 := 0;
    for i := 0 to |requests|
      invariant queued == Queued(requests[..i])
    {
      assert requests[..i + 1][..i] == requests[..i];
      queued := SaturatingAdd(queued, requests[i].shares);
    }
    assert requests[..|requests|] == requests;
    var ordered := requests;
    if |ordered| != 0 && queued >= supply {
      SortIsStable(requests, 0);
      ordered := SortDescending(ordered);
      ordered := ordered[1..];
    }
    plan := plan.(partial := Users(ordered));
  }

  // ---- redeeming part of the queue ----

  /** The queue after redeeming the users in `done`. */
  function Without(requests: seq<Request>, done: set<Pubkey>): seq<Request> {
    if requests == [] then []
    else
      var before, last := Without(requests[..|requests| - 1], done), requests[|requests| - 1];
      if last.user in done then before else before + [last]
  }

  /** The shares burned by redeeming the users in `done`. */
  function Burned(requests: seq<Request>, done: set<Pubkey>): nat {
    if requests == [] then 0
    else
      var last := requests[|requests| - 1];
      Burned(requests[..|requests| - 1], done) + if last.user in done then last.shares else 0
  }

  function UserSet(users: seq<Pubkey>): set<Pubkey> {
    set u | u in users
  }

  /** `u` has a request in the queue. */
  predicate HasRequest(requests: seq<Request>, u: Pubkey) {
    exists i :: 0 <= i < |requests| && requests[i].user == u
  }

  /** Redemption conserves shares: burned and still queued make up the queue. */
  lemma {:induction false} RedemptionConserves(requests: seq<Request>, done: set<Pubkey>)
    ensures Burned(requests, done) + Total(Without(requests, done)) == Total(requests)
    ensures |Without(requests, done)| <= |requests|
  {
    if requests != [] {
      var init, last := requests[..|requests| - 1], requests[|requests| - 1];
      RedemptionConserves(init, done);
      SplitLast(Without(init, done), last);
    }
  }

  /** What stays queued is what was queued for users not redeemed. */
  lemma {:induction false} WithoutMeans(requests: seq<Request>, done: set<Pubkey>)
    ensures forall x :: x in Without(requests, done) <==> x in requests && x.user !in done
  {
    if requests != [] {
      var init, last := requests[..|requests| - 1], requests[|requests| - 1];
      assert requests == init + [last];
      WithoutMeans(init, done);
    }
  }

  lemma AppendDistinct(s: seq<Request>, last: Request)
    requires DistinctUsers(s) && forall x :: x in s ==> x.user != last.user
    ensures DistinctUsers(s + [last])
  {}

  lemma {:induction false} WithoutDistinct(requests: seq<Request>, done: set<Pubkey>)
    requires DistinctUsers(requests)
    ensures DistinctUsers(Without(requests, done))
  {
    if requests != [] {
      var init, last := requests[..|requests| - 1], requests[|requests| - 1];
      WithoutDistinct(init, done);
      WithoutMeans(init, done);
      AppendDistinct(Without(init, done), last);
    }
  }

  lemma {:induction false} BurnMonotone(requests: seq<Request>, few: set<Pubkey>, many: set<Pubkey>)
    requires few <= many
    ensures Burned(requests, few) <= Burned(requests, many) <= Total(requests)
  {
    if requests != [] {
      BurnMonotone(requests[..|requests| - 1], few, many);
    }
  }

  lemma {:induction false} RedeemEveryone(requests: seq<Request>, done: set<Pubkey>)
    requires forall i :: 0 <= i < |requests| ==> requests[i].user in done
    ensures Without(requests, done) == [] && Burned(requests, done) == Total(requests)
  {
    if requests != [] {
      RedeemEveryone(requests[..|requests| - 1], done);
    }
  }

  /** Redeeming all but the `k`-th user leaves exactly the `k`-th request. */
  lemma {:induction false} RedeemAllButOne(requests: seq<Request>, k: nat, done: set<Pubkey>)
    requires k < |requests| && requests[k].user !in done
    requires forall i :: 0 <= i < |requests| && i != k ==> requests[i].user in done
    ensures Without(requests, done) == [requests[k]]
    ensures Burned(requests, done) == Total(requests) - requests[k].shares
  {
    var init := requests[..|requests| - 1];
    if k == |init| {
      RedeemEveryone(init, done);
    } else {
      RedeemAllButOne(init, k, done);
    }
  }

  /** The largest request; zero for an empty queue. */
  function Largest(requests: seq<Request>): nat {
    if requests == [] then 0
    else
      var last := requests[|requests| - 1].shares;
      var before := Largest(requests[..|requests| - 1]);
      if before >= last then before else last
  }

  lemma {:induction false} LargestIs(requests: seq<Request>, k: nat)
    requires k < |requests| && forall i :: 0 <= i < |requests| ==> requests[i].shares <= requests[k].shares
    ensures Largest(requests) == requests[k].shares <= Total(requests)
  {
    LargestBound(requests, requests[k].shares);
    LargestAtLeast(requests, k);
  }

  lemma {:induction false} LargestBound(requests: seq<Request>, bound: nat)
    requires forall i :: 0 <= i < |requests| ==> requests[i].shares <= bound
    ensures Largest(requests) <= bound && Largest(requests) <= Total(requests)
  {
    if requests != [] {
      LargestBound(requests[..|requests| - 1], bound);
    }
  }

  lemma {:induction false} LargestAtLeast(requests: seq<Request>, k: nat)
    requires k < |requests|
    ensures requests[k].shares <= Largest(requests)
  {
    if k < |requests| - 1 {
      LargestAtLeast(requests[..|requests| - 1], k);
    }
  }

  /** Membership in a list of users, by index. */
  lemma ListedUser(requests: seq<Request>, u: Pubkey)
    ensures u in UserSet(Users(requests)) <==> HasRequest(requests, u)
  {
    if i :| 0 <= i < |requests| && requests[i].user == u {
      assert Users(requests)[i] == u;
    }
  }

  lemma SortKeeps(requests: seq<Request>, x: Request)
    ensures x in SortDescending(requests) <==> x in requests
  {
    SortIsStable(requests, 0);
  }

  lemma SortOrders(requests: seq<Request>)
    ensures Descending(SortDescending(requests)) && |SortDescending(requests)| == |requests|
  {
    SortIsStable(requests, 0);
  }

  /** The first of the sorted queue is a largest request. */
  lemma FirstIsLargest(requests: seq<Request>) returns (k: nat)
    requires requests != []
    ensures |SortDescending(requests)| == |requests|
    ensures k < |requests| && requests[k] == SortDescending(requests)[0]
    ensures requests[k].shares == Largest(requests) <= Total(requests)
  {
    SortOrders(requests);
    var sorted := SortDescending(requests);
    SortKeeps(requests, sorted[0]);
    k :| 0 <= k < |requests| && requests[k] == sorted[0];
    forall i | 0 <= i < |requests|
      ensures requests[i].shares <= requests[k].shares
    {
      SortKeeps(requests, requests[i]);
    }
    LargestIs(requests, k);
  }

  /** The request a draining queue holds back: redeeming the planned users leaves exactly that one. */
  lemma HeldBack(requests: seq<Request>) returns (k: nat)
    requires requests != [] && DistinctUsers(requests)
    ensures SortDescending(requests) != []
    ensures k < |requests| && requests[k].shares == Largest(requests) <= Total(requests)
    ensures var done := UserSet(Users(SortDescending(requests)[1..]));
            && Without(requests, done) == [requests[k]]
            && Burned(requests, done) == Total(requests) - requests[k].shares
  {
    k := FirstIsLargest(requests);
    RestListed(requests, k);
    RedeemAllButOne(requests, k, UserSet(Users(SortDescending(requests)[1..])));
  }

  /** The rest of the sorted queue lists everyone but the user held back. */
  lemma RestListed(requests: seq<Request>, k: nat)
    requires DistinctUsers(requests) && k < |requests|
    requires |SortDescending(requests)| == |requests| && requests[k] == SortDescending(requests)[0]
    ensures var done := UserSet(Users(SortDescending(requests)[1..]));
            && requests[k].user !in done
            && forall i :: 0 <= i < |requests| && i != k ==> requests[i].user in done
  {
    SortDistinct(requests);
    var sorted := SortDescending(requests);
    var rest := sorted[1..];
    ListedUser(rest, requests[k].user);
    assert !HasRequest(rest, requests[k].user);
    forall i | 0 <= i < |requests| && i != k
      ensures requests[i].user in UserSet(Users(rest))
    {
      InRest(requests, k, i);
      ListedUser(rest, requests[i].user);
    }
  }

  lemma InRest(requests: seq<Request>, k: nat, i: nat)
    requires DistinctUsers(requests) && k < |requests| && i < |requests| && i != k
    requires |SortDescending(requests)| == |requests| && requests[k] == SortDescending(requests)[0]
    ensures HasRequest(SortDescending(requests)[1..], requests[i].user)
  {
    var sorted := SortDescending(requests);
    SortKeeps(requests, requests[i]);
    var n :| 0 <= n < |sorted| && sorted[n] == requests[i];
    assert n != 0;
    assert sorted[1..][n - 1].user == requests[i].user;
  }

  lemma EveryoneListed(requests: seq<Request>)
    ensures var done := UserSet(Users(requests));
            Without(requests, done) == [] && Burned(requests, done) == Total(requests)
  {
    forall i | 0 <= i < |requests|
      ensures requests[i].user in UserSet(Users(requests))
    {
      ListedUser(requests, requests[i].user);
    }
    RedeemEveryone(requests, UserSet(Users(requests)));
  }

  /**
   * Redeeming the whole partial list leaves shares outstanding exactly when the queue without its
   * largest request is below the supply; a queue within a nonzero supply always is.
   */
  lemma PartialNeverDrains(requests: seq<Request>, supply: u64)
    requires DistinctUsers(requests)
    ensures Burned(requests, UserSet(Plan(requests, supply).partial)) < supply
       <==> Total(requests) - Largest(requests) < supply
    ensures Total(requests) <= supply && 0 < supply
        ==> Burned(requests, UserSet(Plan(requests, supply).partial)) < supply
  {
    SaturationHarmless(requests, supply);
    if requests == [] {
    } else {
      var k := HeldBack(requests);
      EveryoneListed(requests);
      if |requests| == 1 {
        assert requests[..0] == [];
        assert Burned(requests, UserSet([])) == 0 by { NobodyBurns(requests); }
      }
    }
  }

  /** It can fail: two equal requests, each for the whole supply, whose partial list burns all of it. */
  lemma PartialCanDrain()
    ensures var requests := [Request(1, 3), Request(2, 3)];
            && DistinctUsers(requests) && Plan(requests, 3).finalUser.None?
            && Burned(requests, UserSet(Plan(requests, 3).partial)) == 3
  {
    var requests := [Request(1, 3), Request(2, 3)];
    assert requests[..1] == [Request(1, 3)] && requests[..1][..0] == [];
    assert Total(requests) == 6;
    SaturationHarmless(requests, 3);
    var k := HeldBack(requests);
  }

  lemma {:induction false} NobodyBurns(requests: seq<Request>)
    ensures Burned(requests, {}) == 0 && Burned(requests, UserSet([])) == 0
  {
    assert UserSet([]) == {};
    if requests != [] {
      NobodyBurns(requests[..|requests| - 1]);
    }
  }

  /** At most one request is held back, and it is a largest one; otherwise everyone is listed in queue order. */
  lemma OnlyLargestHeldBack(requests: seq<Request>, supply: u64)
    requires DistinctUsers(requests) && Plan(requests, supply).finalUser.None?
    ensures var plan := Plan(requests, supply);
            var left := Without(requests, UserSet(plan.partial));
            if Total(requests) < supply || requests == [] then
              plan.partial == Users(requests) && left == []
            else
              |left| == 1 && left[0] in requests && left[0].shares == Largest(requests)
  {
    SaturationHarmless(requests, supply);
    EveryoneListed(requests);
    if requests != [] {
      var k := HeldBack(requests);
    }
  }

  /** A final user is named exactly for a lone request of the whole supply, and then nobody else is. */
  lemma FinalExactly(requests: seq<Request>, supply: u64, u: Pubkey)
    ensures Plan(requests, supply).finalUser == Some(u) <==> requests == [Request(u, supply)]
    ensures Plan(requests, supply).finalUser.Some? ==> Plan(requests, supply).partial == []
  {}

  // ---- who is listed, how often and in which order ----

  function Except(requests: seq<Request>, k: nat): seq<Request>
    requires k < |requests|
  {
    requests[..k] + requests[k + 1..]
  }

  /** `k` is the largest request, and the first of that size in the queue. */
  ghost predicate FirstLargest(requests: seq<Request>, k: nat) {
    && k < |requests|
    && (forall i :: 0 <= i < k ==> requests[i].shares < requests[k].shares)
    && (forall i :: k < i < |requests| ==> requests[i].shares <= requests[k].shares)
  }

  lemma {:induction false} WithSharesJoin(a: seq<Request>, b: seq<Request>, shares: u64)
    ensures WithShares(a + b, shares) == WithShares(a, shares) + WithShares(b, shares)
    decreases |b|
  {
    if b == [] {
      assert a + b == a;
    } else {
      var init, last := b[..|b| - 1], b[|b| - 1];
      WithSharesJoin(a, init, shares);
      assert (a + b)[..|a + b| - 1] == a + init;
    }
  }

  lemma {:induction false} WithSharesNone(a: seq<Request>, shares: u64)
    requires forall i :: 0 <= i < |a| ==> a[i].shares != shares
    ensures WithShares(a, shares) == []
  {
    if a != [] {
      WithSharesNone(a[..|a| - 1], shares);
    }
  }

  lemma WithSharesOne(x: Request, shares: u64)
    ensures WithShares([x], shares) == if x.shares == shares then [x] else []
  {
    assert [x][..0] == [];
  }

  /** Taking one request out of a list takes it out of the requests of its size. */
  lemma WithSharesExcept(requests: seq<Request>, k: nat, shares: u64)
    requires k < |requests|
    ensures WithShares(requests, shares)
         == WithShares(requests[..k], shares) + WithShares([requests[k]], shares)
             + WithShares(requests[k + 1..], shares)
    ensures WithShares(Except(requests, k), shares)
         == WithShares(requests[..k], shares) + WithShares(requests[k + 1..], shares)
  {
    assert requests == requests[..k] + [requests[k]] + requests[k + 1..];
    WithSharesJoin(requests[..k] + [requests[k]], requests[k + 1..], shares);
    WithSharesJoin(requests[..k], [requests[k]], shares);
    WithSharesJoin(requests[..k], requests[k + 1..], shares);
  }

  lemma FirstLargestExists(requests: seq<Request>, k: nat) returns (first: nat)
    requires k < |requests| && forall i :: 0 <= i < |requests| ==> requests[i].shares <= requests[k].shares
    ensures FirstLargest(requests, first) && requests[first].shares == requests[k].shares
  {
    first := 0;
    while requests[first].shares < requests[k].shares
      invariant first <= k && forall i :: 0 <= i < first ==> requests[i].shares < requests[k].shares
      decreases k - first
    {
      first := first + 1;
    }
  }

  function Only(x: Request, shares: u64): seq<Request> {
    if x.shares == shares then [x] else []
  }

  lemma HeadFilter(s: seq<Request>, shares: u64)
    requires s != []
    ensures WithShares(s, shares) == Only(s[0], shares) + WithShares(s[1..], shares)
  {
    assert s == [s[0]] + s[1..];
    WithSharesJoin([s[0]], s[1..], shares);
    WithSharesOne(s[0], shares);
  }

  /** Of any size, the first largest request comes first. */
  lemma FirstFilter(requests: seq<Request>, first: nat, shares: u64)
    requires FirstLargest(requests, first)
    ensures WithShares(requests, shares) == Only(requests[first], shares) + WithShares(Except(requests, first), shares)
  {
    WithSharesExcept(requests, first, shares);
    WithSharesOne(requests[first], shares);
    var before := WithShares(requests[..first], shares);
    if shares == requests[first].shares {
      WithSharesNone(requests[..first], shares);
    } else {
      assert before + [] == before;
    }
  }

  /** The sorted queue starts with the first largest request. */
  lemma SortHead(requests: seq<Request>, first: nat)
    requires FirstLargest(requests, first)
    ensures SortDescending(requests) != [] && SortDescending(requests)[0] == requests[first]
  {
    var top := requests[first].shares;
    var k := FirstIsLargest(requests);
    LargestIs(requests, first);
    SortIsStable(requests, top);
    HeadFilter(SortDescending(requests), top);
    FirstFilter(requests, first, top);
    assert WithShares(requests, top)[0] == requests[first];
  }

  /** And goes on with the others, equal ones in queue order. */
  lemma SortedRest(requests: seq<Request>, first: nat, shares: u64)
    requires FirstLargest(requests, first)
    ensures SortDescending(requests) != []
    ensures WithShares(SortDescending(requests)[1..], shares) == WithShares(Except(requests, first), shares)
  {
    SortHead(requests, first);
    SortIsStable(requests, shares);
    HeadFilter(SortDescending(requests), shares);
    FirstFilter(requests, first, shares);
    SameTail(Only(requests[first], shares), WithShares(SortDescending(requests)[1..], shares),
        WithShares(Except(requests, first), shares));
  }

  lemma SameTail(head: seq<Request>, a: seq<Request>, b: seq<Request>)
    requires head + a == head + b
    ensures a == b
  {
    assert a == (head + a)[|head|..] && b == (head + b)[|head|..];
  }

  lemma UsersAppend(s: seq<Request>, r: Request)
    ensures Users(s + [r]) == Users(s) + [r.user]
  {}

  lemma {:induction false} InsertUsers(s: seq<Request>, r: Request)
    ensures multiset(Users(Insert(s, r))) == multiset(Users(s)) + multiset{r.user}
  {
    if s == [] || s[|s| - 1].shares >= r.shares {
      UsersAppend(s, r);
    } else {
      var init, last := s[..|s| - 1], s[|s| - 1];
      InsertUsers(init, r);
      assert s == init + [last];
      UsersAppend(init, last);
      UsersAppend(Insert(init, r), last);
    }
  }

  lemma {:induction false} SortUsers(requests: seq<Request>)
    ensures multiset(Users(SortDescending(requests))) == multiset(Users(requests))
  {
    if requests != [] {
      var init, last := requests[..|requests| - 1], requests[|requests| - 1];
      SortUsers(init);
      InsertUsers(SortDescending(init), last);
      assert requests == init + [last];
      UsersAppend(init, last);
    }
  }

  /**
   * Requests that reach the supply, with no final user: the first largest request is held back and every other one is
   * listed exactly once, largest first, equal requests in queue order.
   */
  lemma HeldBackExactly(requests: seq<Request>, supply: u64) returns (k: nat, rest: seq<Request>)
    requires requests != [] && supply <= Total(requests) && Plan(requests, supply).finalUser.None?
    ensures FirstLargest(requests, k) && Plan(requests, supply).partial == Users(rest)
    ensures multiset(Plan(requests, supply).partial) + multiset{requests[k].user} == multiset(Users(requests))
    ensures Descending(rest)
    ensures forall shares: u64 :: WithShares(rest, shares) == WithShares(Except(requests, k), shares)
  {
    SaturationHarmless(requests, supply);
    var largest := FirstIsLargest(requests);
    forall i | 0 <= i < |requests|
      ensures requests[i].shares <= requests[largest].shares
    {
      LargestAtLeast(requests, i);
    }
    k := FirstLargestExists(requests, largest);
    rest := SortDescending(requests)[1..];
    SortOrders(requests);
    SortHead(requests, k);
    SortUsers(requests);
    assert Users(SortDescending(requests)) == [requests[k].user] + Users(rest);
    forall shares: u64
      ensures WithShares(rest, shares) == WithShares(Except(requests, k), shares)
    {
      SortedRest(requests, k, shares);
    }
  }

  /**
   * A queue that asks for the whole supply converges: after the partial list is redeemed, planning
   * again names exactly the held-back user, now the sole holder, as final.
   */
  lemma DrainingQueueConverges(requests: seq<Request>, supply: u64)
    requires DistinctUsers(requests) && Total(requests) == supply && |requests| >= 2
    ensures var done := UserSet(Plan(requests, supply).partial);
            var left := Without(requests, done);
            && |left| == 1 && left[0] in requests
            && 0 <= supply - Burned(requests, done) <= U64_MAX
            && Plan(left, supply - Burned(requests, done)) == WithdrawalPlan([], Some(left[0].user))
  {
    SaturationHarmless(requests, supply);
    var k := HeldBack(requests);
  }

  /** The plan names nobody exactly for an empty queue or a lone request above the supply. */
  lemma PlanProgresses(requests: seq<Request>, supply: u64)
    ensures Plan(requests, supply) == WithdrawalPlan([], None)
       <==> requests == [] || (|requests| == 1 && requests[0].shares > supply)
  {
    SaturationHarmless(requests, supply);
    SortIsStable(requests, 0);
    if |requests| == 1 {
      assert requests[..0] == [];
      assert Total(requests) == requests[0].shares;
    }
  }
}
