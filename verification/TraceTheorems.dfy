/** What the trace grammar implies about blocks, the route and the number of attempts. */
module TraceTheorems {
  import opened Wrappers
  import opened Traces
  import opened Text
  import opened Decisions
  import opened Profiles
  import opened Routes
  import opened Invariants

  /** Where the fallbacks start in the route. */
  function Offset(r: Routing): nat {
    if r.escalation.Some? then 2 else 1
  }

  /** Attempt `a` runs position `k` of the route, on the leg that position belongs to. */
  ghost predicate At(p: Plan, a: Attempt, k: nat) {
    var r := p.profile.routing;
    && k < |RouteOf(r)| && RouteOf(r)[k] == a.evaluatorID
    && a.leg == if k == 0 then PrimaryLeg else if k < Offset(r) then EscalationLeg else FallbackLeg
  }

  /** How one attempt's position follows from the previous one's. */
  ghost predicate Moves(p: Plan, a: Attempt, from: nat, to: nat) {
    if a.attempt > 1 then to == from
    else if a.leg.EscalationLeg? then from == 0 && to == 1
    else to > from && to == if from < Offset(p.profile.routing) then Offset(p.profile.routing) else from + 1
  }

  lemma FallbackPosition(r: Routing, j: nat)
    requires j < |Fallbacks(r)|
    ensures Offset(r) + j < |RouteOf(r)| && RouteOf(r)[Offset(r) + j] == Fallbacks(r)[j]
  {
  }

  lemma FollowsMoves(p: Plan, previous: Attempt, from: nat, a: Attempt) returns (to: nat)
    requires Distinct(RouteOf(p.profile.routing)) && At(p, previous, from)
    requires Follows(p, Some(previous), a.evaluatorID, a.leg, a.ruleIndexes, a.attempt)
    ensures At(p, a, to) && Moves(p, a, from, to)
  {
    hide StrictlyIncreasing, Entries;
    var r := p.profile.routing;
    if a.attempt > 1 {
      to := from;
    } else if a.leg.EscalationLeg? {
      to := 1;
    } else if previous.leg.FallbackLeg? {
      var j :| 1 <= j < |Fallbacks(r)| && Fallbacks(r)[j - 1] == previous.evaluatorID && Fallbacks(r)[j] == a.evaluatorID;
      FallbackPosition(r, j - 1);
      FallbackPosition(r, j);
      SamePosition(RouteOf(r), from, Offset(r) + j - 1);
      to := Offset(r) + j;
    } else {
      FallbackPosition(r, 0);
      to := Offset(r);
    }
  }

  lemma SamePosition(route: seq<string>, i: nat, j: nat)
    requires Distinct(route) && i < |route| && j < |route| && route[i] == route[j]
    ensures i == j
  {
  }

  /** The positions a trace runs through: it starts at the primary and moves only forward. */
  ghost predicate Path(p: Plan, trace: seq<Attempt>, path: seq<nat>) {
    && |path| == |trace|
    && (forall i :: 0 <= i < |path| ==> At(p, trace[i], path[i]))
    && (|path| > 0 ==> path[0] == 0 && trace[0].attempt == 1)
    && (forall i :: 1 <= i < |path| ==> Moves(p, trace[i], path[i - 1], path[i]))
  }

  lemma GrammarPrefix(p: Plan, trace: seq<Attempt>, n: nat)
    requires Grammar(p, trace) && n <= |trace|
    ensures Grammar(p, trace[..n])
  {
    hide Follows;
    var prefix := trace[..n];
    forall i | 0 <= i < n
      ensures Follows(p, Preceding(prefix, i), prefix[i].evaluatorID, prefix[i].leg, prefix[i].ruleIndexes, prefix[i].attempt)
    {
      assert Preceding(prefix, i) == Preceding(trace, i) && prefix[i] == trace[i];
    }
  }

  lemma PathExtends(p: Plan, trace: seq<Attempt>, path: seq<nat>, to: nat)
    requires trace != [] && Path(p, trace[..|trace| - 1], path) && At(p, trace[|trace| - 1], to)
    requires if |trace| == 1 then to == 0 && trace[0].attempt == 1
             else Moves(p, trace[|trace| - 1], path[|trace| - 2], to)
    ensures Path(p, trace, path + [to])
  {
    hide At, Moves;
    var n := |trace| - 1;
    assert forall i :: 0 <= i < n ==> trace[..n][i] == trace[i];
  }

  lemma StartsAtPrimary(p: Plan, a: Attempt)
    requires Follows(p, None, a.evaluatorID, a.leg, a.ruleIndexes, a.attempt)
    ensures At(p, a, 0) && a.attempt == 1
  {
    hide StrictlyIncreasing, Entries;
  }

  lemma {:induction false} PathOf(p: Plan, trace: seq<Attempt>) returns (path: seq<nat>)
    requires Distinct(RouteOf(p.profile.routing)) && Grammar(p, trace)
    ensures Path(p, trace, path)
  {
    hide At, Moves, Follows;
    path := [];
    if trace != [] {
      var n := |trace| - 1;
      GrammarPrefix(p, trace, n);
      path := PathOf(p, trace[..n]);
      assert Follows(p, Preceding(trace, n), trace[n].evaluatorID, trace[n].leg, trace[n].ruleIndexes, trace[n].attempt);
      hide Grammar;
      if n == 0 {
        StartsAtPrimary(p, trace[0]);
        PathExtends(p, trace, path, 0);
        path := path + [0];
      } else {
        assert At(p, trace[..n][n - 1], path[n - 1]);
        var to := FollowsMoves(p, trace[n - 1], path[n - 1], trace[n]);
        PathExtends(p, trace, path, to);
        path := path + [to];
      }
    }
  }

  lemma {:induction false} PathAscends(p: Plan, trace: seq<Attempt>, path: seq<nat>, i: nat, k: nat)
    requires Path(p, trace, path) && i <= k < |path|
    ensures path[i] <= path[k]
    decreases k
  {
    if i < k {
      PathAscends(p, trace, path, i, k - 1);
      assert Moves(p, trace[k], path[k - 1], path[k]);
    }
  }

  /** The entry of an ID that a trace mentions. */
  function EntryOf'(p: Plan, id: string): Entry {
    if id in Entries(p.profile.evaluators) then EntryOf(p, id) else NO_ENTRY
  }

  const NO_ENTRY := Entry("", UnlistedMode(""), "", "", Component("", ""), [], 0, RetryPolicy(0, None, None, None, None), None, None, None,
                          None, None, None)

  ghost predicate RetryOf(p: Plan, a: Attempt, b: Attempt) {
    && b.evaluatorID == a.evaluatorID && b.leg == a.leg && b.ruleIndexes == a.ruleIndexes && b.attempt == a.attempt + 1
    && Listed(a.code, EntryOf'(p, a.evaluatorID).retry.retryOn)
  }

  /** Staying at a position is a retry. */
  lemma StayingIsRetrying(p: Plan, trace: seq<Attempt>, path: seq<nat>, k: nat)
    requires Grammar(p, trace) && Path(p, trace, path) && 1 <= k < |path| && path[k - 1] == path[k]
    ensures RetryOf(p, trace[k - 1], trace[k])
  {
    hide At;
    assert Moves(p, trace[k], path[k - 1], path[k]);
    assert Follows(p, Preceding(trace, k), trace[k].evaluatorID, trace[k].leg, trace[k].ruleIndexes, trace[k].attempt);
    hide Grammar, Path, StrictlyIncreasing, Entries;
  }

  /** Between two attempts at one position there are only retries. */
  lemma {:induction false} BlockOf(p: Plan, trace: seq<Attempt>, path: seq<nat>, i: nat, k: nat)
    requires Grammar(p, trace) && Path(p, trace, path) && i <= k < |path| && path[i] == path[k]
    ensures trace[k].evaluatorID == trace[i].evaluatorID && trace[k].leg == trace[i].leg
    ensures trace[k].ruleIndexes == trace[i].ruleIndexes && trace[k].attempt == trace[i].attempt + (k - i)
    ensures forall j :: i <= j < k ==> Listed(trace[j].code, EntryOf'(p, trace[i].evaluatorID).retry.retryOn)
    decreases k
  {
    hide At, Moves, Grammar, Follows, EntryOf';
    if i < k {
      PathAscends(p, trace, path, i, k - 1);
      PathAscends(p, trace, path, k - 1, k);
      BlockOf(p, trace, path, i, k - 1);
      StayingIsRetrying(p, trace, path, k);
    }
  }

  /**
   No evaluator appears in two blocks: all attempts of one evaluator are consecutive, numbered one
   after the other up to its limit, on one leg and over the same rules, and each but the last failed
   with a class that evaluator retries on.
   */
  lemma OneBlockPerEvaluator(p: Plan, trace: seq<Attempt>, i: nat, k: nat)
    requires ValidProfile(p.profile) && Grammar(p, trace)
    requires i <= k < |trace| && trace[i].evaluatorID == trace[k].evaluatorID
    ensures trace[k].attempt == trace[i].attempt + (k - i)
    ensures trace[k].leg == trace[i].leg && trace[k].ruleIndexes == trace[i].ruleIndexes
    ensures forall j :: i <= j <= k ==> trace[j].evaluatorID == trace[i].evaluatorID
    ensures forall j :: i <= j < k ==> Listed(trace[j].code, EntryOf'(p, trace[i].evaluatorID).retry.retryOn)
    ensures 1 <= trace[k].attempt <= EntryOf'(p, trace[k].evaluatorID).retry.maxAttempts <= MAX_ATTEMPTS
  {
    RouteIsDistinct(p);
    var path := PathOf(p, trace);
    assert At(p, trace[i], path[i]) && At(p, trace[k], path[k]);
    SamePosition(RouteOf(p.profile.routing), path[i], path[k]);
    hide At, Moves;
    BlockOf(p, trace, path, i, k);
    forall j | i <= j <= k ensures trace[j].evaluatorID == trace[i].evaluatorID {
      PathAscends(p, trace, path, i, j);
      PathAscends(p, trace, path, j, k);
      BlockOf(p, trace, path, i, j);
    }
    AttemptInRange(p, trace, k);
  }

  lemma RouteIsDistinct(p: Plan)
    requires ValidProfile(p.profile)
    ensures Distinct(RouteOf(p.profile.routing))
  {
  }

  lemma AttemptInRange(p: Plan, trace: seq<Attempt>, k: nat)
    requires ValidProfile(p.profile) && Grammar(p, trace) && k < |trace|
    ensures 1 <= trace[k].attempt <= EntryOf'(p, trace[k].evaluatorID).retry.maxAttempts <= MAX_ATTEMPTS
  {
    var a := trace[k];
    assert Follows(p, Preceding(trace, k), a.evaluatorID, a.leg, a.ruleIndexes, a.attempt);
    assert EntryOf(p, a.evaluatorID) in p.profile.evaluators;
    assert RetryOk(EntryOf(p, a.evaluatorID).retry);
  }

  /** The legs come in order: the primary's block, then the escalation's, then the fallbacks'. */
  lemma LegsInOrder(p: Plan, trace: seq<Attempt>, i: nat, k: nat)
    requires ValidProfile(p.profile) && Grammar(p, trace) && i <= k < |trace|
    ensures trace[0].leg.PrimaryLeg? && trace[0].attempt == 1 && trace[0].evaluatorID == p.profile.routing.primary
    ensures trace[k].leg.PrimaryLeg? ==> trace[i].leg.PrimaryLeg?
    ensures trace[i].leg.FallbackLeg? ==> trace[k].leg.FallbackLeg?
    ensures trace[k].leg.EscalationLeg? ==> p.profile.routing.escalation == Some(trace[k].evaluatorID)
  {
    hide ValidProfile, Grammar, Moves, At;
    RouteIsDistinct(p);
    var path := PathOf(p, trace);
    PathAscends(p, trace, path, i, k);
    LegAt(p, trace[0], 0);
    LegAt(p, trace[i], path[i]);
    LegAt(p, trace[k], path[k]);
  }

  lemma LegAt(p: Plan, a: Attempt, k: nat)
    requires At(p, a, k)
    ensures a.leg.PrimaryLeg? <==> k == 0
    ensures a.leg.FallbackLeg? <==> k >= Offset(p.profile.routing)
    ensures k == 0 ==> a.evaluatorID == p.profile.routing.primary
    ensures a.leg.EscalationLeg? ==> p.profile.routing.escalation == Some(a.evaluatorID)
  {
  }

  /** The fallbacks that ran are a prefix of the configured ones, in order. */
  lemma FallbacksArePrefix(p: Plan, trace: seq<Attempt>, k: nat) returns (j: nat)
    requires ValidProfile(p.profile) && Grammar(p, trace) && k < |trace| && trace[k].leg.FallbackLeg?
    ensures j < |Fallbacks(p.profile.routing)| && trace[k].evaluatorID == Fallbacks(p.profile.routing)[j]
    ensures forall h :: 0 <= h < j ==> exists i :: 0 <= i < k && trace[i].evaluatorID == Fallbacks(p.profile.routing)[h]
  {
    hide ValidProfile, Grammar, At, Moves, RouteOf, Offset;
    RouteIsDistinct(p);
    var path := PathOf(p, trace);
    var r := p.profile.routing;
    LegAt(p, trace[k], path[k]);
    FallbackAt(p, trace[k], path[k]);
    j := path[k] - Offset(r);
    forall h | 0 <= h < j ensures exists i :: 0 <= i < k && trace[i].evaluatorID == Fallbacks(r)[h] {
      var i := Visited(p, trace, path, Offset(r) + h, k);
      FallbackAt(p, trace[i], Offset(r) + h);
    }
  }

  lemma FallbackAt(p: Plan, a: Attempt, k: nat)
    requires At(p, a, k) && k >= Offset(p.profile.routing)
    ensures k - Offset(p.profile.routing) < |Fallbacks(p.profile.routing)|
    ensures a.evaluatorID == Fallbacks(p.profile.routing)[k - Offset(p.profile.routing)]
  {
    FallbackPosition(p.profile.routing, k - Offset(p.profile.routing));
  }

  /** A fallback position below the current one was run on the way. */
  lemma {:induction false} Visited(p: Plan, trace: seq<Attempt>, path: seq<nat>, k: nat, n: nat) returns (i: nat)
    requires Path(p, trace, path) && n < |path| && Offset(p.profile.routing) <= k < path[n]
    ensures i < n && path[i] == k && At(p, trace[i], k)
    decreases n
  {
    hide At;
    assert Moves(p, trace[n], path[n - 1], path[n]);
    if path[n - 1] == k {
      i := n - 1;
    } else {
      i := Visited(p, trace, path, k, n - 1);
    }
  }

  // The reported route

  /** The positions of the collapsed trace, strictly increasing. */
  ghost predicate Summary(p: Plan, trace: seq<Attempt>, path: seq<nat>, q: seq<nat>) {
    && |q| == |Collapsed(trace)| && StrictlyIncreasing(q, |RouteOf(p.profile.routing)|)
    && (forall i :: 0 <= i < |q| ==> RouteOf(p.profile.routing)[q[i]] == Collapsed(trace)[i])
    && |path| == |trace|
    && (trace != [] ==> q != [] && q[|q| - 1] == path[|path| - 1])
  }

  lemma SummaryExtends(p: Plan, trace: seq<Attempt>, path: seq<nat>, q: seq<nat>)
    requires trace != [] && |path| == |trace| && path[|path| - 1] < |RouteOf(p.profile.routing)|
    requires RouteOf(p.profile.routing)[path[|path| - 1]] == trace[|trace| - 1].evaluatorID
    requires Summary(p, trace[..|trace| - 1], path[..|path| - 1], q)
    requires |trace| > 1 ==> trace[|trace| - 2].evaluatorID != trace[|trace| - 1].evaluatorID && path[|path| - 2] < path[|path| - 1]
    ensures Summary(p, trace, path, q + [path[|path| - 1]])
  {
    hide RouteOf, StrictlyIncreasing;
    var n := |trace| - 1;
    var to := path[n];
    assert Collapsed(trace) == Collapsed(trace[..n]) + [trace[n].evaluatorID];
    hide Collapsed;
    if n == 0 {
      EmptySummary(trace[..n]);
    } else {
      assert q[|q| - 1] == path[n - 1] < to;
    }
    IncreasingSnoc(q, to, |RouteOf(p.profile.routing)|);
  }

  lemma IncreasingSnoc(q: seq<nat>, to: nat, bound: nat)
    requires StrictlyIncreasing(q, bound) && to < bound && (q != [] ==> q[|q| - 1] < to)
    ensures StrictlyIncreasing(q + [to], bound)
  {
    var longer := q + [to];
    forall i, k | 0 <= i < k < |longer| ensures longer[i] < longer[k] {
      assert k == |q| && i < |q| - 1 ==> q[i] < q[|q| - 1];
    }
  }

  lemma EmptySummary(trace: seq<Attempt>)
    requires trace == []
    ensures Collapsed(trace) == []
  {
  }

  lemma {:induction false} CollapsedPath(p: Plan, trace: seq<Attempt>, path: seq<nat>) returns (q: seq<nat>)
    requires Distinct(RouteOf(p.profile.routing)) && Path(p, trace, path)
    ensures Summary(p, trace, path, q)
  {
    hide RouteOf, Moves;
    q := [];
    if trace != [] {
      var n := |trace| - 1;
      PathPrefix(p, trace, path, n);
      q := CollapsedPath(p, trace[..n], path[..n]);
      assert At(p, trace[n], path[n]);
      if n > 0 && trace[n - 1].evaluatorID == trace[n].evaluatorID {
        assert At(p, trace[n - 1], path[n - 1]);
        SamePosition(RouteOf(p.profile.routing), path[n - 1], path[n]);
        assert Collapsed(trace) == Collapsed(trace[..n]);
        assert path[..n][n - 1] == path[n - 1];
      } else {
        if n > 0 {
          assert At(p, trace[n - 1], path[n - 1]);
          PathAscends(p, trace, path, n - 1, n);
        }
        SummaryExtends(p, trace, path, q);
        q := q + [path[n]];
      }
    }
  }

  lemma PathPrefix(p: Plan, trace: seq<Attempt>, path: seq<nat>, n: nat)
    requires Path(p, trace, path) && n <= |trace|
    ensures Path(p, trace[..n], path[..n])
  {
    hide At, Moves;
  }

  lemma InOrderAt(q: seq<nat>, bound: nat)
    requires StrictlyIncreasing(q, bound)
    ensures forall i :: 0 <= i < |q| ==> q[i] < bound
    ensures forall i, j :: 0 <= i < j < |q| ==> q[i] < q[j]
  {
  }

  /** The route a Decision reports names each evaluator once, at most 16 of them, in the profile's order. */
  lemma RouteIsSummary(p: Plan, trace: seq<Attempt>)
    requires ValidProfile(p.profile) && Grammar(p, trace)
    ensures Distinct(Collapsed(trace)) && |Collapsed(trace)| <= MAX_EVALUATOR_ROUTE
    ensures trace != [] ==> Collapsed(trace) != []
    ensures forall i :: 0 <= i < |Collapsed(trace)| ==> IsIdentifier(Collapsed(trace)[i], 63)
    ensures forall id :: id in Collapsed(trace) ==> id in RouteOf(p.profile.routing)
  {
    hide IsIdentifier, ValidProfile, At, Moves, Follows, Grammar, StrictlyIncreasing, RouteOf;
    RouteIsDistinct(p);
    var path := PathOf(p, trace);
    var q := CollapsedPath(p, trace, path);
    var route := RouteOf(p.profile.routing);
    RouteIsBounded(p.profile);
    IncreasingIsShort(q, |route|);
    RouteIDs(p);
    InOrderAt(q, |route|);
    forall i | 0 <= i < |q| ensures IsIdentifier(Collapsed(trace)[i], 63) && Collapsed(trace)[i] in route {
      assert q[i] < |route|;
    }
    forall i, j | 0 <= i < j < |q| ensures Collapsed(trace)[i] != Collapsed(trace)[j] {
      assert q[i] < q[j];
    }
  }

  lemma RouteIDs(p: Plan)
    requires ValidProfile(p.profile)
    ensures forall i :: 0 <= i < |RouteOf(p.profile.routing)| ==> IsIdentifier(RouteOf(p.profile.routing)[i], 63)
  {
  }

  lemma {:induction false} IncreasingIsShort(q: seq<nat>, bound: nat)
    requires StrictlyIncreasing(q, bound)
    ensures |q| <= bound
    decreases |q|
  {
    if q != [] {
      var n := |q| - 1;
      forall k | 0 <= k < n ensures q[..n][k] < q[n] {}
      IncreasingIsShort(q[..n], q[n]);
    }
  }
}
