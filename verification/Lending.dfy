/**
 Which adapters a run calls, and what they are given: installed ones that suit their evaluator and may be used, and
 exactly the credential bytes that were held for their evaluator when the run began.
 */
module Lending {
  import opened Wrappers
  import opened Traces
  import opened Policies
  import opened Evaluations
  import opened Profiles
  import opened CanonicalPolicy
  import opened Surroundings
  import opened Routes
  import opened Invariants
  import opened Runs
  import opened RunTheorems
  import opened TraceTheorems
  import opened Registries
  import opened Deciding
  import opened Acceptance

  /** Every traced evaluator has a place on the route. */
  lemma TracedIsRouted(p: Plan, trace: seq<Attempt>, j: nat)
    requires ValidProfile(p.profile) && Grammar(p, trace) && j < |trace|
    ensures trace[j].evaluatorID in RouteOf(p.profile.routing)
  {
    hide ValidProfile, Moves, Grammar, RouteOf;
    RouteIsDistinct(p);
    var path := PathOf(p, trace);
    assert At(p, trace[j], path[j]);
  }

  lemma TakenAlong(input: Input, id: string)
    requires ValidProfile(input.profile) && Credentialed(Along(input.profile), input.held)
    requires id in RouteOf(input.profile.routing) && id in Entries(input.profile.evaluators)
    ensures var e, secrets := Entries(input.profile.evaluators)[id], Taken(Along(input.profile), input.held);
      e.credentialSlot.Some? ==>
        && KeyOf(e) in input.held && input.held[KeyOf(e)] != ""
        && KeyOf(e) in secrets && secrets[KeyOf(e)] == input.held[KeyOf(e)]
  {
    hide ValidProfile, Entries, RouteOf, EntriesAlong, Taken;
    IsAlong(Entries(input.profile.evaluators), RouteOf(input.profile.routing), id);
    TakenIsHeld(Along(input.profile), input.held);
  }

  lemma PlannedParts(input: Input, now: int, hash: string -> Sum)
    requires Admitted(input, PlanOf(input, now, hash))
    ensures var p := PlanOf(input, now, hash);
      p.profile == input.profile && p.secrets == Taken(Along(input.profile), input.held) && p.started == now
    ensures ValidProfile(input.profile) && Credentialed(Along(input.profile), input.held)
  {
    hide ValidProfile, ValidPolicy, RequestOk, Credentialed, Taken, Along, Probes, CanonicalText, LabelOk, ParametersAccepted,
         AllRunnable;
  }

  /** For every call of a decided run: nothing if its evaluator has no credential slot, else the bytes held for it. */
  lemma CallsAreGivenWhatWasHeld(input: Input, w: World, hash: string -> Sum, j: nat)
    requires Calm(w) && Run(input, w, hash).Decided? && j < |Run(input, w, hash).report.x.trace|
    ensures var y := Run(input, w, hash).report.x;
      && |y.world.calls| == |y.trace|
      && y.trace[j].evaluatorID in Entries(input.profile.evaluators)
      && var e := Entries(input.profile.evaluators)[y.trace[j].evaluatorID];
         if e.credentialSlot.None? then y.world.calls[j].given.None?
         else
           && KeyOf(e) in input.held && input.held[KeyOf(e)] != ""
           && y.world.calls[j].given == Some(input.held[KeyOf(e)])
  {
    hide Admitted, RouteAll, PlanOf, PlanOk, Probed, Grammar, CallOk, Terminal, Decide, ValidProfile, Credentialed, Taken, Along,
         Entries, RouteOf;
    var clock := Tick(w);
    var p := PlanOf(input, clock.now, hash);
    AdmittedPlan(input, clock.now, hash);
    PlannedParts(input, clock.now, hash);
    var x := Fresh(clock);
    EveryTraceIsGrammatical(p, x);
    NoLateEvidence(p, x, j);
    var y := RouteAll(p, x).value.x;
    TracedIsRouted(p, y.trace, j);
    GivenItsOwn(p, y.trace[j], y.world.calls[j]);
    TakenAlong(input, y.trace[j].evaluatorID);
  }

  lemma GivenItsOwn(p: Plan, a: Attempt, c: Call)
    requires CallOk(p, a, c)
    ensures a.evaluatorID in Entries(p.profile.evaluators) && c.given == Lent(p, EntryOf(p, a.evaluatorID))
  {
    hide ResultOk, MetadataMatches, IndexesOk, Entries;
  }

  /** Every evaluator on the route of a decided run can be run, and its adapter takes its parameters. */
  lemma UsableOnRoute(input: Input, w: World, hash: string -> Sum, id: string)
    requires Calm(w) && Run(input, w, hash).Decided?
    requires id in RouteOf(input.profile.routing) && id in Entries(input.profile.evaluators)
    ensures var e := Entries(input.profile.evaluators)[id];
      && Usable(input, e) && TakesParameters(input, e)
      && input.profile.evaluators != [] && e.mode == input.profile.evaluators[0].mode
  {
    hide Run, RouteOf, Entries, Usable, TakesParameters, EntryOk, RoutingOk, HeaderOk, SlotsOk, ValidPolicy, CanonicalText, DueAt;
    DecidedExactly(input, w, hash);
    var e := Entries(input.profile.evaluators)[id];
    var i :| 0 <= i < |input.profile.evaluators| && input.profile.evaluators[i] == e;
  }

  /**
   Every call of a decided run goes to the installed adapter of its evaluator's exact identity, which evaluates, has that
   evaluator's mode, protocol, capabilities and fixture version, and takes its parameters; and a fixture is called only
   with permission and never under enforcement.
   */
  lemma CallsAreInstalled(input: Input, w: World, hash: string -> Sum, j: nat)
    requires Calm(w) && Run(input, w, hash).Decided? && j < |Run(input, w, hash).report.x.trace|
    ensures var y := Run(input, w, hash).report.x;
      && |y.world.calls| == |y.trace| && y.trace[j].evaluatorID in Entries(input.profile.evaluators)
      && var e := Entries(input.profile.evaluators)[y.trace[j].evaluatorID];
         && y.world.calls[j].adapter == Component(e.adapterID, e.adapterVersion)
         && Usable(input, e) && TakesParameters(input, e)
  {
    hide RouteAll, PlanOk, Probed, Grammar, ValidProfile, Entries, RouteOf, Run, Begins, Usable, TakesParameters, ResultOk, IsFrom,
         JudgedAs, Names, Due;
    var p := PlannedRun(input, w, hash);
    var x := Fresh(Tick(w));
    EveryTraceIsGrammatical(p, x);
    NoLateEvidence(p, x, j);
    var y := RouteAll(p, x).value.x;
    TracedIsRouted(p, y.trace, j);
    UsableOnRoute(input, w, hash, y.trace[j].evaluatorID);
  }

  lemma PlannedRun(input: Input, w: World, hash: string -> Sum) returns (p: Plan)
    requires Calm(w) && Run(input, w, hash).Decided?
    ensures p == PlanOf(input, Tick(w).now, hash) && p.profile == input.profile && ValidProfile(input.profile)
    ensures PlanOk(p) && Probed(p) && Begins(p, Fresh(Tick(w))) && RouteAll(p, Fresh(Tick(w))).Some?
    ensures Run(input, w, hash).report.x == RouteAll(p, Fresh(Tick(w))).value.x
  {
    hide Admitted, RouteAll, PlanOf, PlanOk, Probed, Begins, ValidProfile, Decide, Terminal;
    p := PlanOf(input, Tick(w).now, hash);
    DecidedParts(input, w, hash);
    PlannedParts(input, Tick(w).now, hash);
  }

  /** The Decision says truly whether it rests on fixtures, and under enforcement it never does. */
  lemma DecisionIsMarked(input: Input, w: World, hash: string -> Sum)
    requires Calm(w) && Run(input, w, hash).Decided?
    ensures var reported := Run(input, w, hash).report.decision.evaluator;
      && reported.Some? && input.profile.evaluators != []
      && reported.value.mode == input.profile.evaluators[0].mode
      && reported.value.synthetic == Some(input.profile.evaluators[0].mode.DeterministicFixture?)
      && (input.permission.enforcement ==> reported.value.synthetic == Some(false))
  {
    hide Run, PlanOf, PlanOk, Probed, Begins, RouteAll, Terminal, Decide, Identity, Describes, MetadataOk, ReportsAs;
    var e := LastEvaluator(input, w, hash);
    DecidedParts(input, w, hash);
    var p, report := PlanOf(input, Tick(w).now, hash), Run(input, w, hash).report;
    DecideParts(p, report.x, report.evidence, report.terminal, hash);
    IdentityMode(p, report.x, e);
  }

  /** The metadata at the end of an execution are of this evaluator's mode. */
  predicate ReportsAs(x: Execution, e: Entry) {
    x.last.mode == e.mode && x.last.synthetic == e.mode.DeterministicFixture?
  }

  lemma IdentityMode(p: Plan, x: Execution, e: Entry)
    requires ReportsAs(x, e)
    ensures Identity(p, x).mode == e.mode && Identity(p, x).synthetic == Some(e.mode.DeterministicFixture?)
  {
  }

  /** The evaluator of the last attempt. */
  lemma LastEvaluator(input: Input, w: World, hash: string -> Sum) returns (e: Entry)
    requires Calm(w) && Run(input, w, hash).Decided?
    ensures Usable(input, e) && ReportsAs(Run(input, w, hash).report.x, e)
    ensures input.profile.evaluators != [] && e.mode == input.profile.evaluators[0].mode
  {
    hide RouteAll, PlanOk, Probed, Run, Begins, Entries, ValidProfile, Inv, Usable, TakesParameters, RouteOf, Grammar, ReportsAs;
    var p := PlannedRun(input, w, hash);
    var x := Fresh(Tick(w));
    KeepsInv(p, x);
    var y := RouteAll(p, x).value.x;
    EveryTraceIsGrammatical(p, x);
    LastCounts(p, y);
    TracedIsRouted(p, y.trace, |y.trace| - 1);
    UsableOnRoute(input, w, hash, y.trace[|y.trace| - 1].evaluatorID);
    e := Entries(input.profile.evaluators)[y.trace[|y.trace| - 1].evaluatorID];
  }

  lemma LastCounts(p: Plan, x: Execution)
    requires Inv(p, x) && x.trace != []
    ensures var id := x.trace[|x.trace| - 1].evaluatorID;
      id in Entries(p.profile.evaluators) && ReportsAs(x, EntryOf(p, id))
  {
    hide Grammar, Timely, Aligned, Summarised, MetadataOk, Entries;
  }
}
