/** When a run is decided at all: exactly when it is admitted and nothing stops it before its first attempt. */
module Acceptance {
  import opened Text
  import opened Traces
  import opened Policies
  import opened Evaluations
  import opened Profiles
  import opened CanonicalPolicy
  import opened Surroundings
  import opened Routes
  import opened Invariants
  import opened Registries
  import opened Deciding

  lemma InvokeAttempts(p: Plan, x: Execution, e: Entry, leg: Leg, indexes: seq<nat>)
    requires RetryOk(e.retry) && IndexesOk(p, indexes) && 1 <= e.retry.maxAttempts && x.trace == []
    ensures Invoke(p, x, e, leg, indexes, 1).x.trace != [] <==> Stopped(x.world, p.request.deadline).code.None?
  {
    hide RetryOk, Backoff, CallAdapter, RecordCall, Stopped, IndexesOk, Covers;
    InvokeStep(p, x, e, leg, indexes, 1);
    var stop := Stopped(x.world, p.request.deadline);
    if stop.code.None? {
      var c := CallAdapter(p, stop.world, e, indexes);
      RecordShape(x.(world := stop.world), e, leg, indexes, 1, c);
      hide Invoke;
    }
  }

  /** Whatever the adapters answer afterwards, one attempt is made exactly when the run is not stopped before it. */
  lemma AttemptedExactly(p: Plan, w: World)
    requires PlanOk(p)
    ensures RouteAll(p, Fresh(w)).Some? <==> Stopped(w, p.request.deadline).code.None?
  {
    hide PlanOk, ValidProfile, Invoke, Stopped, EntryOk, Entries, Chain, Escalate, Overwritten, Confident, LowIndexes, RetryOk;
    ValidPlan(p);
    PlannedEntries(p);
    PrimaryIsPlanned(p);
    InvokeAttempts(p, Fresh(w), EntryOf(p, p.profile.routing.primary), PrimaryLeg, AllIndexes(|p.request.rules|));
  }

  // What is accepted, in terms of the input alone

  /** When a run whose clock read `now` is due: after its profile's timeout, or when its caller's context is. */
  function DueAt(input: Input, now: int): int {
    var own := now + input.profile.totalTimeoutMS * MILLISECOND;
    if input.parentDeadline.Some? && input.parentDeadline.value < own then input.parentDeadline.value else own
  }

  /**
   An evaluator that can be run: its exact adapter is installed, evaluates, and has its mode, protocol, capabilities
   and fixture version; a fixture is allowed; its credential is held; and what describes it would pass as metadata.
   */
  ghost predicate Usable(input: Input, e: Entry) {
    var identity := Component(e.adapterID, e.adapterVersion);
    && identity in input.registry
    && input.registry[identity].evaluates
    && input.registry[identity].mode == e.mode && input.registry[identity].protocol == e.protocol
    && (forall c :: c in e.capabilities ==> c in input.registry[identity].capabilities)
    && (e.mode.DeterministicFixture? ==>
          && input.registry[identity].fixtureVersion == FixtureVersion(e)
          && !input.permission.enforcement && input.permission.allowSyntheticFixtures)
    && (e.credentialSlot.Some? ==>
          var key := Key(e.adapterID, e.credentialSlot.value); key in input.held && input.held[key] != "")
    && forall m :: Describes(m, e) ==> MetadataOk(m)
  }

  /** A semantic evaluator's exact adapter has a validator, which takes its parameters. */
  ghost predicate TakesParameters(input: Input, e: Entry) {
    var identity := Component(e.adapterID, e.adapterVersion);
    e.mode.Semantic? ==>
      && identity in input.registry && input.registry[identity].accepts.Some?
      && input.registry[identity].accepts.value(e.parameters.GetOr([]))
  }

  ghost predicate LabelAllowed(version: string) {
    version == "" || NonBlankText(version, 128)
  }

  /** What a run whose clock reads `now` asks of its input. */
  ghost predicate Acceptable(input: Input, now: int) {
    && ValidPolicy(input.policy) && |CanonicalText(input.policy)| <= MAX_SOURCE_BYTES
    && ValidProfile(input.profile)
    && input.isCanonical && 1 <= input.canonicalInput.size <= MAX_INPUT_BYTES
    && input.canonicalInput.value.Some? && input.canonicalInput.value.value.Object?
    && (forall i :: 0 <= i < |input.profile.evaluators| ==> TakesParameters(input, input.profile.evaluators[i]))
    && (forall id :: id in RouteOf(input.profile.routing) && id in Entries(input.profile.evaluators) ==>
          Usable(input, Entries(input.profile.evaluators)[id]))
    && IsDigest(input.profileDigest) && NonBlankText(input.correlationID, 128)
    && DueAt(input, now) != ZERO_TIME
    && LabelAllowed(input.policyVersion) && LabelAllowed(input.profileVersion)
  }

  lemma ParametersExactly(input: Input)
    ensures ParametersAccepted(input.profile, input.registry) <==>
            forall i :: 0 <= i < |input.profile.evaluators| ==> TakesParameters(input, input.profile.evaluators[i])
  {
    forall i | 0 <= i < |input.profile.evaluators|
      ensures TakesParameters(input, input.profile.evaluators[i]) <==>
              (input.profile.evaluators[i].mode.Semantic? ==> Accepts(input.profile.evaluators[i], input.registry))
    {
    }
  }

  lemma {:induction false} AlongExactly(entries: map<string, Entry>, route: seq<string>, e: Entry)
    ensures e in EntriesAlong(entries, route) <==> exists id :: id in route && id in entries && entries[id] == e
  {
    if route != [] {
      var init, last := route[..|route| - 1], route[|route| - 1];
      assert route == init + [last];
      AlongExactly(entries, init, e);
    }
  }

  lemma DescribedExactly(e: Entry)
    ensures (forall m :: Describes(m, e) ==> MetadataOk(m)) <==> MetadataOk(MetadataOf(e))
  {
    hide MetadataOk, FixtureSet, FixtureVersion;
    MatchesExactly(e, MetadataOf(e));
    forall m | Describes(m, e) ensures m == MetadataOf(e) {
    }
  }

  lemma UsableExactly(input: Input, e: Entry)
    ensures Usable(input, e) <==>
            && Runnable(e, input.registry, input.permission)
            && (e.credentialSlot.Some? ==> KeyOf(e) in input.held && input.held[KeyOf(e)] != "")
            && MetadataOk(MetadataOf(e))
  {
    hide MetadataOk, Describes, MetadataOf, FixtureVersion;
    DescribedExactly(e);
  }

  lemma RouteExactly(input: Input)
    requires ValidProfile(input.profile)
    ensures var entries, route := Entries(input.profile.evaluators), RouteOf(input.profile.routing);
      (forall id :: id in route && id in entries ==> Usable(input, entries[id])) <==>
        && AllRunnable(Along(input.profile), input.registry, input.permission)
        && Credentialed(Along(input.profile), input.held)
        && forall i :: 0 <= i < |route| ==> route[i] in entries && MetadataOk(MetadataOf(entries[route[i]]))
  {
    hide ValidProfile, Usable, Runnable, MetadataOk, MetadataOf, EntriesAlong, RouteOf, Entries;
    var entries, route, along := Entries(input.profile.evaluators), RouteOf(input.profile.routing), Along(input.profile);
    RouteDeclared(input.profile);
    forall e ensures e in along <==> exists id :: id in route && id in entries && entries[id] == e {
      AlongExactly(entries, route, e);
    }
    forall id | id in route && id in entries
      ensures Usable(input, entries[id]) <==>
              && entries[id] in along && Runnable(entries[id], input.registry, input.permission)
              && (entries[id].credentialSlot.Some? ==>
                    KeyOf(entries[id]) in input.held && input.held[KeyOf(entries[id])] != "")
              && MetadataOk(MetadataOf(entries[id]))
    {
      UsableExactly(input, entries[id]);
    }
    if forall id :: id in route && id in entries ==> Usable(input, entries[id]) {
      forall i | 0 <= i < |along| ensures Runnable(along[i], input.registry, input.permission) {
        assert along[i] in along;
      }
      assert forall i :: 0 <= i < |route| ==> route[i] in route;
    }
  }

  lemma RouteDeclared(p: Profile)
    requires ValidProfile(p)
    ensures forall i :: 0 <= i < |RouteOf(p.routing)| ==> RouteOf(p.routing)[i] in Entries(p.evaluators)
  {
    hide EntryOk, Entries, HeaderOk, SlotsOk;
  }

  lemma RequestExactly(input: Input, now: int, hash: string -> Sum)
    requires ValidPolicy(input.policy)
    ensures RequestOk(PlanOf(input, now, hash).request) <==>
            && 1 <= input.canonicalInput.size <= MAX_INPUT_BYTES
            && input.canonicalInput.value.Some? && input.canonicalInput.value.value.Object?
            && IsDigest(input.profileDigest) && NonBlankText(input.correlationID, 128)
            && DueAt(input, now) != ZERO_TIME
  {
    DigestIsWellFormed(input.policy, hash);
    hide IsDigest, NonBlankText, Digest, Along, Taken, IsName, IsRuleID;
  }

  /** The checks before acceptance, in terms of the input. */
  lemma AdmittedExactly(input: Input, now: int, hash: string -> Sum)
    ensures Admitted(input, PlanOf(input, now, hash)) <==> Acceptable(input, now)
  {
    hide ValidPolicy, ValidProfile, CanonicalText, NonBlankText, IsDigest, AllRunnable, Credentialed, Along, Usable, TakesParameters,
         Entries, RouteOf, MetadataOk, MetadataOf, RequestOk, ParametersAccepted, DueAt;
    ParametersExactly(input);
    if ValidPolicy(input.policy) && ValidProfile(input.profile) {
      RequestExactly(input, now, hash);
      RouteExactly(input);
      PlannedProfileOf(input, now, hash);
      hide PlanOf;
    }
  }

  lemma PlannedProfileOf(input: Input, now: int, hash: string -> Sum)
    ensures PlanOf(input, now, hash).profile == input.profile
    ensures PlanOf(input, now, hash).request.deadline == DueAt(input, now)
  {
  }

  lemma NotStoppedExactly(w: World, deadline: int)
    ensures Stopped(w, deadline).code.None? <==> Tick(w).now < deadline && Tick(Tick(Tick(w))).signal.Quiet?
  {
    hide Coming;
  }

  lemma DecidedWhenAdmitted(input: Input, w: World, hash: string -> Sum)
    requires Calm(w)
    ensures var p := PlanOf(input, Tick(w).now, hash);
      Run(input, w, hash).Decided? <==>
      w.signal.Quiet? && Admitted(input, p) && Stopped(Tick(w), p.request.deadline).code.None?
  {
    hide Admitted, RouteAll, Decide, PlanOf, Terminal, Stopped, PlanOk;
    RunDecides(input, w, hash);
    var clock := Tick(w);
    if w.signal.Quiet? && Admitted(input, PlanOf(input, clock.now, hash)) {
      AdmittedPlan(input, clock.now, hash);
      AttemptedExactly(PlanOf(input, clock.now, hash), clock);
    }
  }

  /**
   A run ends in a Decision if and only if its input is acceptable at its first clock reading, it is not due at its
   second, and its context has not ended by two readings later.
   */
  lemma DecidedExactly(input: Input, w: World, hash: string -> Sum)
    requires Calm(w)
    ensures Run(input, w, hash).Decided? <==>
            && Acceptable(input, Tick(w).now)
            && Tick(Tick(w)).now < DueAt(input, Tick(w).now) && Tick(Tick(Tick(Tick(w)))).signal.Quiet?
  {
    hide Admitted, Acceptable, Run, PlanOf, Stopped, DueAt, Coming;
    DecidedWhenAdmitted(input, w, hash);
    AdmittedExactly(input, Tick(w).now, hash);
    PlannedProfileOf(input, Tick(w).now, hash);
    NotStoppedExactly(Tick(w), DueAt(input, Tick(w).now));
  }
}
