/** Installed adapters and what a run asks of them before its first attempt (evaluator/runner/runner.go). */
module Registries {
  import opened Wrappers
  import opened Decisions
  import opened Profiles

  /** An installed adapter: `accepts` is its parameter validator, if it has one. */
  datatype Installed = Installed(mode: Mode, protocol: Component, capabilities: seq<string>, fixtureVersion: string,
                                 accepts: Option<seq<Trees.Member> -> bool>, evaluates: bool)

  type Registry = map<Component, Installed>

  /** What a caller lets fixtures do: nothing under enforcement, and nothing unless it says so. */
  datatype Permission = Permission(enforcement: bool, allowSyntheticFixtures: bool)

  /** Artifact.ValidateParameters: every semantic evaluator has a validator that accepts its parameters. */
  predicate ParametersAccepted(p: Profile, registry: Registry) {
    forall i :: 0 <= i < |p.evaluators| && p.evaluators[i].mode.Semantic? ==> Accepts(p.evaluators[i], registry)
  }

  predicate Accepts(e: Entry, registry: Registry) {
    && AdapterOf(e) in registry && registry[AdapterOf(e)].accepts.Some?
    && registry[AdapterOf(e)].accepts.value(e.parameters.GetOr([]))
  }

  /** The adapter of exactly this identity is installed and is what the evaluator was written for. */
  predicate Suits(e: Entry, registry: Registry) {
    && AdapterOf(e) in registry
    && var a := registry[AdapterOf(e)];
       && a.evaluates && a.mode == e.mode && a.protocol == e.protocol
       && (e.mode.DeterministicFixture? ==> a.fixtureVersion == FixtureVersion(e))
       && forall c :: c in e.capabilities ==> c in a.capabilities
  }

  predicate Permitted(e: Entry, permission: Permission) {
    e.mode.DeterministicFixture? ==> !permission.enforcement && permission.allowSyntheticFixtures
  }

  /** The checks of run's route loop on the evaluator's adapter. */
  predicate Runnable(e: Entry, registry: Registry, permission: Permission) {
    Suits(e, registry) && Permitted(e, permission)
  }

  predicate AllRunnable(along: seq<Entry>, registry: Registry, permission: Permission) {
    forall i :: 0 <= i < |along| ==> Runnable(along[i], registry, permission)
  }

  /** The checks of run's route loop on one evaluator's adapter, in order. */
  method CheckAdapter(e: Entry, registry: Registry, permission: Permission) returns (ok: bool)
    ensures ok <==> Runnable(e, registry, permission)
  {
    var identity := Component(e.adapterID, e.adapterVersion);
    if identity !in registry {
      return false;
    }
    var a := registry[identity];
    if !a.evaluates || a.mode != e.mode || a.protocol != e.protocol {
      return false;
    }
    if e.mode.DeterministicFixture? && a.fixtureVersion != FixtureVersion(e) {
      return false;
    }
    for i := 0 to |e.capabilities|
      invariant forall k :: 0 <= k < i ==> e.capabilities[k] in a.capabilities
    {
      if e.capabilities[i] !in a.capabilities {
        assert e.capabilities[i] in e.capabilities;
        return false;
      }
    }
    if permission.enforcement && e.mode.DeterministicFixture? {
      return false;
    }
    return !e.mode.DeterministicFixture? || permission.allowSyntheticFixtures;
  }

  /** The adapter's own validator, if it has one. */
  method CheckParameters(e: Entry, registry: Registry) returns (ok: bool)
    ensures ok <==> Accepts(e, registry)
  {
    var identity := Component(e.adapterID, e.adapterVersion);
    if identity !in registry || registry[identity].accepts.None? {
      return false;
    }
    var accepts := registry[identity].accepts.value;
    return accepts(e.parameters.GetOr([]));
  }

  /** ValidateParameters, once the profile itself is valid. */
  method ValidateParameters(p: Profile, registry: Registry) returns (ok: bool)
    ensures ok <==> ParametersAccepted(p, registry)
  {
    hide Accepts;
    for i := 0 to |p.evaluators|
      invariant forall k :: 0 <= k < i && p.evaluators[k].mode.Semantic? ==> Accepts(p.evaluators[k], registry)
    {
      if p.evaluators[i].mode.Semantic? {
        var accepted := CheckParameters(p.evaluators[i], registry);
        if !accepted {
          return false;
        }
      }
    }
    return true;
  }
}
