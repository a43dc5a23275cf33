/**
 From configuration to calls (internal/cli/evaluate_profile.go): what a resolution captured is what a run needs, and
 every adapter is given what the environment answered for its own evaluator.
 */
module EvaluateProfile {
  import opened Wrappers
  import opened Profiles
  import opened CanonicalPolicy
  import opened Surroundings
  import opened LocalConfig
  import opened LocalBinding
  import opened Deciding
  import Lending
  import Runner

  lemma {:induction false} AlongIsNeeding(entries: map<string, Entry>, route: seq<string>, e: Entry)
    requires forall id :: id in route ==> id in entries
    requires e in EntriesAlong(entries, route) && e.credentialSlot.Some?
    ensures e in Needing(entries, route)
  {
    if route != [] && e in EntriesAlong(entries, route[..|route| - 1]) {
      AlongIsNeeding(entries, route[..|route| - 1], e);
    }
  }

  /** What was captured for a key is a value that was supplied for it. */
  lemma SuppliedAt(bindings: map<Key, Reference>, keys: seq<Key>, env: Environment, start: nat, key: Key)
    requires AllSupplied(bindings, keys, env, start) && key in keys
    requires forall a, b :: 0 <= a < b < |keys| ==> keys[a] != keys[b]
    ensures key in Answered(bindings, keys, env, start) && Answered(bindings, keys, env, start)[key] != ""
    ensures exists n: nat :: n < |keys| && IsAnswer(bindings, keys, env, start, n, key)
  {
    hide Answered;
    var n: nat :| n < |keys| && keys[n] == key;
    AnsweredAt(bindings, keys, env, start, n);
    assert Supplied(bindings, keys[n], env.answers(start + n, NameFor(bindings, keys[n])));
    assert IsAnswer(bindings, keys, env, start, n, key);
  }

  /** `key` was looked up as number `n`, and what was captured for it is the answer to that lookup. */
  ghost predicate IsAnswer(bindings: map<Key, Reference>, keys: seq<Key>, env: Environment, start: nat, n: nat, key: Key)
    requires n < |keys|
  {
    && keys[n] == key && key in Answered(bindings, keys, env, start)
    && key in bindings && env.answers(start + n, bindings[key].name) == Some(Answered(bindings, keys, env, start)[key])
  }

  /** A captured resolution holds a credential for every evaluator of the route that has a slot. */
  lemma CapturedIsCredentialed(p: Profile, bindings: map<Key, Reference>, env: Environment, start: nat)
    requires ValidProfile(p) && AllNeed(LocalConfig.Routed(p)) && AllSupplied(bindings, FirstKeys(LocalConfig.Routed(p)), env, start)
    ensures Credentialed(Along(p), Answered(bindings, FirstKeys(LocalConfig.Routed(p)), env, start))
  {
    hide ValidProfile, Needing, FirstKeys, Answered, AllSupplied, EntriesAlong, Entries;
    LocalConfig.Routes(p);
    FirstKeysAreDistinct(LocalConfig.Routed(p));
    forall e | e in Along(p) && e.credentialSlot.Some?
      ensures var held := Answered(bindings, FirstKeys(LocalConfig.Routed(p)), env, start); KeyOf(e) in held && held[KeyOf(e)] != ""
    {
      AlongIsNeeding(Entries(p.evaluators), RouteOf(p.routing), e);
      SuppliedAt(bindings, FirstKeys(LocalConfig.Routed(p)), env, start, KeyOf(e));
    }
  }

  /** The input of a run of the resolved profile with what was captured for it. */
  ghost function Prepared(input: Input, r: Resolved, env: Environment, start: nat): Input {
    input.(profile := r.profile, held := Answered(r.bindings, ListedKeys(r.listed), env, start))
  }

  /** Such a run is not refused for its credentials. */
  lemma PreparedIsCredentialed(o: Options, env: Environment, start: nat, input: Input)
    requires OptionsOk(o) && Resolution(o).Accepted?
    requires AllSupplied(Resolution(o).value.bindings, ListedKeys(Resolution(o).value.listed), env, start)
    ensures var ready := Prepared(input, Resolution(o).value, env, start);
      Credentialed(Along(ready.profile), ready.held)
  {
    hide OptionsOk, Resolution, ValidProfile, LocalConfig.Routed, AllNeed, FirstKeys, Along, Credentialed, Answered;
    ResolvedIsReady(o);
    CapturedIsCredentialed(Resolution(o).value.profile, Resolution(o).value.bindings, env, start);
  }

  /** Every call of a decided run is given the environment's own answer to the lookup made for its evaluator's key. */
  lemma CallsAreGivenTheEnvironment(o: Options, env: Environment, start: nat, input: Input, w: World, hash: string -> Sum, j: nat)
    requires OptionsOk(o) && Resolution(o).Accepted? && Calm(w)
    requires AllSupplied(Resolution(o).value.bindings, ListedKeys(Resolution(o).value.listed), env, start)
    requires var outcome := Deciding.Run(Prepared(input, Resolution(o).value, env, start), w, hash);
      outcome.Decided? && j < |outcome.report.x.trace|
    ensures var r, keys := Resolution(o).value, ListedKeys(Resolution(o).value.listed);
      var y := Deciding.Run(Prepared(input, r, env, start), w, hash).report.x;
      && |y.world.calls| == |y.trace| && y.trace[j].evaluatorID in Entries(r.profile.evaluators)
      && var e := Entries(r.profile.evaluators)[y.trace[j].evaluatorID];
         if e.credentialSlot.None? then y.world.calls[j].given.None?
         else exists n: nat :: n < |keys| && keys[n] == Key(e.adapterID, e.credentialSlot.value) && keys[n] in r.bindings
                               && y.world.calls[j].given == env.answers(start + n, r.bindings[keys[n]].name)
  {
    hide OptionsOk, Resolution, ValidProfile, LocalConfig.Routed, AllNeed, FirstKeys, Answered, Deciding.Run, Entries, AllSupplied;
    var r, ready := Resolution(o).value, Prepared(input, Resolution(o).value, env, start);
    ResolvedIsReady(o);
    FirstKeysAreDistinct(LocalConfig.Routed(r.profile));
    Lending.CallsAreGivenWhatWasHeld(ready, w, hash, j);
    var e := Entries(r.profile.evaluators)[Deciding.Run(ready, w, hash).report.x.trace[j].evaluatorID];
    if e.credentialSlot.Some? {
      OnlyListed(r.bindings, ListedKeys(r.listed), env, start, KeyOf(e));
      SuppliedAt(r.bindings, ListedKeys(r.listed), env, start, KeyOf(e));
      var n: nat :| n < |ListedKeys(r.listed)| && IsAnswer(r.bindings, ListedKeys(r.listed), env, start, n, KeyOf(e));
    }
  }

  lemma OnlyListed(bindings: map<Key, Reference>, keys: seq<Key>, env: Environment, start: nat, key: Key)
    requires key in Answered(bindings, keys, env, start)
    ensures key in keys
  {
    AnsweredKeys(bindings, keys, env, start);
  }

  /**
   Resolution, capture and run in one, with the captured credentials cleared at the end. A run is made exactly when
   every listed variable is supplied, it is a run of the resolved profile with those values, it cannot be refused for
   want of a credential, and no credential buffer survives it; otherwise no adapter is called.
   */
  method EvaluateProfile(o: Options, env: Environment, input: Input, adapters: Runner.Adapters, w: World, hash: string -> Sum)
    returns (r: LocalConfig.Outcome<Resolved>, outcome: Option<RunOutcome>, ghost buffers: set<array<char>>)
    requires OptionsOk(o)
    modifies env, adapters
    ensures r == Resolution(o)
    ensures outcome.Some? <==>
              r.Accepted? && AllSet(r.value.bindings, ListedKeys(r.value.listed), env, |old(env.asked)|)
    ensures outcome.None? ==> adapters.seen == old(adapters.seen)
    ensures outcome.Some? ==>
              var ready := Prepared(input, r.value, env, |old(env.asked)|);
              && outcome.value == Deciding.Run(ready, w, hash)
              && Credentialed(Along(ready.profile), ready.held)
              && env.asked == old(env.asked) + NamesFor(r.value.bindings, ListedKeys(r.value.listed))
    ensures forall b :: b in buffers ==> fresh(b) && Zeroed(b[..])
  {
    hide OptionsOk, Resolution, ValidProfile, LocalConfig.Routed, AllNeed, FirstKeys, Answered, Deciding.Run, AllSupplied, Along, Credentialed,
         MissedWell, NamesFor;
    var captured;
    ghost var dropped;
    r, captured, dropped := ResolveAndCapture(o, env);
    if captured.None? || !captured.value.Captured? {
      return r, None, {};
    }
    var credentials := captured.value.credentials;
    PreparedIsCredentialed(o, env, |old(env.asked)|, input);
    buffers := credentials.Buffers();
    ghost var taken, lent;
    var result;
    result, taken, lent := Runner.Run(input.(profile := r.value.profile, held := credentials.Captures()), credentials, adapters, w, hash);
    credentials.Clear();
    outcome := Some(result);
  }
}
