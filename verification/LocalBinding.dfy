/** Capture and lifetime of local credentials (evaluator/localbinding/preflight.go). */
module LocalBinding {
  import opened Wrappers
  import opened Profiles
  import opened LocalConfig
  import opened LocalConfigTheorems

  /** The environment may answer each lookup as it likes; it remembers what was asked. */
  class Environment {
    const answers: (nat, string) -> Option<string>
    var asked: seq<string>

    constructor (answers: (nat, string) -> Option<string>)
      ensures this.answers == answers && asked == []
    {
      this.answers, asked := answers, [];
    }

    method LookupEnv(name: string) returns (value: Option<string>)
      modifies this
      ensures value == answers(|old(asked)|, name) && asked == old(asked) + [name]
    {
      value := answers(|asked|, name);
      asked := asked + [name];
    }
  }

  predicate Zeroed(bytes: seq<char>) {
    forall i :: 0 <= i < |bytes| ==> bytes[i] == 0 as char
  }

  method Zero(buffer: array<char>)
    modifies buffer
    ensures Zeroed(buffer[..])
  {
    forall i | 0 <= i < buffer.Length {
      buffer[i] := 0 as char;
    }
  }

  method CopyOf(bytes: seq<char>) returns (buffer: array<char>)
    ensures fresh(buffer) && buffer[..] == bytes
  {
    buffer := new char[|bytes|](i requires 0 <= i < |bytes| => bytes[i]);
  }

  class Credentials {
    var values: map<Key, array<char>>
    var closed: bool

    ghost predicate Valid()
      reads this
    {
      closed ==> values == map[]
    }

    ghost function Buffers(): set<array<char>>
      reads this
    {
      set k | k in values :: values[k]
    }

    /** The captured bytes by key. */
    function Captures(): map<Key, string>
      reads this, Buffers()
    {
      map k | k in values :: values[k][..]
    }

    constructor ()
      ensures Valid() && values == map[] && !closed
    {
      values, closed := map[], false;
    }

    /** A copy that shares nothing with the captured bytes; absent for an unknown key and after Clear. */
    method Credential(adapterID: string, slot: string) returns (copy: Option<array<char>>)
      requires Valid()
      ensures copy.Some? <==> !closed && Key(adapterID, slot) in values
      ensures copy.Some? ==> fresh(copy.value) && copy.value[..] == values[Key(adapterID, slot)][..]
    {
      var key := Key(adapterID, slot);
      if closed || key !in values {
        return None;
      }
      var buffer := CopyOf(values[key][..]);
      copy := Some(buffer);
    }

    /** Every captured buffer is overwritten, and nothing can be read from this set again. */
    method Clear()
      requires Valid()
      modifies this, Buffers()
      ensures Valid() && closed && values == map[]
      ensures forall b :: b in old(Buffers()) ==> Zeroed(b[..])
    {
      if closed {
        return;
      }
      while values != map[]
        invariant values.Keys <= old(values.Keys) && forall k :: k in values ==> values[k] == old(values)[k]
        invariant forall k :: k in old(values) && k !in values ==> Zeroed(old(values)[k][..])
        decreases |values|
      {
        var key :| key in values;
        Zero(values[key]);
        values := values - {key};
      }
      closed := true;
    }
  }

  // Preflight

  function NameFor(bindings: map<Key, Reference>, key: Key): string {
    if key in bindings then bindings[key].name else ""
  }

  function NamesFor(bindings: map<Key, Reference>, keys: seq<Key>): (names: seq<string>)
    ensures |names| == |keys|
  {
    seq(|keys|, i requires 0 <= i < |keys| => NameFor(bindings, keys[i]))
  }

  /** The routed keys, each where it is first needed. */
  function FirstKeys(entries: seq<Entry>): (keys: seq<Key>)
    requires AllNeed(entries)
  {
    if entries == [] then []
    else
      var before, key := FirstKeys(entries[..|entries| - 1]), KeyOf(entries[|entries| - 1]);
      if key in before then before else before + [key]
  }

  /** What a lookup for the key must give: a bound name, set to something non-empty. */
  predicate Supplied(bindings: map<Key, Reference>, key: Key, answer: Option<string>) {
    key in bindings && answer.Some? && answer.value != ""
  }

  datatype Capture = Captured(credentials: Credentials) | InvalidProfile | InvalidBindings | Missing(evaluatorID: string, key: Key)

  ghost predicate AllSupplied(bindings: map<Key, Reference>, keys: seq<Key>, env: Environment, start: nat) {
    forall i :: 0 <= i < |keys| ==> Supplied(bindings, keys[i], env.answers(start + i, NameFor(bindings, keys[i])))
  }

  /** The answers to the lookups made for `keys`, one after another from the lookup numbered `start`. */
  ghost function Answered(bindings: map<Key, Reference>, keys: seq<Key>, env: Environment, start: nat): map<Key, string> {
    if keys == [] then map[]
    else
      var last, n := keys[|keys| - 1], |keys| - 1;
      Answered(bindings, keys[..n], env, start)[last := env.answers(start + n, NameFor(bindings, last)).GetOr("")]
  }

  ghost predicate Holds(c: Credentials, bindings: map<Key, Reference>, keys: seq<Key>, env: Environment, start: nat)
    reads c, c.Buffers()
  {
    && c.Valid() && !c.closed && c.Captures() == Answered(bindings, keys, env, start)
    && AllSupplied(bindings, keys, env, start)
  }

  /** The first key without a supply is number `n`. */
  ghost predicate FirstUnsupplied(bindings: map<Key, Reference>, keys: seq<Key>, env: Environment, start: nat, n: nat) {
    && n < |keys| && AllSupplied(bindings, keys[..n], env, start)
    && !Supplied(bindings, keys[n], env.answers(start + n, NameFor(bindings, keys[n])))
  }

  /** The lookups made when key number `n` is the last one considered: none for it if it has no binding. */
  function AskedUpTo(bindings: map<Key, Reference>, keys: seq<Key>, n: nat): seq<string>
    requires n < |keys|
  {
    NamesFor(bindings, keys[..n]) + if keys[n] in bindings then [NameFor(bindings, keys[n])] else []
  }

  /** What a missing credential reports: the first unsupplied key, and an evaluator of the route that needs it. */
  ghost predicate MissesAt(r: Capture, entries: seq<Entry>, bindings: map<Key, Reference>, env: Environment, start: nat, n: nat)
    requires AllNeed(entries)
  {
    && r.Missing? && FirstUnsupplied(bindings, FirstKeys(entries), env, start, n) && r.key == FirstKeys(entries)[n]
    && exists e :: e in entries && e.id == r.evaluatorID && KeyOf(e) == r.key
  }

  /** What had been captured for the keys before number `n`, overwritten. */
  ghost predicate Dropped(dropped: map<Key, array<char>>, keys: seq<Key>, n: nat)
    requires n <= |keys|
    reads dropped.Values
  {
    dropped.Keys == (set k | k in keys[..n]) && forall k :: k in dropped ==> Zeroed(dropped[k][..])
  }

  /** How a missing credential leaves the environment and the buffers. */
  ghost predicate MissedWell(r: Capture, entries: seq<Entry>, bindings: map<Key, Reference>, env: Environment,
                             before: seq<string>, dropped: map<Key, array<char>>)
    requires AllNeed(entries)
    reads env, dropped.Values
  {
    exists n :: MissesAt(r, entries, bindings, env, |before|, n)
                && env.asked == before + AskedUpTo(bindings, FirstKeys(entries), n)
                && Dropped(dropped, FirstKeys(entries), n)
  }

  /**
   One lookup for each distinct routed key, in route order, stopping at the first that is not supplied; what had been
   captured by then is overwritten (`dropped`).
   */
  method Preflight(p: Profile, bindings: map<Key, Reference>, env: Environment)
    returns (r: Capture, ghost dropped: map<Key, array<char>>)
    modifies env
    ensures r.InvalidProfile? <==> !ValidProfile(p)
    ensures r.InvalidBindings? <==> ValidProfile(p) && !BindingsOk(bindings)
    ensures r.Captured? || r.Missing? ==> ValidProfile(p) && AllNeed(Routed(p))
    ensures r.Captured? ==>
              && fresh(r.credentials) && fresh(r.credentials.Buffers())
              && Holds(r.credentials, bindings, FirstKeys(Routed(p)), env, |old(env.asked)|)
              && env.asked == old(env.asked) + NamesFor(bindings, FirstKeys(Routed(p)))
    ensures r.Missing? ==> MissedWell(r, Routed(p), bindings, env, old(env.asked), dropped)
    ensures !r.Captured? && !r.Missing? ==> env.asked == old(env.asked)
  {
    hide ValidProfile, BindingsOk, Needing, Entries, FirstKeys;
    if !ValidProfile(p) {
      return InvalidProfile, map[];
    }
    if !BindingsOk(bindings) {
      return InvalidBindings, map[];
    }
    var evaluators: map<string, Entry> := map[];
    EntriesOfNone(p.evaluators);
    for i := 0 to |p.evaluators|
      invariant evaluators == Entries(p.evaluators[..i])
      invariant env.asked == old(env.asked)
    {
      EntriesPrefix(p.evaluators, i);
      evaluators := evaluators[p.evaluators[i].id := p.evaluators[i]];
    }
    assert p.evaluators[..|p.evaluators|] == p.evaluators;
    var route := [p.routing.primary];
    if p.routing.escalation.Some? {
      route := route + [p.routing.escalation.value];
    }
    route := route + Fallbacks(p.routing);
    assert route == RouteOf(p.routing);
    Routes(p);
    r, dropped := CaptureRoute(route, evaluators, bindings, env);
  }

  /** The body of the loop for a key not met before. */
  method CaptureKey(credentials: Credentials, key: Key, bindings: map<Key, Reference>, env: Environment)
    returns (supplied: bool)
    requires credentials.Valid() && !credentials.closed && key !in credentials.values
    modifies credentials, env
    ensures credentials.Valid() && !credentials.closed
    ensures supplied <==> Supplied(bindings, key, env.answers(|old(env.asked)|, NameFor(bindings, key)))
    ensures supplied ==>
              && credentials.Captures() ==
                 old(credentials.Captures())[key := env.answers(|old(env.asked)|, NameFor(bindings, key)).value]
              && env.asked == old(env.asked) + [NameFor(bindings, key)]
              && fresh(credentials.Buffers() - old(credentials.Buffers()))
    ensures !supplied ==>
              && credentials.values == old(credentials.values)
              && env.asked == old(env.asked) + if key in bindings then [NameFor(bindings, key)] else []
  {
    if key !in bindings {
      return false;
    }
    var value := env.LookupEnv(bindings[key].name);
    if value.None? || value.value == "" {
      return false;
    }
    var buffer := CopyOf(value.value);
    credentials.values := credentials.values[key := buffer];
    return true;
  }

  lemma {:induction false} AnsweredKeys(bindings: map<Key, Reference>, keys: seq<Key>, env: Environment, start: nat)
    ensures forall k :: k in Answered(bindings, keys, env, start) <==> k in keys
  {
    if keys != [] {
      AnsweredKeys(bindings, keys[..|keys| - 1], env, start);
      assert keys == keys[..|keys| - 1] + [keys[|keys| - 1]];
    }
  }

  /** One more key: its answer joins the map, its name the list, and a failure decides for all longer lists. */
  lemma OneMoreKey(bindings: map<Key, Reference>, done: seq<Key>, key: Key, keys: seq<Key>, env: Environment, start: nat)
    requires done + [key] <= keys && AllSupplied(bindings, done, env, start)
    ensures var answer := env.answers(start + |done|, NameFor(bindings, key));
      && (Supplied(bindings, key, answer) ==>
          && AllSupplied(bindings, done + [key], env, start)
          && Answered(bindings, done + [key], env, start) == Answered(bindings, done, env, start)[key := answer.value])
      && (!Supplied(bindings, key, answer) ==> FirstUnsupplied(bindings, keys, env, start, |done|))
  {
    assert (done + [key])[..|done|] == done;
    assert keys[|done|] == key && keys[..|done|] == done;
    hide Answered, NameFor;
  }

  lemma OneMoreName(bindings: map<Key, Reference>, done: seq<Key>, key: Key, keys: seq<Key>)
    requires done + [key] <= keys
    ensures NamesFor(bindings, done) + [NameFor(bindings, key)] == NamesFor(bindings, done + [key])
    ensures NamesFor(bindings, done + [key]) <= NamesFor(bindings, keys)
  {
    hide NameFor;
  }

  method CaptureRoute(route: seq<string>, evaluators: map<string, Entry>, bindings: map<Key, Reference>, env: Environment)
    returns (r: Capture, ghost dropped: map<Key, array<char>>)
    requires forall id :: id in route ==> id in evaluators
    modifies env
    ensures r.Captured? || r.Missing?
    ensures AllNeed(Needing(evaluators, route))
    ensures var keys := FirstKeys(Needing(evaluators, route));
      r.Captured? ==>
        && fresh(r.credentials) && fresh(r.credentials.Buffers())
        && Holds(r.credentials, bindings, keys, env, |old(env.asked)|)
        && env.asked == old(env.asked) + NamesFor(bindings, keys)
    ensures r.Missing? ==> MissedWell(r, Needing(evaluators, route), bindings, env, old(env.asked), dropped)
  {
    hide Needing, FirstKeys, AllSupplied, Supplied, Answered, NameFor, NamesFor, KeysUpTo, FirstUnsupplied, MissedWell;
    dropped := map[];
    ghost var start, entries, keys := |env.asked|, Needing(evaluators, route), FirstKeys(Needing(evaluators, route));
    var credentials := new Credentials();
    ghost var done: seq<Key> := [];
    FirstRouted(evaluators, route, bindings, env, start);
    for i := 0 to |route|
      invariant fresh(credentials) && fresh(credentials.Buffers())
      invariant done == KeysUpTo(evaluators, route, i) && Holds(credentials, bindings, done, env, start)
      invariant env.asked == old(env.asked) + NamesFor(bindings, done)
    {
      KeyStep(evaluators, route, i);
      var e := evaluators[route[i]];
      if e.credentialSlot.None? {
        continue;
      }
      var key := KeyOf(e);
      AnsweredKeys(bindings, done, env, start);
      if key in credentials.values {
        assert key in credentials.Captures();
        continue;
      }
      OneMoreKey(bindings, done, key, keys, env, start);
      OneMoreName(bindings, done, key, keys);
      ghost var asked := env.asked;
      var supplied := CaptureKey(credentials, key, bindings, env);
      if !supplied {
        r := Missing(e.id, key);
        dropped := credentials.values;
        SameCaptures(credentials, Answered(bindings, done, env, start));
        credentials.Clear();
        MissedHere(r, e, entries, bindings, env, old(env.asked), dropped, done);
        return;
      }
      done := done + [key];
    }
    r := Captured(credentials);
  }

  lemma SameCaptures(credentials: Credentials, captures: map<Key, string>)
    requires credentials.Captures() == captures
    ensures credentials.values.Keys == captures.Keys
  {
    assert credentials.values.Keys == credentials.Captures().Keys;
  }

  lemma MissedHere(r: Capture, e: Entry, entries: seq<Entry>, bindings: map<Key, Reference>, env: Environment,
                   before: seq<string>, dropped: map<Key, array<char>>, done: seq<Key>)
    requires AllNeed(entries) && e in entries && e.credentialSlot.Some? && r == Missing(e.id, KeyOf(e))
    requires done + [KeyOf(e)] <= FirstKeys(entries)
    requires FirstUnsupplied(bindings, FirstKeys(entries), env, |before|, |done|)
    requires env.asked == before + NamesFor(bindings, done) + if KeyOf(e) in bindings then [NameFor(bindings, KeyOf(e))] else []
    requires dropped.Keys == (set k | k in done) && forall k :: k in dropped ==> Zeroed(dropped[k][..])
    ensures MissedWell(r, entries, bindings, env, before, dropped)
  {
    hide FirstKeys, FirstUnsupplied, NameFor, NamesFor, Zeroed;
    var keys, n := FirstKeys(entries), |done|;
    assert keys[..n] == done && keys[n] == KeyOf(e);
    assert MissesAt(r, entries, bindings, env, |before|, n);
    assert env.asked == before + AskedUpTo(bindings, keys, n);
  }

  lemma FirstRouted(evaluators: map<string, Entry>, route: seq<string>, bindings: map<Key, Reference>, env: Environment, start: nat)
    requires forall id :: id in route ==> id in evaluators
    ensures KeysUpTo(evaluators, route, 0) == [] && Answered(bindings, [], env, start) == map[]
    ensures AllSupplied(bindings, [], env, start) && NamesFor(bindings, []) == []
    ensures KeysUpTo(evaluators, route, |route|) == FirstKeys(Needing(evaluators, route))
  {
    assert route[..0] == [] && route[..|route|] == route;
  }

  ghost function KeysUpTo(evaluators: map<string, Entry>, route: seq<string>, i: nat): seq<Key>
    requires i <= |route| && forall id :: id in route ==> id in evaluators
  {
    FirstKeys(Needing(evaluators, route[..i]))
  }

  lemma {:induction false} FirstKeysGrow(entries: seq<Entry>, k: nat)
    requires AllNeed(entries) && k <= |entries| && AllNeed(entries[..k])
    ensures FirstKeys(entries[..k]) <= FirstKeys(entries)
  {
    if k < |entries| {
      FirstKeysGrow(entries[..|entries| - 1], k);
      assert entries[..|entries| - 1][..k] == entries[..k];
    } else {
      assert entries[..k] == entries;
    }
  }

  lemma KeyStep(evaluators: map<string, Entry>, route: seq<string>, i: nat)
    requires i < |route| && forall id :: id in route ==> id in evaluators
    ensures var e, done := evaluators[route[i]], KeysUpTo(evaluators, route, i);
      KeysUpTo(evaluators, route, i + 1) ==
      if e.credentialSlot.None? || KeyOf(e) in done then done else done + [KeyOf(e)]
    ensures KeysUpTo(evaluators, route, i + 1) <= FirstKeys(Needing(evaluators, route))
    ensures AllNeed(Needing(evaluators, route))
    ensures evaluators[route[i]].credentialSlot.Some? ==> evaluators[route[i]] in Needing(evaluators, route)
  {
    NeedingStep(evaluators, route, i);
    NeedingPrefix(evaluators, route, i + 1);
    var e, before, all := evaluators[route[i]], Needing(evaluators, route[..i]), Needing(evaluators, route);
    var after := Needing(evaluators, route[..i + 1]);
    hide Needing;
    assert all[..|after|] == after;
    FirstKeysGrow(all, |after|);
    if e.credentialSlot.Some? {
      assert after == before + [e];
      assert after[..|after| - 1] == before;
    } else {
      assert after == before;
    }
  }

  // Each distinct routed key once

  lemma {:induction false} FirstKeysAreDistinct(entries: seq<Entry>)
    requires AllNeed(entries)
    ensures forall i, j :: 0 <= i < j < |FirstKeys(entries)| ==> FirstKeys(entries)[i] != FirstKeys(entries)[j]
    ensures forall e :: e in entries ==> KeyOf(e) in FirstKeys(entries)
    ensures forall k :: k in FirstKeys(entries) ==> Needed(entries, k)
  {
    if entries != [] {
      var init, last := entries[..|entries| - 1], entries[|entries| - 1];
      assert entries == init + [last];
      FirstKeysAreDistinct(init);
      forall k | k in FirstKeys(entries) ensures Needed(entries, k) {
        NeededOneMore(init, last, k);
      }
    }
  }

  /** What was captured for a key is the answer to that key's own lookup. */
  lemma {:induction false} AnsweredAt(bindings: map<Key, Reference>, keys: seq<Key>, env: Environment, start: nat, i: nat)
    requires i < |keys| && forall a, b :: 0 <= a < b < |keys| ==> keys[a] != keys[b]
    ensures keys[i] in Answered(bindings, keys, env, start)
    ensures Answered(bindings, keys, env, start)[keys[i]] == env.answers(start + i, NameFor(bindings, keys[i])).GetOr("")
  {
    if i < |keys| - 1 {
      AnsweredAt(bindings, keys[..|keys| - 1], env, start, i);
    }
  }

  function ListedKeys(listed: seq<Listing>): (keys: seq<Key>)
    ensures |keys| == |listed|
  {
    seq(|listed|, i requires 0 <= i < |listed| => listed[i].key)
  }

  lemma {:induction false} WalkListsFirstKeys(o: Options, entries: seq<Entry>, source: Source)
    requires AllNeed(entries) && Walk(o, entries, Start(source)).Accepted?
    ensures var st := Walk(o, entries, Start(source)).value;
      ListedKeys(st.listed) == FirstKeys(entries) && forall k :: k in st.bindings <==> k in FirstKeys(entries)
  {
    if entries != [] {
      WalkListsFirstKeys(o, entries[..|entries| - 1], source);
      hide Chosen;
    }
  }

  /** Resolved.Preflight: nothing to look up, or the preflight of the selected profile and bindings. */
  method PreflightResolved(r: Resolved, env: Environment) returns (c: Capture, ghost dropped: map<Key, array<char>>)
    modifies env
    ensures r.listed == [] ==> c.Captured? && c.credentials.values == map[] && env.asked == old(env.asked)
    ensures c.Captured? ==> fresh(c.credentials) && fresh(c.credentials.Buffers()) && c.credentials.Valid()
    ensures r.listed != [] ==> (c.InvalidProfile? <==> !ValidProfile(r.profile))
    ensures r.listed != [] ==> (c.InvalidBindings? <==> ValidProfile(r.profile) && !BindingsOk(r.bindings))
    ensures r.listed != [] && (c.Captured? || c.Missing?) ==> ValidProfile(r.profile) && AllNeed(Routed(r.profile))
    ensures r.listed != [] && c.Captured? ==>
              && Holds(c.credentials, r.bindings, FirstKeys(Routed(r.profile)), env, |old(env.asked)|)
              && env.asked == old(env.asked) + NamesFor(r.bindings, FirstKeys(Routed(r.profile)))
    ensures r.listed != [] && c.Missing? ==> MissedWell(c, Routed(r.profile), r.bindings, env, old(env.asked), dropped)
    ensures !c.Captured? && !c.Missing? ==> env.asked == old(env.asked)
  {
    hide ValidProfile, BindingsOk, AllSupplied, Answered;
    if r.listed == [] {
      var none := new Credentials();
      return Captured(none), map[];
    }
    c, dropped := Preflight(r.profile, r.bindings, env);
  }

  /** After a successful resolution the listed keys are the routed ones, and only the environment can fail the capture. */
  lemma ResolvedIsReady(o: Options)
    requires OptionsOk(o) && Resolution(o).Accepted?
    ensures var r := Resolution(o).value;
      && ValidProfile(r.profile) && AllNeed(Routed(r.profile))
      && ListedKeys(r.listed) == FirstKeys(Routed(r.profile))
      && (r.listed != [] ==> BindingsOk(r.bindings))
      && forall k :: k in ListedKeys(r.listed) ==> k in r.bindings
  {
    hide ValidProfile, BindingsOk, Routed, AllNeed, Walk, SelectedProfile, OptionsOk;
    SelectedIsValid(o);
    var (p, source) := SelectedProfile(o).value;
    RoutedKeysAreOk(p);
    WalkListsFirstKeys(o, Routed(p), source);
  }

  /** Every one of these keys is bound to a variable that its lookup finds set to something. */
  ghost predicate AllSet(bindings: map<Key, Reference>, keys: seq<Key>, env: Environment, start: nat) {
    forall i :: 0 <= i < |keys| ==>
      && keys[i] in bindings
      && env.answers(start + i, bindings[keys[i]].name).Some? && env.answers(start + i, bindings[keys[i]].name).value != ""
  }

  /** The variables bound to these keys were asked for, one after another, and what they were set to is what was captured. */
  ghost predicate LookedUp(captures: map<Key, string>, asked: seq<string>, bindings: map<Key, Reference>, keys: seq<Key>,
                           env: Environment, start: nat) {
    && |asked| == start + |keys| && captures.Keys == (set k | k in keys)
    && forall i :: 0 <= i < |keys| ==>
         && keys[i] in bindings && asked[start + i] == bindings[keys[i]].name
         && env.answers(start + i, bindings[keys[i]].name) == Some(captures[keys[i]])
  }

  lemma SuppliedIsSet(bindings: map<Key, Reference>, keys: seq<Key>, env: Environment, start: nat)
    ensures AllSupplied(bindings, keys, env, start) <==> AllSet(bindings, keys, env, start)
    ensures forall i :: 0 <= i < |keys| && keys[i] in bindings ==> NamesFor(bindings, keys)[i] == bindings[keys[i]].name
  {
  }

  lemma LookedUpAt(bindings: map<Key, Reference>, keys: seq<Key>, env: Environment, start: nat, i: nat)
    requires AllSupplied(bindings, keys, env, start) && i < |keys|
    requires forall a, b :: 0 <= a < b < |keys| ==> keys[a] != keys[b]
    ensures keys[i] in bindings && keys[i] in Answered(bindings, keys, env, start)
    ensures env.answers(start + i, bindings[keys[i]].name) == Some(Answered(bindings, keys, env, start)[keys[i]])
    ensures NamesFor(bindings, keys)[i] == bindings[keys[i]].name
  {
    hide Answered;
    AnsweredAt(bindings, keys, env, start, i);
    assert Supplied(bindings, keys[i], env.answers(start + i, NameFor(bindings, keys[i])));
  }

  lemma HoldsIsLookedUp(bindings: map<Key, Reference>, keys: seq<Key>, env: Environment, before: seq<string>)
    requires AllSupplied(bindings, keys, env, |before|)
    requires forall a, b :: 0 <= a < b < |keys| ==> keys[a] != keys[b]
    ensures LookedUp(Answered(bindings, keys, env, |before|), before + NamesFor(bindings, keys), bindings, keys, env, |before|)
  {
    hide Answered, NamesFor, AllSupplied;
    AnsweredKeys(bindings, keys, env, |before|);
    forall i | 0 <= i < |keys|
      ensures keys[i] in bindings && keys[i] in Answered(bindings, keys, env, |before|)
      ensures NamesFor(bindings, keys)[i] == bindings[keys[i]].name
      ensures env.answers(|before| + i, bindings[keys[i]].name) == Some(Answered(bindings, keys, env, |before|)[keys[i]])
    {
      LookedUpAt(bindings, keys, env, |before|, i);
    }
  }

  /**
   Resolution composed with capture: each listed key is looked up once, in the order listed, and nothing else is; the
   capture fails exactly when one of those variables is unset or empty, and otherwise holds each key's own answer.
   */
  method ResolveAndCapture(o: Options, env: Environment) returns (r: Outcome<Resolved>, c: Option<Capture>, ghost dropped: map<Key, array<char>>)
    requires OptionsOk(o)
    modifies env
    ensures r == Resolution(o) && (c.Some? <==> r.Accepted?)
    ensures r.Refused? ==> env.asked == old(env.asked)
    ensures r.Accepted? ==> c.value.Captured? || c.value.Missing?
    ensures r.Accepted? && c.value.Captured? ==>
              && fresh(c.value.credentials) && fresh(c.value.credentials.Buffers()) && c.value.credentials.Valid()
    ensures r.Accepted? ==> ValidProfile(r.value.profile) && AllNeed(Routed(r.value.profile))
    ensures r.Accepted? ==>
              var keys, start := ListedKeys(r.value.listed), |old(env.asked)|;
              && (c.value.Captured? <==> AllSupplied(r.value.bindings, keys, env, start))
              && (c.value.Captured? <==> AllSet(r.value.bindings, keys, env, start))
              && (c.value.Captured? ==>
                  && LookedUp(c.value.credentials.Captures(), env.asked, r.value.bindings, keys, env, start)
                  && c.value.credentials.Captures() == Answered(r.value.bindings, keys, env, start)
                  && env.asked == old(env.asked) + NamesFor(r.value.bindings, keys))
    ensures r.Accepted? && c.value.Missing? ==>
              MissedWell(c.value, Routed(r.value.profile), r.value.bindings, env, old(env.asked), dropped)
  {
    hide ValidProfile, BindingsOk, Routed, AllNeed, OptionsOk, Resolution, FirstKeys, AllSet, LookedUp;
    r := Resolve(o);
    if r.Refused? {
      return r, None, map[];
    }
    ResolvedIsReady(o);
    var captured: Capture;
    captured, dropped := PreflightResolved(r.value, env);
    c := Some(captured);
    ghost var keys := ListedKeys(r.value.listed);
    assert r.value.listed == [] ==> keys == [];
    SuppliedIsSet(r.value.bindings, keys, env, |old(env.asked)|);
    if captured.Captured? {
      FirstKeysAreDistinct(Routed(r.value.profile));
      HoldsIsLookedUp(r.value.bindings, keys, env, old(env.asked));
      assert captured.credentials.Captures() == Answered(r.value.bindings, keys, env, |old(env.asked)|);
      assert env.asked == old(env.asked) + NamesFor(r.value.bindings, keys);
    }
  }
}
