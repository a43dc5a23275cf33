/** Resolution of local evaluator configuration (evaluator/localconfig/config.go). */
module LocalConfig {
  import opened Wrappers
  import opened Text
  import opened Profiles

  datatype Reference = Reference(source: string, name: string)

  datatype Source = Cli | Project | User | Builtin | AdapterDefault

  /** A snapshot made by NewLayer; the absent level is EMPTY_LAYER. */
  datatype Layer = Layer(profile: Option<Profile>, bindings: map<Key, Reference>, digest: string)

  const EMPTY_LAYER := Layer(None, map[], "")

  datatype Level = Level(source: Source, layer: Layer)

  /** `fold` is strings.ToUpper. */
  datatype Options = Options(cli: Layer, project: Layer, user: Layer, trusted: string, builtin: Option<Profile>,
                             defaults: map<Component, map<string, Reference>>, fold: string -> string)

  datatype Choice = Choice(reference: Reference, source: Source)

  datatype Listing = Listing(key: Key, source: Source)

  datatype Refusal =
    | NoProfile
    | InvalidBuiltin
    | BuiltinNotFixtures
    | MissingCredential(evaluatorID: string, key: Key)
    | AmbiguousNames
    | ConflictingDefaults
    | TrustRequired(digest: string)
    | InvalidReferences

  datatype Outcome<+T> = Accepted(value: T) | Refused(refusal: Refusal)

  datatype Resolved = Resolved(profile: Profile, profileSource: Source, bindings: map<Key, Reference>,
                               listed: seq<Listing>, projectDigest: string)

  // Effective references (localbinding.Artifact.Validate)

  predicate IsVariableName(name: string) {
    && 1 <= |name| <= 128 && !IsDigit(name[0])
    && forall i :: 0 <= i < |name| ==> IsAlnum(name[i]) || 'A' <= name[i] <= 'Z' || name[i] == '_'
  }

  predicate ReferenceOk(r: Reference) {
    r.source == "environment" && IsVariableName(r.name)
  }

  predicate KeyOk(key: Key) {
    IsNamespaced(key.adapterID) && key.adapterID != FIXTURE_ADAPTER && IsIdentifier(key.slot, 63)
  }

  function AdaptersOf(bindings: map<Key, Reference>): set<string> {
    set k | k in bindings :: k.adapterID
  }

  function SlotsOf(bindings: map<Key, Reference>, adapterID: string): set<string> {
    set k | k in bindings && k.adapterID == adapterID :: k.slot
  }

  predicate BindingsOk(bindings: map<Key, Reference>) {
    && 1 <= |AdaptersOf(bindings)| <= 16
    && (forall a :: a in AdaptersOf(bindings) ==> |SlotsOf(bindings, a)| <= 16)
    && forall k :: k in bindings ==> KeyOk(k) && ReferenceOk(bindings[k])
  }

  predicate LayerOk(l: Layer) {
    && (l.profile.Some? ==> ValidProfile(l.profile.value))
    && (forall k :: k in l.bindings ==> KeyOk(k) && ReferenceOk(l.bindings[k]))
    && (l.digest == "" <==> l.profile.None? && l.bindings == map[])
  }

  predicate OptionsOk(o: Options) {
    LayerOk(o.cli) && LayerOk(o.project) && LayerOk(o.user)
  }

  // Selection

  function Levels(o: Options): (levels: seq<Level>)
    ensures |levels| == 3
  {
    [Level(Cli, o.cli), Level(Project, o.project), Level(User, o.user)]
  }

  /** The whole profile of the first level that has one, or else the built-in. */
  function SelectedProfile(o: Options): Outcome<(Profile, Source)> {
    if o.cli.profile.Some? then Accepted((o.cli.profile.value, Cli))
    else if o.project.profile.Some? then Accepted((o.project.profile.value, Project))
    else if o.user.profile.Some? then Accepted((o.user.profile.value, User))
    else if o.builtin.None? then Refused(NoProfile)
    else if !ValidProfile(o.builtin.value) then Refused(InvalidBuiltin)
    else if exists e :: e in o.builtin.value.evaluators && !e.mode.DeterministicFixture? then Refused(BuiltinNotFixtures)
    else Accepted((o.builtin.value, Builtin))
  }

  predicate IsFirst(levels: seq<Level>, i: nat, k: nat, key: Key) {
    i <= k < |levels| && key in levels[k].layer.bindings && forall j :: i <= j < k ==> key !in levels[j].layer.bindings
  }

  function FirstDefining(levels: seq<Level>, i: nat, key: Key): (r: Option<Choice>)
    requires i <= |levels|
    ensures r.None? <==> forall k :: i <= k < |levels| ==> key !in levels[k].layer.bindings
    ensures r.Some? ==> exists k: nat :: IsFirst(levels, i, k, key) &&
                                    r.value == Choice(levels[k].layer.bindings[key], levels[k].source)
    decreases |levels| - i
  {
    if i == |levels| then None
    else if key in levels[i].layer.bindings then
      assert IsFirst(levels, i, i, key);
      Some(Choice(levels[i].layer.bindings[key], levels[i].source))
    else
      var r := FirstDefining(levels, i + 1, key);
      assert forall k: nat :: IsFirst(levels, i + 1, k, key) ==> IsFirst(levels, i, k, key);
      r
  }

  /** The reference for a routed evaluator: the first level that defines its key, or else its adapter version's default. */
  function Chosen(o: Options, e: Entry): Option<Choice>
    requires e.credentialSlot.Some?
  {
    var first := FirstDefining(Levels(o), 0, KeyOf(e));
    if first.Some? then first else Default(o, e)
  }

  function Default(o: Options, e: Entry): Option<Choice>
    requires e.credentialSlot.Some?
  {
    var component := AdapterOf(e);
    if component in o.defaults && e.credentialSlot.value in o.defaults[component]
    then Some(Choice(o.defaults[component][e.credentialSlot.value], AdapterDefault))
    else None
  }

  /** What the adapter of exactly this identity gives as its own references, by slot. */
  function DefaultsOf(o: Options, e: Entry): map<string, Reference> {
    var adapter := Component(e.adapterID, e.adapterVersion);
    if adapter in o.defaults then o.defaults[adapter] else map[]
  }

  lemma LevelsDecide(o: Options, e: Entry)
    requires e.credentialSlot.Some?
    ensures var key := Key(e.adapterID, e.credentialSlot.value);
      Chosen(o, e) ==
      if key in o.cli.bindings then Some(Choice(o.cli.bindings[key], Cli))
      else if key in o.project.bindings then Some(Choice(o.project.bindings[key], Project))
      else if key in o.user.bindings then Some(Choice(o.user.bindings[key], User))
      else if e.credentialSlot.value in DefaultsOf(o, e) then
        Some(Choice(DefaultsOf(o, e)[e.credentialSlot.value], AdapterDefault))
      else None
  {
    hide IsFirst;
    var levels, key := Levels(o), KeyOf(e);
    assert FirstDefining(levels, 3, key).None?;
    assert FirstDefining(levels, 2, key) ==
           if key in o.user.bindings then Some(Choice(o.user.bindings[key], User)) else None;
    assert FirstDefining(levels, 1, key) ==
           if key in o.project.bindings then Some(Choice(o.project.bindings[key], Project)) else FirstDefining(levels, 2, key);
  }

  predicate AllNeed(entries: seq<Entry>) {
    forall e :: e in entries ==> e.credentialSlot.Some?
  }

  /** The routed evaluators that need a credential, in route order. */
  function Needing(entries: map<string, Entry>, route: seq<string>): (r: seq<Entry>)
    requires forall id :: id in route ==> id in entries
    ensures forall e :: e in r <==> exists id :: id in route && entries[id] == e && e.credentialSlot.Some?
  {
    if route == [] then []
    else
      var last := route[|route| - 1];
      assert route == route[..|route| - 1] + [last];
      Needing(entries, route[..|route| - 1]) + if entries[last].credentialSlot.Some? then [entries[last]] else []
  }

  function Routed(p: Profile): seq<Entry>
    requires ValidProfile(p)
  {
    Routes(p);
    Needing(Entries(p.evaluators), RouteOf(p.routing))
  }

  lemma Routes(p: Profile)
    requires ValidProfile(p)
    ensures forall id :: id in RouteOf(p.routing) ==> id in Entries(p.evaluators)
  {
    hide EntryOk;
  }

  // The loop

  datatype State = State(bindings: map<Key, Reference>, names: map<string, string>, listed: seq<Listing>, projectUsed: bool)

  function Step(o: Options, e: Entry, st: State): Outcome<State>
    requires e.credentialSlot.Some?
  {
    var key := KeyOf(e);
    var chosen := Chosen(o, e);
    if chosen.None? then Refused(MissingCredential(e.id, key))
    else
      var name := chosen.value.reference.name;
      var folded := o.fold(name);
      if folded in st.names && st.names[folded] != name then Refused(AmbiguousNames)
      else
        var next := st.(names := st.names[folded := name],
                        projectUsed := st.projectUsed || chosen.value.source.Project?);
        if key !in st.bindings then
          Accepted(next.(bindings := st.bindings[key := chosen.value.reference],
                         listed := st.listed + [Listing(key, chosen.value.source)]))
        else if st.bindings[key] != chosen.value.reference then Refused(ConflictingDefaults)
        else Accepted(next)
  }

  function Walk(o: Options, entries: seq<Entry>, st: State): Outcome<State>
    requires AllNeed(entries)
  {
    if entries == [] then Accepted(st)
    else
      var before := Walk(o, entries[..|entries| - 1], st);
      if before.Refused? then before else Step(o, entries[|entries| - 1], before.value)
  }

  predicate Approved(o: Options) {
    o.trusted != "" && o.trusted == o.project.digest
  }

  function Finish(o: Options, selected: (Profile, Source), st: State): Outcome<Resolved> {
    if st.projectUsed && st.listed != [] && !Approved(o) then Refused(TrustRequired(o.project.digest))
    else if st.listed != [] && !BindingsOk(st.bindings) then Refused(InvalidReferences)
    else Accepted(Resolved(selected.0, selected.1, st.bindings, st.listed, if st.projectUsed then o.project.digest else ""))
  }

  function Start(source: Source): State {
    State(map[], map[], [], source.Project?)
  }

  function Resolution(o: Options): Outcome<Resolved>
    requires OptionsOk(o)
  {
    hide ValidProfile, OptionsOk, Walk;
    var selected := SelectedProfile(o);
    if selected.Refused? then Refused(selected.refusal)
    else
      SelectedIsValid(o);
      var (p, source) := selected.value;
      var walked := Walk(o, Routed(p), Start(source));
      if walked.Refused? then Refused(walked.refusal) else Finish(o, selected.value, walked.value)
  }

  function Walked(o: Options, evaluators: map<string, Entry>, route: seq<string>, source: Source): Outcome<State>
    requires forall id :: id in route ==> id in evaluators
  {
    Walk(o, Needing(evaluators, route), Start(source))
  }

  lemma {:induction false} RefusalStays(o: Options, entries: seq<Entry>, k: nat, st: State)
    requires k <= |entries| && AllNeed(entries)
    requires Walk(o, entries[..k], st).Refused?
    ensures Walk(o, entries, st) == Walk(o, entries[..k], st)
  {
    if k == |entries| {
      assert entries[..k] == entries;
    } else {
      var init := entries[..|entries| - 1];
      assert init[..k] == entries[..k];
      RefusalStays(o, init, k, st);
    }
  }

  lemma {:induction false} NeedingPrefix(evaluators: map<string, Entry>, route: seq<string>, k: nat)
    requires k <= |route| && forall id :: id in route ==> id in evaluators
    ensures Needing(evaluators, route[..k]) <= Needing(evaluators, route)
  {
    if k == |route| {
      assert route[..k] == route;
    } else {
      var init := route[..|route| - 1];
      assert init[..k] == route[..k];
      NeedingPrefix(evaluators, init, k);
    }
  }

  lemma NeedingStep(evaluators: map<string, Entry>, route: seq<string>, i: nat)
    requires i < |route| && forall id :: id in route ==> id in evaluators
    ensures var e := evaluators[route[i]];
      Needing(evaluators, route[..i + 1]) == Needing(evaluators, route[..i]) + if e.credentialSlot.Some? then [e] else []
  {
    assert route[..i + 1][..i] == route[..i];
  }

  lemma WalkOneMore(o: Options, entries: seq<Entry>, e: Entry, st: State)
    requires AllNeed(entries) && e.credentialSlot.Some? && Walk(o, entries, st).Accepted?
    ensures AllNeed(entries + [e]) && Walk(o, entries + [e], st) == Step(o, e, Walk(o, entries, st).value)
  {
    hide Step;
    assert (entries + [e])[..|entries|] == entries;
  }

  /** One position of the route: nothing without a slot, one Step with one, and a refusal is final. */
  lemma RouteStep(o: Options, evaluators: map<string, Entry>, route: seq<string>, i: nat, source: Source)
    requires i < |route| && forall id :: id in route ==> id in evaluators
    requires Walked(o, evaluators, route[..i], source).Accepted?
    ensures var e, st := evaluators[route[i]], Walked(o, evaluators, route[..i], source).value;
      if e.credentialSlot.None? then Walked(o, evaluators, route[..i + 1], source) == Accepted(st)
      else
        && Walked(o, evaluators, route[..i + 1], source) == Step(o, e, st)
        && (Step(o, e, st).Refused? ==> Walked(o, evaluators, route, source) == Step(o, e, st))
  {
    hide Step, Needing, Walk;
    var e := evaluators[route[i]];
    NeedingStep(evaluators, route, i);
    var before, after := Needing(evaluators, route[..i]), Needing(evaluators, route[..i + 1]);
    if e.credentialSlot.Some? {
      assert after == before + [e];
      WalkOneMore(o, before, e, Start(source));
      NeedingPrefix(evaluators, route, i + 1);
      var all := Needing(evaluators, route);
      assert all[..|after|] == after;
      if Walk(o, after, Start(source)).Refused? {
        RefusalStays(o, all, |after|, Start(source));
      }
    } else {
      assert after == before;
    }
  }

  lemma NothingWalked(o: Options, evaluators: map<string, Entry>, source: Source)
    ensures Walked(o, evaluators, [], source) == Accepted(Start(source))
  {
  }

  lemma SelectedIsValid(o: Options)
    requires OptionsOk(o) && SelectedProfile(o).Accepted?
    ensures ValidProfile(SelectedProfile(o).value.0)
  {
    hide ValidProfile;
  }

  lemma ResolutionWalks(o: Options)
    requires OptionsOk(o) && SelectedProfile(o).Accepted?
    ensures var (p, source) := SelectedProfile(o).value;
      && ValidProfile(p) && (forall id :: id in RouteOf(p.routing) ==> id in Entries(p.evaluators))
      && var walked := Walked(o, Entries(p.evaluators), RouteOf(p.routing), source);
         Resolution(o) == if walked.Refused? then Refused(walked.refusal) else Finish(o, (p, source), walked.value)
  {
    SelectedIsValid(o);
    Routes(SelectedProfile(o).value.0);
    hide ValidProfile, SelectedProfile, Entries, Walk, Needing, OptionsOk, Finish;
  }

  /** The inner loop: levels from the strongest, then the adapter's own default. */
  method Select(o: Options, e: Entry) returns (chosen: Option<Choice>)
    requires e.credentialSlot.Some?
    ensures chosen == Chosen(o, e)
  {
    var levels, key := Levels(o), KeyOf(e);
    for i := 0 to 3
      invariant FirstDefining(levels, 0, key) == FirstDefining(levels, i, key)
    {
      if key in levels[i].layer.bindings {
        return Some(Choice(levels[i].layer.bindings[key], levels[i].source));
      }
    }
    chosen := Default(o, e);
  }

  method Resolve(o: Options) returns (r: Outcome<Resolved>)
    requires OptionsOk(o)
    ensures r == Resolution(o)
  {
    hide LayerOk, ValidProfile, BindingsOk, Walk, Step, Needing, Entries, Chosen, FirstDefining;
    var levels := Levels(o);
    assert levels[0].layer == o.cli && levels[1].layer == o.project && levels[2].layer == o.user;
    var selected: Option<(Profile, Source)> := None;
    for i := 0 to 3
      invariant selected.None?
      invariant forall k :: 0 <= k < i ==> levels[k].layer.profile.None?
    {
      if levels[i].layer.profile.Some? {
        selected := Some((levels[i].layer.profile.value, levels[i].source));
        break;
      }
    }
    if selected.None? && o.builtin.Some? {
      if !ValidProfile(o.builtin.value) {
        return Refused(InvalidBuiltin);
      }
      var builtin := o.builtin.value.evaluators;
      for i := 0 to |builtin|
        invariant forall k :: 0 <= k < i ==> builtin[k].mode.DeterministicFixture?
      {
        if !builtin[i].mode.DeterministicFixture? {
          assert builtin[i] in builtin;
          return Refused(BuiltinNotFixtures);
        }
      }
      assert forall e :: e in builtin ==> e.mode.DeterministicFixture?;
      selected := Some((o.builtin.value, Builtin));
    }
    if selected.None? {
      return Refused(NoProfile);
    }
    assert SelectedProfile(o) == Accepted(selected.value);
    SelectedIsValid(o);
    r := Bind(o, selected.value);
  }

  /** The evaluators of the selected profile, the loop over its route, the trust gate and the final check. */
  method Bind(o: Options, selected: (Profile, Source)) returns (r: Outcome<Resolved>)
    requires OptionsOk(o) && SelectedProfile(o) == Accepted(selected) && ValidProfile(selected.0)
    ensures r == Resolution(o)
  {
    hide LayerOk, OptionsOk, ValidProfile, BindingsOk, Walk, Needing, Entries, Chosen, SelectedProfile, IsFirst, Resolution,
         Walked;
    var p := selected.0;
    var evaluators: map<string, Entry> := map[];
    EntriesOfNone(p.evaluators);
    for i := 0 to |p.evaluators|
      invariant evaluators == Entries(p.evaluators[..i])
    {
      EntriesPrefix(p.evaluators, i);
      evaluators := evaluators[p.evaluators[i].id := p.evaluators[i]];
    }
    assert p.evaluators[..|p.evaluators|] == p.evaluators;
    var route := [p.routing.primary];
    if p.routing.escalation.Some? {
      route := route + [p.routing.escalation.value];
    }
    route := route + Fallbacks(p.routing);
    ResolutionWalks(o);
    var projectUsed, needsCredentials := selected.1.Project?, false;
    var bindings: map<Key, Reference> := map[];
    var names: map<string, string> := map[];
    var listed: seq<Listing> := [];
    assert evaluators == Entries(p.evaluators) && route == RouteOf(p.routing);
    ghost var whole := Walked(o, evaluators, route, selected.1);
    assert whole.Refused? ==> Resolution(o) == Refused(whole.refusal);
    assert route[..0] == [];
    NothingWalked(o, evaluators, selected.1);
    for i := 0 to |route|
      invariant Walked(o, evaluators, route[..i], selected.1) == Accepted(State(bindings, names, listed, projectUsed))
      invariant (needsCredentials <==> listed != []) && (listed == [] ==> bindings == map[])
    {
      RouteStep(o, evaluators, route, i, selected.1);
      var e := evaluators[route[i]];
      if e.credentialSlot.None? {
        continue;
      }
      needsCredentials := true;
      var key := KeyOf(e);
      var chosen := Select(o, e);
      if chosen.None? {
        return Refused(MissingCredential(e.id, key));
      }
      var reference, source := chosen.value.reference, chosen.value.source;
      if source.Project? {
        projectUsed := true;
      }
      var folded := o.fold(reference.name);
      if folded in names && names[folded] != reference.name {
        return Refused(AmbiguousNames);
      }
      names := names[folded := reference.name];
      if key in bindings {
        if bindings[key] != reference {
          return Refused(ConflictingDefaults);
        }
        continue;
      }
      bindings := bindings[key := reference];
      listed := listed + [Listing(key, source)];
    }
    assert route[..|route|] == route;
    if projectUsed && needsCredentials && (o.trusted == "" || o.trusted != o.project.digest) {
      return Refused(TrustRequired(o.project.digest));
    }
    if needsCredentials && !BindingsOk(bindings) {
      return Refused(InvalidReferences);
    }
    r := Accepted(Resolved(p, selected.1, bindings, listed, if projectUsed then o.project.digest else ""));
  }
}
