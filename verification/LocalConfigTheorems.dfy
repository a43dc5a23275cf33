/** What local configuration resolution promises: first match, one listing per key, and no hidden project influence. */
module LocalConfigTheorems {
  import opened Wrappers
  import opened Profiles
  import opened LocalConfig

  function NameOf(o: Options, e: Entry): string
    requires e.credentialSlot.Some? && Chosen(o, e).Some?
  {
    Chosen(o, e).value.reference.name
  }

  /** Two routed evaluators whose choices can live together. */
  predicate Compatible(o: Options, e: Entry, f: Entry)
    requires e.credentialSlot.Some? && Chosen(o, e).Some? && f.credentialSlot.Some? && Chosen(o, f).Some?
  {
    && (o.fold(NameOf(o, e)) == o.fold(NameOf(o, f)) ==> NameOf(o, e) == NameOf(o, f))
    && (KeyOf(e) == KeyOf(f) ==> Chosen(o, e).value.reference == Chosen(o, f).value.reference)
  }

  /** Every key has a choice, no two names differ by case only, and shared keys get one reference. */
  predicate Bindable(o: Options, entries: seq<Entry>)
    requires AllNeed(entries)
  {
    && (forall e :: e in entries ==> Chosen(o, e).Some?)
    && forall e, f :: e in entries && f in entries ==> Compatible(o, e, f)
  }

  predicate Needed(entries: seq<Entry>, key: Key)
    requires AllNeed(entries)
  {
    exists e :: e in entries && KeyOf(e) == key
  }

  predicate Covers(o: Options, entries: seq<Entry>, bindings: map<Key, Reference>)
    requires AllNeed(entries)
  {
    && (forall e :: e in entries ==> KeyOf(e) in bindings && Chosen(o, e).Some?
                                     && bindings[KeyOf(e)] == Chosen(o, e).value.reference)
    && forall k :: k in bindings ==> Needed(entries, k)
  }

  predicate Named(o: Options, entries: seq<Entry>, names: map<string, string>)
    requires AllNeed(entries) && forall e :: e in entries ==> Chosen(o, e).Some?
  {
    && (forall e :: e in entries ==> o.fold(NameOf(o, e)) in names && names[o.fold(NameOf(o, e))] == NameOf(o, e))
    && forall n :: n in names ==> exists e :: e in entries && o.fold(NameOf(o, e)) == n
  }

  predicate TouchesProject(o: Options, entries: seq<Entry>)
    requires AllNeed(entries)
  {
    exists e :: e in entries && Chosen(o, e).Some? && Chosen(o, e).value.source.Project?
  }

  /** Where in the route a key is first needed. */
  function FirstAt(entries: seq<Entry>, key: Key): (r: nat)
    requires AllNeed(entries)
    ensures r <= |entries|
  {
    if entries == [] then 0
    else if KeyOf(entries[0]) == key then 0
    else 1 + FirstAt(entries[1..], key)
  }

  lemma {:induction false} FirstAtIsFirst(entries: seq<Entry>, key: Key)
    requires AllNeed(entries)
    ensures FirstAt(entries, key) < |entries| ==> KeyOf(entries[FirstAt(entries, key)]) == key
    ensures forall i :: 0 <= i < FirstAt(entries, key) ==> KeyOf(entries[i]) != key
  {
    if entries != [] && KeyOf(entries[0]) != key {
      FirstAtIsFirst(entries[1..], key);
      forall i | 0 <= i < FirstAt(entries, key) ensures KeyOf(entries[i]) != key {
        assert i > 0 ==> entries[i] == entries[1..][i - 1];
      }
    }
  }

  predicate RightSource(o: Options, entries: seq<Entry>, l: Listing)
    requires AllNeed(entries)
  {
    && FirstAt(entries, l.key) < |entries|
    && var e := entries[FirstAt(entries, l.key)];
       Chosen(o, e).Some? && l.source == Chosen(o, e).value.source
  }

  predicate RightOrder(entries: seq<Entry>, listed: seq<Listing>)
    requires AllNeed(entries)
  {
    forall a, b :: 0 <= a < b < |listed| ==> FirstAt(entries, listed[a].key) < FirstAt(entries, listed[b].key)
  }

  predicate Lists(listed: seq<Listing>, key: Key) {
    exists a :: 0 <= a < |listed| && listed[a].key == key
  }

  /** Each routed key listed once, in the order of first use, with the level its first use takes it from. */
  predicate ListedInOrder(o: Options, entries: seq<Entry>, listed: seq<Listing>)
    requires AllNeed(entries)
  {
    && (forall l :: l in listed ==> RightSource(o, entries, l))
    && RightOrder(entries, listed)
    && forall e :: e in entries ==> Lists(listed, KeyOf(e))
  }

  predicate Reached(o: Options, entries: seq<Entry>, source: Source, st: State)
    requires AllNeed(entries) && Bindable(o, entries)
  {
    && Covers(o, entries, st.bindings) && Named(o, entries, st.names) && ListedInOrder(o, entries, st.listed)
    && (st.projectUsed <==> source.Project? || TouchesProject(o, entries))
  }

  /** The loop succeeds exactly on bindable routes, and then with every routed key at its first match. */
  lemma {:induction false} WalkIsFirstMatch(o: Options, entries: seq<Entry>, source: Source)
    requires AllNeed(entries)
    ensures Walk(o, entries, Start(source)).Accepted? <==> Bindable(o, entries)
    ensures Bindable(o, entries) ==> Reached(o, entries, source, Walk(o, entries, Start(source)).value)
  {
    if entries != [] {
      var init, last := entries[..|entries| - 1], entries[|entries| - 1];
      assert last.credentialSlot.Some? && AllNeed(init);
      hide AllNeed, Bindable, Reached, Step;
      assert entries == init + [last];
      WalkIsFirstMatch(o, init, source);
      WalkStep(o, init, last, source);
    }
  }

  lemma WalkStep(o: Options, entries: seq<Entry>, last: Entry, source: Source)
    requires AllNeed(entries) && AllNeed(entries + [last]) && last.credentialSlot.Some?
    requires Walk(o, entries, Start(source)).Accepted? <==> Bindable(o, entries)
    requires Bindable(o, entries) ==> Reached(o, entries, source, Walk(o, entries, Start(source)).value)
    ensures Walk(o, entries + [last], Start(source)).Accepted? <==> Bindable(o, entries + [last])
    ensures Bindable(o, entries + [last]) ==> Reached(o, entries + [last], source, Walk(o, entries + [last], Start(source)).value)
  {
    hide AllNeed, Bindable, Reached, Step, Compatible, Chosen;
    assert (entries + [last])[..|entries|] == entries;
    BindableStep(o, entries, last);
    if Walk(o, entries, Start(source)).Accepted? {
      var st := Walk(o, entries, Start(source)).value;
      StepDecides(o, entries, last, source, st);
      if Bindable(o, entries + [last]) {
        ReachedStep(o, entries, last, source, st);
      }
    }
  }

  lemma BindableStep(o: Options, entries: seq<Entry>, last: Entry)
    requires AllNeed(entries) && last.credentialSlot.Some?
    ensures AllNeed(entries + [last])
    ensures Bindable(o, entries + [last]) <==>
            && Bindable(o, entries) && Chosen(o, last).Some?
            && forall e :: e in entries ==> Compatible(o, e, last)
  {
    hide Chosen;
    var all := entries + [last];
    assert forall e :: e in all <==> e in entries || e == last;
    assert Bindable(o, all) ==> last in all;
  }

  lemma StepDecides(o: Options, entries: seq<Entry>, last: Entry, source: Source, st: State)
    requires AllNeed(entries) && Bindable(o, entries) && Reached(o, entries, source, st) && last.credentialSlot.Some?
    ensures Step(o, last, st).Accepted? <==> Chosen(o, last).Some? && forall e :: e in entries ==> Compatible(o, e, last)
  {
    hide Chosen, ListedInOrder, TouchesProject;
  }

  lemma ReachedStep(o: Options, entries: seq<Entry>, last: Entry, source: Source, st: State)
    requires AllNeed(entries) && Bindable(o, entries) && Reached(o, entries, source, st) && last.credentialSlot.Some?
    requires AllNeed(entries + [last]) && Bindable(o, entries + [last]) && Step(o, last, st).Accepted?
    ensures Reached(o, entries + [last], source, Step(o, last, st).value)
  {
    hide Chosen, Covers, Named, TouchesProject, ListedInOrder, Compatible, Step;
    assert last in entries + [last];
    CoversStep(o, entries, last, st);
    NamedStep(o, entries, last, st);
    TouchesStep(o, entries, last, st);
    ListedStep(o, entries, last, st);
  }

  lemma InOneMore(entries: seq<Entry>, last: Entry)
    ensures forall e :: e in entries + [last] <==> e in entries || e == last
  {
  }

  lemma CoversStep(o: Options, entries: seq<Entry>, last: Entry, st: State)
    requires AllNeed(entries) && Covers(o, entries, st.bindings) && last.credentialSlot.Some?
    requires Step(o, last, st).Accepted?
    ensures AllNeed(entries + [last]) && Covers(o, entries + [last], Step(o, last, st).value.bindings)
  {
    hide Chosen, Needed;
    InOneMore(entries, last);
    var bindings := Step(o, last, st).value.bindings;
    forall k | k in bindings ensures Needed(entries + [last], k) {
      NeededOneMore(entries, last, k);
    }
  }

  lemma NeededOneMore(entries: seq<Entry>, last: Entry, key: Key)
    requires AllNeed(entries) && AllNeed(entries + [last]) && last.credentialSlot.Some?
    ensures Needed(entries + [last], key) <==> Needed(entries, key) || KeyOf(last) == key
  {
    InOneMore(entries, last);
    assert last in entries + [last];
  }

  lemma NamedStep(o: Options, entries: seq<Entry>, last: Entry, st: State)
    requires AllNeed(entries) && (forall e :: e in entries ==> Chosen(o, e).Some?) && last.credentialSlot.Some?
    requires Named(o, entries, st.names) && Step(o, last, st).Accepted?
    ensures AllNeed(entries + [last]) && forall e :: e in entries + [last] ==> Chosen(o, e).Some?
    ensures Named(o, entries + [last], Step(o, last, st).value.names)
  {
    hide Chosen;
    InOneMore(entries, last);
    var names := Step(o, last, st).value.names;
    forall n | n in names ensures exists e :: e in entries + [last] && o.fold(NameOf(o, e)) == n {
      if n in st.names {
        var e :| e in entries && o.fold(NameOf(o, e)) == n;
        assert e in entries + [last];
      } else {
        assert last in entries + [last];
      }
    }
  }

  lemma TouchesStep(o: Options, entries: seq<Entry>, last: Entry, st: State)
    requires AllNeed(entries) && last.credentialSlot.Some? && Step(o, last, st).Accepted?
    ensures AllNeed(entries + [last])
    ensures TouchesProject(o, entries + [last]) <==> TouchesProject(o, entries) || Chosen(o, last).value.source.Project?
    ensures Step(o, last, st).value.projectUsed <==> st.projectUsed || Chosen(o, last).value.source.Project?
  {
    hide Chosen;
    InOneMore(entries, last);
  }

  lemma {:induction false} FirstAtGrows(entries: seq<Entry>, last: Entry, key: Key)
    requires AllNeed(entries) && AllNeed(entries + [last])
    ensures FirstAt(entries + [last], key) ==
            if FirstAt(entries, key) < |entries| then FirstAt(entries, key)
            else if KeyOf(last) == key then |entries| else |entries| + 1
  {
    if entries != [] {
      assert (entries + [last])[1..] == entries[1..] + [last];
      assert AllNeed(entries[1..]) && AllNeed(entries[1..] + [last]);
      FirstAtGrows(entries[1..], last, key);
    }
  }

  lemma ListedStep(o: Options, entries: seq<Entry>, last: Entry, st: State)
    requires AllNeed(entries) && Covers(o, entries, st.bindings) && ListedInOrder(o, entries, st.listed)
    requires last.credentialSlot.Some? && Step(o, last, st).Accepted?
    ensures AllNeed(entries + [last]) && ListedInOrder(o, entries + [last], Step(o, last, st).value.listed)
  {
    hide Chosen, FirstAt, Lists, ListedInOrder, Covers;
    InOneMore(entries, last);
    KnownExactly(o, entries, st, KeyOf(last));
    var listed := Step(o, last, st).value.listed;
    if KeyOf(last) in st.bindings {
      assert listed == st.listed;
      ListedOld(o, entries, last, listed);
    } else {
      ListedNew(o, entries, last, st.listed);
    }
  }

  /** One more evaluator moves no listed key. */
  lemma StillFirst(o: Options, entries: seq<Entry>, last: Entry, l: Listing)
    requires AllNeed(entries) && AllNeed(entries + [last]) && RightSource(o, entries, l)
    ensures RightSource(o, entries + [last], l)
    ensures FirstAt(entries + [last], l.key) == FirstAt(entries, l.key) < |entries|
  {
    hide Chosen, FirstAt;
    FirstAtGrows(entries, last, l.key);
  }

  lemma StillListed(o: Options, entries: seq<Entry>, last: Entry, listed: seq<Listing>)
    requires AllNeed(entries) && AllNeed(entries + [last])
    requires RightOrder(entries, listed) && forall l :: l in listed ==> RightSource(o, entries, l)
    ensures forall l :: l in listed ==> RightSource(o, entries + [last], l) && FirstAt(entries + [last], l.key) < |entries|
    ensures RightOrder(entries + [last], listed)
  {
    hide Chosen, FirstAt, RightSource, AllNeed;
    forall l | l in listed
      ensures RightSource(o, entries + [last], l)
      ensures FirstAt(entries + [last], l.key) == FirstAt(entries, l.key) < |entries|
    {
      StillFirst(o, entries, last, l);
    }
  }

  lemma ListedOld(o: Options, entries: seq<Entry>, last: Entry, listed: seq<Listing>)
    requires AllNeed(entries) && AllNeed(entries + [last]) && ListedInOrder(o, entries, listed)
    requires exists e :: e in entries && KeyOf(e) == KeyOf(last)
    ensures ListedInOrder(o, entries + [last], listed)
  {
    hide Chosen, FirstAt, RightSource, RightOrder, Lists;
    StillListed(o, entries, last, listed);
    InOneMore(entries, last);
  }

  lemma ListedNew(o: Options, entries: seq<Entry>, last: Entry, listed: seq<Listing>)
    requires AllNeed(entries) && AllNeed(entries + [last]) && ListedInOrder(o, entries, listed)
    requires last.credentialSlot.Some? && Chosen(o, last).Some? && FirstAt(entries, KeyOf(last)) == |entries|
    ensures ListedInOrder(o, entries + [last], listed + [Listing(KeyOf(last), Chosen(o, last).value.source)])
  {
    hide Chosen, FirstAt, Lists, RightOrder, RightSource, AllNeed;
    var all, one := entries + [last], Listing(KeyOf(last), Chosen(o, last).value.source);
    AllListed(entries, last, listed, one);
    StillListed(o, entries, last, listed);
    NewFirst(o, entries, last);
    OrderedNew(all, listed, one);
    forall l | l in listed + [one] ensures RightSource(o, all, l) {
      assert l in listed || l == one;
    }
  }

  lemma NewFirst(o: Options, entries: seq<Entry>, last: Entry)
    requires AllNeed(entries) && AllNeed(entries + [last])
    requires last.credentialSlot.Some? && Chosen(o, last).Some? && FirstAt(entries, KeyOf(last)) == |entries|
    ensures FirstAt(entries + [last], KeyOf(last)) == |entries|
    ensures RightSource(o, entries + [last], Listing(KeyOf(last), Chosen(o, last).value.source))
  {
    hide Chosen, FirstAt, AllNeed;
    FirstAtGrows(entries, last, KeyOf(last));
    assert (entries + [last])[|entries|] == last;
  }

  lemma OrderedNew(entries: seq<Entry>, listed: seq<Listing>, one: Listing)
    requires AllNeed(entries) && RightOrder(entries, listed)
    requires forall l :: l in listed ==> FirstAt(entries, l.key) < FirstAt(entries, one.key)
    ensures RightOrder(entries, listed + [one])
  {
    hide FirstAt;
  }

  lemma AllListed(entries: seq<Entry>, last: Entry, listed: seq<Listing>, one: Listing)
    requires AllNeed(entries) && AllNeed(entries + [last]) && last.credentialSlot.Some? && one.key == KeyOf(last)
    requires forall e :: e in entries ==> Lists(listed, KeyOf(e))
    ensures forall e :: e in entries + [last] ==> Lists(listed + [one], KeyOf(e))
  {
    hide Lists;
    forall e | e in entries + [last] ensures Lists(listed + [one], KeyOf(e)) {
      ListsOneMore(listed, one, KeyOf(e));
    }
  }

  lemma ListsOneMore(listed: seq<Listing>, one: Listing, key: Key)
    ensures Lists(listed + [one], key) <==> Lists(listed, key) || one.key == key
  {
    var more := listed + [one];
    if a :| 0 <= a < |listed| && listed[a].key == key {
      assert more[a].key == key;
    }
    assert more[|listed|] == one;
  }

  lemma KnownExactly(o: Options, entries: seq<Entry>, st: State, key: Key)
    requires AllNeed(entries) && Covers(o, entries, st.bindings)
    ensures key in st.bindings <==> FirstAt(entries, key) < |entries|
    ensures key in st.bindings ==> exists e :: e in entries && KeyOf(e) == key
  {
    hide Chosen, FirstAt;
    FirstAtIsFirst(entries, key);
    if key in st.bindings {
      var e :| e in entries && KeyOf(e) == key;
      var i :| 0 <= i < |entries| && entries[i] == e;
    }
  }

  // The whole resolution

  lemma {:induction false} FewNeeding(entries: map<string, Entry>, route: seq<string>)
    requires forall id :: id in route ==> id in entries
    ensures |Needing(entries, route)| <= |route|
  {
    if route != [] {
      assert forall id :: id in route[..|route| - 1] ==> id in route;
      FewNeeding(entries, route[..|route| - 1]);
    }
  }

  lemma SubsetIsSmaller<T>(a: set<T>, b: set<T>)
    requires a <= b
    ensures |a| <= |b|
  {
    assert b == a + (b - a);
  }

  lemma {:induction false} FewElements(texts: seq<string>)
    ensures |set t | t in texts| <= |texts|
  {
    if texts != [] {
      var init, last := texts[..|texts| - 1], texts[|texts| - 1];
      FewElements(init);
      assert (set t | t in texts) == (set t | t in init) + {last};
    }
  }

  lemma FewAdapters(entries: seq<Entry>, bindings: map<Key, Reference>)
    requires AllNeed(entries) && forall k :: k in bindings ==> Needed(entries, k)
    ensures |AdaptersOf(bindings)| <= |entries| && forall a :: |SlotsOf(bindings, a)| <= |entries|
  {
    var ids := seq(|entries|, i requires 0 <= i < |entries| => entries[i].adapterID);
    var slots := seq(|entries|, i requires 0 <= i < |entries| && AllNeed(entries) => entries[i].credentialSlot.value);
    FewElements(ids);
    FewElements(slots);
    forall k | k in bindings ensures k.adapterID in ids && k.slot in slots {
      var e :| e in entries && KeyOf(e) == k;
      var i :| 0 <= i < |entries| && entries[i] == e;
      assert ids[i] == k.adapterID && slots[i] == k.slot;
    }
    SubsetIsSmaller(AdaptersOf(bindings), set t | t in ids);
    forall a ensures |SlotsOf(bindings, a)| <= |entries| {
      SubsetIsSmaller(SlotsOf(bindings, a), set t | t in slots);
    }
  }

  /** Every routed key of a validated profile passes the reference artifact's own checks. */
  lemma RoutedKeysAreOk(p: Profile)
    requires ValidProfile(p)
    ensures AllNeed(Routed(p)) && |Routed(p)| <= 16
    ensures forall e :: e in Routed(p) ==> KeyOk(KeyOf(e))
  {
    Routes(p);
    RouteIsBounded(p);
    FewNeeding(Entries(p.evaluators), RouteOf(p.routing));
    forall e | e in Routed(p) ensures KeyOk(KeyOf(e)) {
      assert e in p.evaluators;
      assert EntryOk(e, p);
    }
  }

  lemma SameReferences(o: Options, entries: seq<Entry>, bindings: map<Key, Reference>)
    requires AllNeed(entries) && Covers(o, entries, bindings)
    ensures (forall k :: k in bindings ==> ReferenceOk(bindings[k])) <==>
            forall e :: e in entries ==> ReferenceOk(Chosen(o, e).value.reference)
  {
    hide Chosen, ReferenceOk;
    if forall e :: e in entries ==> ReferenceOk(Chosen(o, e).value.reference) {
      forall k | k in bindings ensures ReferenceOk(bindings[k]) {
        var e :| e in entries && KeyOf(e) == k;
      }
    }
  }

  lemma KeysAreOk(entries: seq<Entry>, bindings: map<Key, Reference>)
    requires AllNeed(entries) && forall k :: k in bindings ==> Needed(entries, k)
    requires forall e :: e in entries ==> KeyOk(KeyOf(e))
    ensures forall k :: k in bindings ==> KeyOk(k)
  {
    hide KeyOk;
  }

  /** So the final check of the effective bindings looks at the references only. */
  lemma OnlyReferencesDecide(o: Options, p: Profile, bindings: map<Key, Reference>)
    requires ValidProfile(p) && AllNeed(Routed(p)) && Covers(o, Routed(p), bindings) && bindings != map[]
    ensures BindingsOk(bindings) <==> forall e :: e in Routed(p) ==> ReferenceOk(Chosen(o, e).value.reference)
  {
    hide ValidProfile, Chosen, KeyOk, ReferenceOk, Routed, AllNeed, Needed, SlotsOf;
    RoutedKeysAreOk(p);
    FewAdapters(Routed(p), bindings);
    var k :| k in bindings;
    assert k.adapterID in AdaptersOf(bindings);
    hide AdaptersOf;
    SameReferences(o, Routed(p), bindings);
    KeysAreOk(Routed(p), bindings);
  }

  predicate UsesProject(o: Options, entries: seq<Entry>, source: Source)
    requires AllNeed(entries)
  {
    source.Project? || TouchesProject(o, entries)
  }

  /** The caller trusts the project configuration as it is. */
  predicate TrustsProject(o: Options) {
    o.project.digest != "" && o.project.digest == o.trusted
  }

  /** Everything the selected profile's route asks for, and the trust that project influence on credentials needs. */
  predicate Resolvable(o: Options, entries: seq<Entry>, source: Source)
    requires AllNeed(entries)
  {
    && Bindable(o, entries)
    && (entries != [] && UsesProject(o, entries, source) ==> TrustsProject(o))
    && forall e :: e in entries ==> ReferenceOk(Chosen(o, e).value.reference)
  }

  /** The command line's profile before the project's, the project's before the user's, and only then fixtures built in. */
  predicate SelectedFrom(o: Options, p: Profile, source: Source) {
    if o.cli.profile.Some? then p == o.cli.profile.value && source.Cli?
    else if o.project.profile.Some? then p == o.project.profile.value && source.Project?
    else if o.user.profile.Some? then p == o.user.profile.value && source.User?
    else
      && o.builtin == Some(p) && source.Builtin?
      && ValidProfile(p) && forall i :: 0 <= i < |p.evaluators| ==> p.evaluators[i].mode.DeterministicFixture?
  }

  predicate NoLayerHasProfile(o: Options) {
    o.cli.profile.None? && o.project.profile.None? && o.user.profile.None?
  }

  lemma SelectedExactly(o: Options, p: Profile, source: Source)
    ensures SelectedProfile(o) == Accepted((p, source)) <==> SelectedFrom(o, p, source)
  {
    hide ValidProfile;
  }

  /** A resolution is of the profile selected; without one, the refusal says why. */
  lemma ProfileIsFirstMatch(o: Options)
    requires OptionsOk(o)
    ensures Resolution(o).Accepted? ==> SelectedFrom(o, Resolution(o).value.profile, Resolution(o).value.profileSource)
    ensures Resolution(o) == Refused(NoProfile) <==> NoLayerHasProfile(o) && o.builtin.None?
    ensures Resolution(o) == Refused(InvalidBuiltin) <==>
            NoLayerHasProfile(o) && o.builtin.Some? && !ValidProfile(o.builtin.value)
    ensures Resolution(o) == Refused(BuiltinNotFixtures) <==>
            && NoLayerHasProfile(o) && o.builtin.Some? && ValidProfile(o.builtin.value)
            && exists e :: e in o.builtin.value.evaluators && !e.mode.DeterministicFixture?
  {
    hide SelectedProfile, SelectedFrom, ValidProfile, Walk, OptionsOk, AllNeed, BindingsOk, Routed, NoLayerHasProfile;
    NoneSelected(o);
    if SelectedProfile(o).Accepted? {
      SelectedExactly(o, SelectedProfile(o).value.0, SelectedProfile(o).value.1);
      SelectedIsValid(o);
      RoutedKeysAreOk(SelectedProfile(o).value.0);
      WalkRefusals(o, Routed(SelectedProfile(o).value.0), SelectedProfile(o).value.1);
    }
  }

  lemma NoneSelected(o: Options)
    ensures var selected := SelectedProfile(o);
      && (selected == Refused(NoProfile) <==> NoLayerHasProfile(o) && o.builtin.None?)
      && (selected == Refused(InvalidBuiltin) <==> NoLayerHasProfile(o) && o.builtin.Some? && !ValidProfile(o.builtin.value))
      && (selected == Refused(BuiltinNotFixtures) <==>
            && NoLayerHasProfile(o) && o.builtin.Some? && ValidProfile(o.builtin.value)
            && exists e :: e in o.builtin.value.evaluators && !e.mode.DeterministicFixture?)
      && (selected.Refused? ==> selected.refusal in {NoProfile, InvalidBuiltin, BuiltinNotFixtures})
  {
    hide ValidProfile;
  }

  lemma WalkRefusals(o: Options, entries: seq<Entry>, source: Source)
    requires AllNeed(entries)
    ensures var walked := Walk(o, entries, Start(source));
      walked.Refused? ==> walked.refusal.MissingCredential? || walked.refusal in {AmbiguousNames, ConflictingDefaults}
  {
    hide AllNeed, Walk, Chosen;
    if Walk(o, entries, Start(source)).Refused? {
      var k := RefusedSomewhere(o, entries, source);
    }
  }

  /**
   Resolution succeeds exactly when a profile is selected and its route is resolvable; it then binds exactly the routed
   keys, each to its first match, lists each once in route order, and names the project only when the project was used.
   */
  lemma ResolutionIsFirstMatch(o: Options, p: Profile, source: Source)
    requires OptionsOk(o) && SelectedFrom(o, p, source)
    ensures ValidProfile(p) && AllNeed(Routed(p))
    ensures Resolution(o).Accepted? <==> Resolvable(o, Routed(p), source)
    ensures Resolution(o).Accepted? ==>
              var r := Resolution(o).value;
              && r.profile == p && r.profileSource == source
              && Covers(o, Routed(p), r.bindings) && ListedInOrder(o, Routed(p), r.listed)
              && r.projectDigest == if UsesProject(o, Routed(p), source) then o.project.digest else ""
  {
    hide SelectedProfile, SelectedFrom, OptionsOk, ValidProfile, Routed, Covers, ListedInOrder, Bindable, TouchesProject,
         BindingsOk, Chosen, ReferenceOk, Walk, AllNeed;
    SelectedExactly(o, p, source);
    SelectedIsValid(o);
    RoutedKeysAreOk(p);
    var entries := Routed(p);
    WalkIsFirstMatch(o, entries, source);
    if Bindable(o, entries) {
      var st := Walk(o, entries, Start(source)).value;
      SomeListed(o, entries, st);
      if entries != [] {
        OnlyReferencesDecide(o, p, st.bindings);
      }
    }
  }

  lemma SomeListed(o: Options, entries: seq<Entry>, st: State)
    requires AllNeed(entries) && Covers(o, entries, st.bindings) && ListedInOrder(o, entries, st.listed)
    ensures st.listed != [] <==> entries != []
    ensures st.bindings != map[] <==> entries != []
  {
    hide Chosen;
    if entries != [] {
      assert entries[0] in entries;
    }
    if st.listed != [] {
      assert st.listed[0] in st.listed;
    }
    if k :| k in st.bindings {
      assert Needed(entries, k);
    }
  }

  // Refusals

  lemma {:induction false} RefusedSomewhere(o: Options, entries: seq<Entry>, source: Source) returns (k: nat)
    requires AllNeed(entries) && Walk(o, entries, Start(source)).Refused?
    ensures k < |entries| && AllNeed(entries[..k]) && Walk(o, entries[..k], Start(source)).Accepted?
    ensures Walk(o, entries, Start(source)) == Step(o, entries[k], Walk(o, entries[..k], Start(source)).value)
  {
    hide Step;
    k := |entries| - 1;
    if Walk(o, entries[..k], Start(source)).Refused? {
      k := RefusedSomewhere(o, entries[..k], source);
      assert entries[..|entries| - 1][..k] == entries[..k];
    }
  }

  /** The refusal of the first evaluator that cannot be bound along with those before it. */
  ghost predicate RefusedAt(o: Options, entries: seq<Entry>, k: nat, refusal: Refusal)
    requires AllNeed(entries)
  {
    && k < |entries| && AllNeed(entries[..k]) && Bindable(o, entries[..k])
    && var f := entries[k];
       if Chosen(o, f).None? then refusal == MissingCredential(f.id, Key(f.adapterID, f.credentialSlot.value))
       else if exists e :: e in entries[..k] && o.fold(NameOf(o, e)) == o.fold(NameOf(o, f)) && NameOf(o, e) != NameOf(o, f)
       then refusal.AmbiguousNames?
       else
         && refusal.ConflictingDefaults?
         && exists e :: e in entries[..k] && KeyOf(e) == KeyOf(f)
                        && Chosen(o, e).value.reference != Chosen(o, f).value.reference
  }

  lemma StepRefusal(o: Options, entries: seq<Entry>, k: nat, source: Source, st: State)
    requires AllNeed(entries) && k < |entries| && AllNeed(entries[..k]) && Bindable(o, entries[..k])
    requires Reached(o, entries[..k], source, st) && Step(o, entries[k], st).Refused?
    ensures RefusedAt(o, entries, k, Step(o, entries[k], st).refusal)
  {
    hide Chosen, ListedInOrder, TouchesProject;
    assert entries[k] in entries;
  }

  /**
   Every refusal after a profile was selected: of the first evaluator on the route that cannot be bound, for its own
   reason; or, when all can be bound, for missing trust, and otherwise for an ill-formed reference.
   */
  lemma RefusalsAreExact(o: Options, p: Profile, source: Source)
    requires OptionsOk(o) && SelectedFrom(o, p, source) && Resolution(o).Refused?
    ensures ValidProfile(p) && AllNeed(Routed(p))
    ensures var entries := Routed(p);
      if !Bindable(o, entries) then exists k :: RefusedAt(o, entries, k, Resolution(o).refusal)
      else if entries != [] && UsesProject(o, entries, source) && !TrustsProject(o) then
        Resolution(o).refusal == TrustRequired(o.project.digest)
      else Resolution(o).refusal.InvalidReferences? && exists e :: e in entries && !ReferenceOk(Chosen(o, e).value.reference)
  {
    hide SelectedProfile, SelectedFrom, OptionsOk, ValidProfile, Routed, ListedInOrder, Bindable, TouchesProject,
         BindingsOk, Chosen, ReferenceOk, Walk, AllNeed, RefusedAt, Step;
    SelectedExactly(o, p, source);
    SelectedIsValid(o);
    RoutedKeysAreOk(p);
    var entries := Routed(p);
    WalkIsFirstMatch(o, entries, source);
    if Bindable(o, entries) {
      ResolutionIsFirstMatch(o, p, source);
      var st := Walk(o, entries, Start(source)).value;
      SomeListed(o, entries, st);
    } else {
      var k := RefusedSomewhere(o, entries, source);
      WalkIsFirstMatch(o, entries[..k], source);
      StepRefusal(o, entries, k, source, Walk(o, entries[..k], Start(source)).value);
    }
  }

  /** A conflict can only come from the defaults of two versions of one adapter, under a key that no level defines. */
  lemma ConflictNeedsTwoVersions(o: Options) returns (p: Profile, source: Source)
    requires OptionsOk(o) && Resolution(o) == Refused(ConflictingDefaults)
    ensures SelectedFrom(o, p, source) && ValidProfile(p) && AllNeed(Routed(p))
    ensures exists e, f :: e in Routed(p) && f in Routed(p) && InConflict(o, e, f)
  {
    hide OptionsOk, ValidProfile, Routed, AllNeed, Chosen, Walk, Step, BindingsOk, SelectedFrom;
    SelectedIsValid(o);
    p, source := SelectedProfile(o).value.0, SelectedProfile(o).value.1;
    SelectedExactly(o, p, source);
    RoutedKeysAreOk(p);
    var entries := Routed(p);
    hide SelectedProfile;
    var k := RefusedSomewhere(o, entries, source);
    ConflictAt(o, entries, k, source);
  }

  predicate InConflict(o: Options, e: Entry, f: Entry) {
    && e.credentialSlot.Some? && f.credentialSlot.Some? && KeyOf(e) == KeyOf(f)
    && e.adapterVersion != f.adapterVersion
    && KeyOf(e) !in o.cli.bindings && KeyOf(e) !in o.project.bindings && KeyOf(e) !in o.user.bindings
    && e.credentialSlot.value in DefaultsOf(o, e) && f.credentialSlot.value in DefaultsOf(o, f)
    && DefaultsOf(o, e)[e.credentialSlot.value] != DefaultsOf(o, f)[f.credentialSlot.value]
  }

  lemma ConflictAt(o: Options, entries: seq<Entry>, k: nat, source: Source)
    requires AllNeed(entries) && k < |entries| && AllNeed(entries[..k]) && Walk(o, entries[..k], Start(source)).Accepted?
    requires Step(o, entries[k], Walk(o, entries[..k], Start(source)).value) == Refused(ConflictingDefaults)
    ensures exists e, f :: e in entries && f in entries && InConflict(o, e, f)
  {
    hide Chosen, Walk, Bindable;
    var f, before, st := entries[k], entries[..k], Walk(o, entries[..k], Start(source)).value;
    WalkIsFirstMatch(o, before, source);
    assert Needed(before, KeyOf(f));
    var e :| e in before && KeyOf(e) == KeyOf(f);
    assert e in entries && f in entries;
    LevelsDecide(o, e);
    LevelsDecide(o, f);
    assert InConflict(o, e, f);
  }

  // Shadowing

  /** The command line supplies whatever the project would: its profile, and every reference the route looks up. */
  predicate Shadowed(o: Options)
    requires OptionsOk(o) && SelectedProfile(o).Accepted?
  {
    SelectedIsValid(o);
    RoutedKeysAreOk(SelectedProfile(o).value.0);
    && (o.project.profile.Some? ==> o.cli.profile.Some?)
    && forall e :: e in Routed(SelectedProfile(o).value.0) && KeyOf(e) in o.project.bindings ==> KeyOf(e) in o.cli.bindings
  }

  lemma {:induction false} SameWalk(o: Options, without: Options, entries: seq<Entry>, source: Source)
    requires AllNeed(entries) && without == o.(project := EMPTY_LAYER)
    requires forall e :: e in entries && KeyOf(e) in o.project.bindings ==> KeyOf(e) in o.cli.bindings
    requires !source.Project?
    ensures Walk(without, entries, Start(source)) == Walk(o, entries, Start(source))
    ensures Walk(o, entries, Start(source)).Accepted? ==> !Walk(o, entries, Start(source)).value.projectUsed
  {
    if entries != [] {
      var e := entries[|entries| - 1];
      SameWalk(o, without, entries[..|entries| - 1], source);
      LevelsDecide(o, e);
      LevelsDecide(without, e);
      hide Chosen;
    }
  }

  lemma WalkNeverAsksForTrust(o: Options, entries: seq<Entry>, source: Source)
    requires AllNeed(entries)
    ensures Walk(o, entries, Start(source)).Refused? ==> !Walk(o, entries, Start(source)).refusal.TrustRequired?
  {
    hide AllNeed, Walk;
    if Walk(o, entries, Start(source)).Refused? {
      var k := RefusedSomewhere(o, entries, source);
    }
  }

  /** A fully shadowed project level changes nothing: not the result, not the refusal, not the need for trust. */
  lemma ShadowedProjectIsIdle(o: Options)
    requires OptionsOk(o) && SelectedProfile(o).Accepted? && Shadowed(o)
    ensures OptionsOk(o.(project := EMPTY_LAYER))
    ensures Resolution(o.(project := EMPTY_LAYER)) == Resolution(o)
    ensures Resolution(o).Accepted? ==> Resolution(o).value.projectDigest == ""
    ensures !(Resolution(o).Refused? && Resolution(o).refusal.TrustRequired?)
  {
    hide ValidProfile, Routed, Walk, BindingsOk, Chosen, AllNeed, KeyOk, ReferenceOk, Step;
    var without := o.(project := EMPTY_LAYER);
    assert SelectedProfile(without) == SelectedProfile(o);
    var (p, source) := SelectedProfile(o).value;
    SelectedIsValid(o);
    RoutedKeysAreOk(p);
    assert !source.Project?;
    SameWalk(o, without, Routed(p), source);
    WalkNeverAsksForTrust(o, Routed(p), source);
  }
}
