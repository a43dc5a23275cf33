/** The walker over decoded profile parameters: validateJSONValue (evaluator/profile). */
module ValueWalker {
  import opened Text
  import opened Trees
  import opened TokenWalker

  predicate LeafSound(leaf: Leaf) {
    match leaf
    case Text(text) => ValidString(text)
    case Atom(sound) => sound
  }

  /** Strings and keys are UTF-8 and numbers interoperable, everywhere in the value. */
  predicate Sound(v: Tree)
    decreases v
  {
    match v
    case Scalar(leaf) => LeafSound(leaf)
    case Array(items) => forall x :: x in items ==> Sound(x)
    case Object(members) => forall m :: m in members ==> ValidString(m.key) && Sound(m.value)
  }

  /** Go's byte order on strings. */
  predicate Below(a: string, b: string) {
    b != [] && (a == [] || a[0] < b[0] || (a[0] == b[0] && Below(a[1..], b[1..])))
  }

  function Insert(members: seq<Member>, m: Member): seq<Member> {
    if members == [] || !Below(m.key, members[|members| - 1].key) then members + [m]
    else Insert(members[..|members| - 1], m) + [members[|members| - 1]]
  }

  /** The members of a map in the order sort.Strings gives its keys. */
  function InKeyOrder(members: seq<Member>): (r: seq<Member>)
    ensures |r| == |members|
  {
    if members == [] then []
    else
      var r := Insert(InKeyOrder(members[..|members| - 1]), members[|members| - 1]);
      InsertKeeps(InKeyOrder(members[..|members| - 1]), members[|members| - 1]);
      r
  }

  lemma {:induction false} InsertKeeps(members: seq<Member>, m: Member)
    ensures |Insert(members, m)| == |members| + 1
    ensures forall y :: y in Insert(members, m) <==> y in members || y == m
    ensures NodesAmong(Insert(members, m)) == NodesAmong(members) + 1 + Nodes(m.value)
    ensures DepthAmong(Insert(members, m)) == Max(DepthAmong(members), Depth(m.value))
  {
    hide Below, Nodes, Depth;
    if members == [] || !Below(m.key, members[|members| - 1].key) {
      assert (members + [m])[..|members|] == members;
    } else {
      InsertKeeps(members[..|members| - 1], m);
      assert Insert(members, m)[..|members|] == Insert(members[..|members| - 1], m);
      assert members == members[..|members| - 1] + [members[|members| - 1]];
    }
  }

  lemma {:induction false} InsertKeepsKeys(members: seq<Member>, m: Member)
    ensures Keys(Insert(members, m)) == Keys(members) + {m.key}
    ensures KeysDiffer(Insert(members, m)) <==> KeysDiffer(members) && m.key !in Keys(members)
  {
    hide Below, KeysDiffer, Keys;
    KeysOneMore(members, m);
    if members == [] || !Below(m.key, members[|members| - 1].key) {
      DifferOneMore(members, m);
    } else {
      var init, last := members[..|members| - 1], members[|members| - 1];
      assert members == init + [last];
      InsertKeepsKeys(init, m);
      KeysOneMore(init, last);
      KeysOneMore(Insert(init, m), last);
      DifferOneMore(init, last);
      DifferOneMore(Insert(init, m), last);
    }
  }

  /** The order in which a map is walked decides nothing. */
  lemma {:induction false} OrderKeeps(members: seq<Member>)
    ensures forall y :: y in InKeyOrder(members) <==> y in members
    ensures NodesAmong(InKeyOrder(members)) == NodesAmong(members)
    ensures DepthAmong(InKeyOrder(members)) == DepthAmong(members)
    ensures Keys(InKeyOrder(members)) == Keys(members)
    ensures KeysDiffer(InKeyOrder(members)) <==> KeysDiffer(members)
  {
    hide Insert, Nodes, Depth;
    if members != [] {
      var init, last := members[..|members| - 1], members[|members| - 1];
      assert members == init + [last];
      OrderKeeps(init);
      InsertKeeps(InKeyOrder(init), last);
      InsertKeepsKeys(InKeyOrder(init), last);
      KeysOneMore(init, last);
      DifferOneMore(init, last);
    }
  }

  predicate SoundMembers(members: seq<Member>) {
    forall m :: m in members ==> ValidString(m.key) && Sound(m.value)
  }

  predicate SoundItems(items: seq<Tree>) {
    forall x :: x in items ==> Sound(x)
  }

  /** What the walker accepts with `n` nodes counted and `d` containers open. */
  predicate AcceptsValue(v: Tree, n: nat, d: nat) {
    Fits(v, n, d) && Sound(v)
  }

  method ValidateJsonValue(value: Tree, depth: nat, counter: Counter) returns (ok: bool)
    requires depth <= MAX_NESTING_DEPTH
    requires NoRepeatedKey(value)
    modifies counter
    ensures ok <==> AcceptsValue(value, old(counter.nodes), depth)
    ensures ok ==> counter.nodes == old(counter.nodes) + Nodes(value)
    decreases value
  {
    hide Fits, Sound, Nodes, NodesIn, NodesAmong, FitsItems, FitsMembers, Keys, InKeyOrder, NoRepeatedKey, LeafSound,
         SoundMembers, SoundItems;
    ghost var n := counter.nodes;
    FirstValue(value, n, depth);
    counter.nodes := counter.nodes + 1;
    if counter.nodes > MAX_PARSED_NODES {
      return false;
    }
    match value
    case Scalar(leaf) =>
      return LeafSound(leaf);
    case Object(members) =>
      if depth + 1 > MAX_NESTING_DEPTH {
        return false;
      }
      var sorted := InKeyOrder(members);
      InOrder(members);
      ObjectFits(members, n, depth);
      for i := 0 to |sorted|
        invariant FitsMembers(sorted[..i], n, depth) && SoundMembers(sorted[..i])
        invariant counter.nodes == n + 1 + NodesAmong(sorted[..i])
      {
        NextMember(sorted, i, n, depth);
        if !ValidString(sorted[i].key) {
          return false;
        }
        counter.nodes := counter.nodes + 1;
        var valid := ValidateJsonValue(sorted[i].value, depth + 1, counter);
        if !valid {
          return false;
        }
      }
      LastMember(members, n, depth);
      return true;
    case Array(items) =>
      if depth + 1 > MAX_NESTING_DEPTH {
        return false;
      }
      for i := 0 to |items|
        invariant FitsItems(items[..i], n, depth) && SoundItems(items[..i])
        invariant counter.nodes == n + 1 + NodesIn(items[..i])
      {
        NextItem(items, i, n, depth);
        var valid := ValidateJsonValue(items[i], depth + 1, counter);
        if !valid {
          return false;
        }
      }
      LastItem(items, n, depth);
      return true;
  }

  lemma FirstValue(v: Tree, n: nat, d: nat)
    requires d <= MAX_NESTING_DEPTH
    ensures n + 1 > MAX_PARSED_NODES ==> !Fits(v, n, d)
    ensures !v.Scalar? && d + 1 > MAX_NESTING_DEPTH ==> !Fits(v, n, d)
    ensures v.Scalar? && n + 1 <= MAX_PARSED_NODES ==> Fits(v, n, d) && Nodes(v) == 1 && Sound(v) == LeafSound(v.leaf)
    ensures n + 1 <= MAX_PARSED_NODES && d + 1 <= MAX_NESTING_DEPTH ==> FitsItems([], n, d) && FitsMembers([], n, d)
    ensures NodesIn([]) == 0 && NodesAmong([]) == 0 && SoundItems([]) && SoundMembers([])
  {
    hide LeafSound;
  }

  lemma NextItem(items: seq<Tree>, i: nat, n: nat, d: nat)
    requires i < |items| && NoRepeatedKey(Array(items))
    requires FitsItems(items[..i], n, d) && SoundItems(items[..i])
    ensures NoRepeatedKey(items[i])
    ensures var before := NodesIn(items[..i]);
      && NodesIn(items[..i + 1]) == before + Nodes(items[i])
      && (Fits(items[i], n + 1 + before, d + 1) && Sound(items[i]) ==>
          FitsItems(items[..i + 1], n, d) && SoundItems(items[..i + 1]))
      && (Fits(Array(items), n, d) && Sound(Array(items)) ==>
          Fits(items[i], n + 1 + before, d + 1) && Sound(items[i]))
  {
    hide Fits, FitsItems, NodesIn, Nodes, Sound;
    assert items[..i + 1] == items[..i] + [items[i]];
    FitsOneMoreItem(items[..i], items[i], n, d);
    ArrayFits(items, n, d);
    if FitsItems(items, n, d) {
      FitsPrefixItems(items, i + 1, n, d);
    }
  }

  lemma NextMember(sorted: seq<Member>, i: nat, n: nat, d: nat)
    requires i < |sorted| && KeysDiffer(sorted)
    requires FitsMembers(sorted[..i], n, d) && SoundMembers(sorted[..i])
    ensures var m, before := sorted[i], NodesAmong(sorted[..i]);
      && NodesAmong(sorted[..i + 1]) == before + 1 + Nodes(m.value)
      && (Fits(m.value, n + 2 + before, d + 1) && ValidString(m.key) && Sound(m.value) ==>
          FitsMembers(sorted[..i + 1], n, d) && SoundMembers(sorted[..i + 1]))
      && (FitsMembers(sorted, n, d) ==> Fits(m.value, n + 2 + before, d + 1))
      && (SoundMembers(sorted) ==> ValidString(m.key) && Sound(m.value))
  {
    hide ValidString, Fits, FitsMembers, NodesAmong, Nodes, Keys, KeysDiffer, Sound;
    assert sorted[..i + 1] == sorted[..i] + [sorted[i]];
    FitsOneMoreMember(sorted[..i], sorted[i], n, d);
    if FitsMembers(sorted, n, d) {
      FitsPrefixMembers(sorted, i + 1, n, d);
    }
    KeyIsNew(sorted, i);
  }

  lemma KeyIsNew(members: seq<Member>, i: nat)
    requires i < |members| && KeysDiffer(members)
    ensures members[i].key !in Keys(members[..i])
  {
    forall m | m in members[..i] ensures m.key != members[i].key {
      var j :| 0 <= j < i && members[j] == m;
    }
  }

  /** The members in key order stand for the whole object: same limits, same members, still distinct keys. */
  lemma InOrder(members: seq<Member>)
    requires NoRepeatedKey(Object(members))
    ensures KeysDiffer(InKeyOrder(members))
    ensures forall i :: 0 <= i < |members| ==>
                          InKeyOrder(members)[i] in members && NoRepeatedKey(InKeyOrder(members)[i].value)
  {
    hide InKeyOrder, NodesAmong, DepthAmong, KeysDiffer, Keys;
    OrderKeeps(members);
    forall i | 0 <= i < |members| ensures InKeyOrder(members)[i] in members && NoRepeatedKey(InKeyOrder(members)[i].value) {
      assert InKeyOrder(members)[i] in InKeyOrder(members);
    }
  }

  lemma ArrayFits(items: seq<Tree>, n: nat, d: nat)
    ensures Fits(Array(items), n, d) <==> FitsItems(items, n, d)
    ensures Nodes(Array(items)) == 1 + NodesIn(items)
    ensures Sound(Array(items)) <==> SoundItems(items)
  {
    hide NodesIn, DepthIn;
  }

  lemma ObjectFits(members: seq<Member>, n: nat, d: nat)
    ensures Fits(Object(members), n, d) <==> FitsMembers(InKeyOrder(members), n, d)
    ensures Nodes(Object(members)) == 1 + NodesAmong(InKeyOrder(members))
    ensures Sound(Object(members)) <==> SoundMembers(InKeyOrder(members))
  {
    hide NodesAmong, DepthAmong, KeysDiffer, InKeyOrder, ValidString;
    OrderKeeps(members);
  }

  lemma LastItem(items: seq<Tree>, n: nat, d: nat)
    requires FitsItems(items[..|items|], n, d) && SoundItems(items[..|items|])
    ensures Fits(Array(items), n, d) && Sound(Array(items)) && Nodes(Array(items)) == 1 + NodesIn(items[..|items|])
  {
    assert items[..|items|] == items;
    ArrayFits(items, n, d);
    hide Fits, FitsItems, Sound, Nodes, NodesIn;
  }

  lemma LastMember(members: seq<Member>, n: nat, d: nat)
    requires var sorted := InKeyOrder(members);
      FitsMembers(sorted[..|sorted|], n, d) && SoundMembers(sorted[..|sorted|])
    ensures var sorted := InKeyOrder(members);
      Fits(Object(members), n, d) && Sound(Object(members)) && Nodes(Object(members)) == 1 + NodesAmong(sorted[..|sorted|])
  {
    var sorted := InKeyOrder(members);
    assert sorted[..|sorted|] == sorted;
    ObjectFits(members, n, d);
    hide Fits, FitsMembers, Sound, Nodes, NodesAmong;
  }
}
