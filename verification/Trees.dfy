/**
 The values that JSON documents, YAML documents and profile parameters denote, with plain recursive
 definitions of what the strict-source walkers bound: parsed nodes, container depth, repeated keys.
 */
module Trees {

  const MAX_PARSED_NODES := 10_000
  const MAX_NESTING_DEPTH := 32

  /** Strings keep their bytes; of null, booleans and numbers only interoperability is kept. */
  datatype Leaf = Text(text: string) | Atom(sound: bool)

  datatype Member = Member(key: string, value: Tree)

  datatype Tree = Scalar(leaf: Leaf) | Array(items: seq<Tree>) | Object(members: seq<Member>)

  function Max(a: nat, b: nat): nat {
    if a < b then b else a
  }

  function Keys(members: seq<Member>): set<string> {
    set m | m in members :: m.key
  }

  predicate KeysDiffer(members: seq<Member>) {
    forall i, j :: 0 <= i < j < |members| ==> members[i].key != members[j].key
  }

  /** Values plus keys. */
  function Nodes(v: Tree): nat
    decreases v
  {
    match v
    case Scalar(_) => 1
    case Array(items) => 1 + NodesIn(items)
    case Object(members) => 1 + NodesAmong(members)
  }

  function NodesIn(items: seq<Tree>): nat
    decreases items
  {
    if items == [] then 0 else NodesIn(items[..|items| - 1]) + Nodes(items[|items| - 1])
  }

  function NodesAmong(members: seq<Member>): nat
    decreases members
  {
    if members == [] then 0 else NodesAmong(members[..|members| - 1]) + 1 + Nodes(members[|members| - 1].value)
  }

  /** Containers on the longest path. */
  function Depth(v: Tree): nat
    decreases v
  {
    match v
    case Scalar(_) => 0
    case Array(items) => 1 + DepthIn(items)
    case Object(members) => 1 + DepthAmong(members)
  }

  function DepthIn(items: seq<Tree>): nat
    decreases items
  {
    if items == [] then 0 else Max(DepthIn(items[..|items| - 1]), Depth(items[|items| - 1]))
  }

  function DepthAmong(members: seq<Member>): nat
    decreases members
  {
    if members == [] then 0 else Max(DepthAmong(members[..|members| - 1]), Depth(members[|members| - 1].value))
  }

  predicate NoRepeatedKey(v: Tree)
    decreases v
  {
    match v
    case Scalar(_) => true
    case Array(items) => forall x :: x in items ==> NoRepeatedKey(x)
    case Object(members) => KeysDiffer(members) && forall m :: m in members ==> NoRepeatedKey(m.value)
  }

  /** The room left for `v` when `n` nodes are counted already and `d` containers are open around it. */
  predicate Fits(v: Tree, n: nat, d: nat) {
    n + Nodes(v) <= MAX_PARSED_NODES && d + Depth(v) <= MAX_NESTING_DEPTH && NoRepeatedKey(v)
  }

  /** A document within the limits. */
  predicate Bounded(v: Tree) {
    Fits(v, 0, 0)
  }

  predicate FitsItems(items: seq<Tree>, n: nat, d: nat) {
    && n + 1 + NodesIn(items) <= MAX_PARSED_NODES
    && d + 1 + DepthIn(items) <= MAX_NESTING_DEPTH
    && forall x :: x in items ==> NoRepeatedKey(x)
  }

  predicate FitsMembers(members: seq<Member>, n: nat, d: nat) {
    && n + 1 + NodesAmong(members) <= MAX_PARSED_NODES
    && d + 1 + DepthAmong(members) <= MAX_NESTING_DEPTH
    && KeysDiffer(members)
    && forall m :: m in members ==> NoRepeatedKey(m.value)
  }

  /** One more item fits exactly when what came before fits and it fits after them. */
  lemma FitsOneMoreItem(items: seq<Tree>, x: Tree, n: nat, d: nat)
    ensures FitsItems(items + [x], n, d) <==> FitsItems(items, n, d) && Fits(x, n + 1 + NodesIn(items), d + 1)
    ensures NodesIn(items + [x]) == NodesIn(items) + Nodes(x)
  {
    var all := items + [x];
    assert all[..|all| - 1] == items;
    assert forall y :: y in all <==> y in items || y == x;
  }

  lemma FitsOneMoreMember(members: seq<Member>, m: Member, n: nat, d: nat)
    ensures FitsMembers(members + [m], n, d) <==>
            FitsMembers(members, n, d) && m.key !in Keys(members) && Fits(m.value, n + 2 + NodesAmong(members), d + 1)
    ensures NodesAmong(members + [m]) == NodesAmong(members) + 1 + Nodes(m.value)
    ensures Keys(members + [m]) == Keys(members) + {m.key}
  {
    var all := members + [m];
    assert all[..|all| - 1] == members;
    assert forall y :: y in all <==> y in members || y == m;
    DifferOneMore(members, m);
  }

  lemma KeysOneMore(members: seq<Member>, m: Member)
    ensures Keys(members + [m]) == Keys(members) + {m.key}
  {
    var all := members + [m];
    assert forall y :: y in all <==> y in members || y == m;
  }

  lemma DifferOneMore(members: seq<Member>, m: Member)
    ensures KeysDiffer(members + [m]) <==> KeysDiffer(members) && m.key !in Keys(members)
  {
    var all := members + [m];
    if KeysDiffer(all) {
      forall i, j | 0 <= i < j < |members| ensures members[i].key != members[j].key {
        assert all[i].key != all[j].key;
      }
      forall k | k in members ensures k.key != m.key {
        var i :| 0 <= i < |members| && members[i] == k;
        assert all[i].key != all[|members|].key;
      }
    }
    if KeysDiffer(members) && m.key !in Keys(members) {
      forall i, j | 0 <= i < j < |all| ensures all[i].key != all[j].key {
        if j == |members| {
          assert members[i] in members;
        }
      }
    }
  }

  /** A prefix of a list that fits also fits, so that the first failure of a walker is final. */
  lemma {:induction false} FitsPrefixItems(items: seq<Tree>, k: nat, n: nat, d: nat)
    requires k <= |items| && FitsItems(items, n, d)
    ensures FitsItems(items[..k], n, d)
  {
    hide FitsItems, Fits, NodesIn;
    if k < |items| {
      var init := items[..|items| - 1];
      assert init + [items[|items| - 1]] == items;
      FitsOneMoreItem(init, items[|items| - 1], n, d);
      FitsPrefixItems(init, k, n, d);
      assert init[..k] == items[..k];
    } else {
      assert items[..k] == items;
    }
  }

  lemma {:induction false} FitsPrefixMembers(members: seq<Member>, k: nat, n: nat, d: nat)
    requires k <= |members| && FitsMembers(members, n, d)
    ensures FitsMembers(members[..k], n, d)
  {
    hide FitsMembers, Fits, NodesAmong, Keys;
    if k < |members| {
      var init := members[..|members| - 1];
      assert init + [members[|members| - 1]] == members;
      FitsOneMoreMember(init, members[|members| - 1], n, d);
      FitsPrefixMembers(init, k, n, d);
      assert init[..k] == members[..k];
    } else {
      assert members[..k] == members;
    }
  }
}
