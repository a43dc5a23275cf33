/** One document, three readers: the same verdict whether it comes as JSON, as YAML or as decoded parameters. */
module WalkersAgree {
  import opened Wrappers
  import opened Trees
  import opened TokenWalker
  import opened YamlWalker
  import opened ValueWalker

  function TextNode(text: string): Node {
    Node(ScalarNode, false, false, "!!str", text, Textual, [])
  }

  /** A value written as a plain YAML node. */
  function AsNode(v: Tree): Node
    decreases v
  {
    match v
    case Scalar(Text(text)) => TextNode(text)
    case Scalar(Atom(sound)) => Node(ScalarNode, false, false, "!!int", "", Plain(sound), [])
    case Array(items) => Node(SequenceNode, false, false, "!!seq", "", Unresolved, AsNodes(items))
    case Object(members) => Node(MappingNode, false, false, "!!map", "", Unresolved, AsPairs(members))
  }

  function AsNodes(items: seq<Tree>): (r: seq<Node>)
    ensures |r| == |items|
    decreases items
  {
    if items == [] then [] else AsNodes(items[..|items| - 1]) + [AsNode(items[|items| - 1])]
  }

  function AsPairs(members: seq<Member>): (r: seq<Node>)
    ensures |r| == 2 * |members|
    decreases members
  {
    if members == [] then []
    else
      var last := members[|members| - 1];
      AsPairs(members[..|members| - 1]) + [TextNode(last.key), AsNode(last.value)]
  }

  lemma {:induction false} DenotesAsNode(v: Tree)
    requires Sound(v)
    ensures Denote(AsNode(v)) == Some(v)
    decreases v, 0
  {
    hide Text.ValidString, DenoteItems, DenoteMembers, AsNodes, AsPairs;
    match v
    case Scalar(_) =>
    case Array(items) =>
      assert items[..0] == [];
      DenotesItems(items, 0);
    case Object(members) =>
      assert members[..0] == [];
      DenotesMembers(members, 0);
  }

  lemma {:induction false} ItemAt(items: seq<Tree>, i: nat)
    requires i < |items|
    ensures AsNodes(items)[i] == AsNode(items[i])
  {
    if i < |items| - 1 {
      ItemAt(items[..|items| - 1], i);
    }
  }

  lemma {:induction false} PairAt(members: seq<Member>, i: nat)
    requires i < |members|
    ensures AsPairs(members)[2 * i] == TextNode(members[i].key)
    ensures AsPairs(members)[2 * i + 1] == AsNode(members[i].value)
  {
    hide AsNode;
    if i < |members| - 1 {
      PairAt(members[..|members| - 1], i);
    }
  }

  lemma {:induction false} DenotesItems(items: seq<Tree>, i: nat)
    requires i <= |items| && SoundItems(items)
    ensures DenoteItems(AsNodes(items), i, items[..i]) == Some(items)
    decreases items, |items| - i
  {
    hide AsNode, AsNodes, Denote, Sound;
    if i == |items| {
      assert items[..i] == items;
    } else {
      ItemAt(items, i);
      DenotesAsNode(items[i]);
      DenotesItems(items, i + 1);
      assert items[..i] + [items[i]] == items[..i + 1];
    }
  }

  lemma {:induction false} DenotesMembers(members: seq<Member>, i: nat)
    requires i <= |members| && SoundMembers(members)
    ensures DenoteMembers(AsPairs(members), 2 * i, members[..i]) == Some(members)
    decreases members, |members| - i
  {
    hide AsPairs, Denote, Sound, Text.ValidString;
    if i == |members| {
      assert members[..i] == members;
    } else {
      PairAt(members, i);
      DenotesAsNode(members[i].value);
      DenotesMembers(members, i + 1);
      assert members[..i] + [Member(members[i].key, members[i].value)] == members[..i + 1];
    }
  }

  /** Whatever the format, the verdict on a value is its recursive bound; decoded parameters must also be sound. */
  lemma SameVerdict(v: Tree, tokens: seq<Token>, node: Node)
    requires tokens == Tokens(v)
    requires Denote(node) == Some(v)
    ensures Accepts(tokens, 0, 0, 0) <==> Bounded(v)
    ensures Admitted(node, 0, 0).Some? <==> Bounded(v)
    ensures AcceptsValue(v, 0, 0) <==> Bounded(v) && Sound(v)
  {
    hide Fits, Tokens;
    assert tokens[0..|tokens|] == tokens;
    ReadsSpelling(tokens, 0, v);
  }
}
