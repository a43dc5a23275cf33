/** The walker over a parsed YAML document: yamlNodeValue (internal/strictsource). */
module YamlWalker {
  import opened Wrappers
  import opened Trees
  import opened TokenWalker

  datatype Kind = MappingNode | SequenceNode | ScalarNode | AliasNode | DocumentNode

  /** What resolving a scalar's tag and spelling gives: a string, another JSON scalar, or an error. */
  datatype Resolution = Textual | Plain(sound: bool) | Unresolved

  /** `linked` is an anchor or an alias; `tagged` is an explicit tag in the source. */
  datatype Node = Node(kind: Kind, linked: bool, tagged: bool, tag: string, value: string, scalar: Resolution,
                       content: seq<Node>)
  {
    predicate ForeignTag() {
      tagged && tag !in EXPLICIT_TAGS
    }

    /** Linked, an alias, or under a tag outside the JSON model. */
    predicate OutsideJson() {
      linked || kind.AliasNode? || ForeignTag()
    }

    predicate OpensMapping() {
      kind.MappingNode? && tag in MAP_TAGS && |content| % 2 == 0
    }

    predicate OpensSequence() {
      kind.SequenceNode? && tag in SEQ_TAGS
    }

    /** A mapping key must be a plain string and not a merge key. */
    predicate IsKey() {
      !linked && kind.ScalarNode? && scalar.Textual? && tag !in MERGE_TAGS
    }

    function Leaf(): (r: Option<Leaf>) {
      match scalar
      case Textual => Some(Text(value))
      case Plain(sound) => if sound then Some(Atom(true)) else None
      case Unresolved => None
    }
  }

  const MAP_TAGS: set<string> := {"!!map", "tag:yaml.org,2002:map"}
  const SEQ_TAGS: set<string> := {"!!seq", "tag:yaml.org,2002:seq"}
  const MERGE_TAGS: set<string> := {"!!merge", "tag:yaml.org,2002:merge"}
  const EXPLICIT_TAGS: set<string> :=
    MAP_TAGS + SEQ_TAGS +
    {"!!str", "!!null", "!!bool", "!!int", "!!float", "tag:yaml.org,2002:str", "tag:yaml.org,2002:null",
     "tag:yaml.org,2002:bool", "tag:yaml.org,2002:int", "tag:yaml.org,2002:float"}

  /** The JSON value a node denotes, if the node stays inside the JSON model. */
  function Denote(node: Node): Option<Tree>
    decreases node, 0
  {
    if node.OutsideJson() then None
    else if node.OpensMapping() then
      var members := DenoteMembers(node.content, 0, []);
      if members.None? then None else Some(Object(members.value))
    else if node.OpensSequence() then
      var items := DenoteItems(node.content, 0, []);
      if items.None? then None else Some(Array(items.value))
    else if node.kind.ScalarNode? && node.Leaf().Some? then Some(Scalar(node.Leaf().value))
    else None
  }

  function DenoteItems(content: seq<Node>, i: nat, done: seq<Tree>): (r: Option<seq<Tree>>)
    requires i <= |content|
    ensures r.Some? ==> done <= r.value
    decreases content, |content| - i
  {
    if i == |content| then Some(done)
    else
      var item := Denote(content[i]);
      if item.None? then None else DenoteItems(content, i + 1, done + [item.value])
  }

  function DenoteMembers(content: seq<Node>, i: nat, done: seq<Member>): (r: Option<seq<Member>>)
    requires i <= |content| && |content| % 2 == 0 && i % 2 == 0
    ensures r.Some? ==> done <= r.value
    decreases content, |content| - i
  {
    if i == |content| then Some(done)
    else if !content[i].IsKey() then None
    else
      var value := Denote(content[i + 1]);
      if value.None? then None else DenoteMembers(content, i + 2, done + [Member(content[i].value, value.value)])
  }

  /** The value to return for a node met with `n` nodes counted and `d` containers open. */
  function Admitted(node: Node, n: nat, d: nat): Option<Tree> {
    if Denote(node).Some? && Fits(Denote(node).value, n, d) then Denote(node) else None
  }

  /** The checks of a mapping key, in order. */
  method CheckKey(node: Node) returns (ok: bool)
    ensures ok <==> node.IsKey()
  {
    if node.linked || node.kind != ScalarNode || node.scalar != Textual {
      return false;
    }
    return node.tag != "!!merge" && node.tag != "tag:yaml.org,2002:merge";
  }

  /** yamlScalarValue, once the scalar's kind is resolved. */
  method ScalarValue(node: Node) returns (r: Option<Tree>)
    ensures r == if node.Leaf().Some? then Some(Scalar(node.Leaf().value)) else None
  {
    match node.scalar
    case Textual =>
      r := Some(Scalar(Text(node.value)));
    case Plain(sound) =>
      r := if sound then Some(Scalar(Atom(true))) else None;
    case Unresolved =>
      r := None;
  }

  method NodeValue(node: Node, depth: nat, counter: Counter) returns (r: Option<Tree>)
    requires depth <= MAX_NESTING_DEPTH
    modifies counter
    ensures r == Admitted(node, old(counter.nodes), depth)
    ensures r.Some? ==> counter.nodes == old(counter.nodes) + Nodes(r.value)
    decreases node
  {
    hide Fits, Denote, DenoteItems, DenoteMembers, Nodes, NodesIn, NodesAmong, FitsItems, FitsMembers, Keys;
    hide Node.IsKey, Node.Leaf;
    ghost var n := counter.nodes;
    FirstNode(node, n, depth);
    counter.nodes := counter.nodes + 1;
    if counter.nodes > MAX_PARSED_NODES {
      return None;
    }
    if node.linked || node.kind.AliasNode? {
      return None;
    }
    if node.tagged && node.tag !in EXPLICIT_TAGS {
      return None;
    }
    match node.kind
    case MappingNode =>
      if depth + 1 > MAX_NESTING_DEPTH {
        return None;
      }
      if node.tag !in MAP_TAGS {
        return None;
      }
      if |node.content| % 2 != 0 {
        return None;
      }
      var members: seq<Member> := [];
      var result: map<string, Tree> := map[];
      var i := 0;
      while i < |node.content|
        invariant 0 <= i <= |node.content| && i % 2 == 0
        invariant DenoteMembers(node.content, 0, []) == DenoteMembers(node.content, i, members)
        invariant FitsMembers(members, n, depth) && counter.nodes == n + 1 + NodesAmong(members)
        invariant result.Keys == Keys(members)
      {
        NextMember(node, i, members, n, depth);
        var keyOk := CheckKey(node.content[i]);
        if !keyOk {
          return None;
        }
        var key := node.content[i].value;
        if key in result {
          return None;
        }
        counter.nodes := counter.nodes + 1;
        if counter.nodes > MAX_PARSED_NODES {
          return None;
        }
        var value := NodeValue(node.content[i + 1], depth + 1, counter);
        if value.None? {
          return None;
        }
        result := result[key := value.value];
        members := members + [Member(key, value.value)];
        i := i + 2;
      }
      LastMember(node, members, n, depth);
      return Some(Object(members));
    case SequenceNode =>
      if depth + 1 > MAX_NESTING_DEPTH {
        return None;
      }
      if node.tag !in SEQ_TAGS {
        return None;
      }
      var items: seq<Tree> := [];
      for i := 0 to |node.content|
        invariant DenoteItems(node.content, 0, []) == DenoteItems(node.content, i, items)
        invariant FitsItems(items, n, depth) && counter.nodes == n + 1 + NodesIn(items)
      {
        NextItem(node, i, items, n, depth);
        var item := NodeValue(node.content[i], depth + 1, counter);
        if item.None? {
          return None;
        }
        items := items + [item.value];
      }
      LastItem(node, items, n, depth);
      return Some(Array(items));
    case ScalarNode =>
      r := ScalarValue(node);
    case _ =>
      r := None;
  }

  /** What the node itself and the counter decide, and where the loops start. */
  lemma FirstNode(node: Node, n: nat, d: nat)
    requires d <= MAX_NESTING_DEPTH
    ensures n + 1 > MAX_PARSED_NODES || node.OutsideJson() ==> Admitted(node, n, d).None?
    ensures (node.kind.MappingNode? && !node.OpensMapping()) || (node.kind.SequenceNode? && !node.OpensSequence()) ==>
              Admitted(node, n, d).None?
    ensures (node.kind.MappingNode? || node.kind.SequenceNode?) && d + 1 > MAX_NESTING_DEPTH ==> Admitted(node, n, d).None?
    ensures node.kind.DocumentNode? ==> Admitted(node, n, d).None?
    ensures node.kind.ScalarNode? && !node.OutsideJson() && n + 1 <= MAX_PARSED_NODES ==>
              Admitted(node, n, d) == if node.Leaf().Some? then Some(Scalar(node.Leaf().value)) else None
    ensures node.Leaf().Some? ==> Nodes(Scalar(node.Leaf().value)) == 1
    ensures n + 1 <= MAX_PARSED_NODES && d + 1 <= MAX_NESTING_DEPTH ==> FitsItems([], n, d) && FitsMembers([], n, d)
    ensures NodesIn([]) == 0 && NodesAmong([]) == 0 && Keys([]) == {}
  {
    hide DenoteItems, DenoteMembers, Node.ForeignTag;
  }

  lemma NextItem(node: Node, i: nat, done: seq<Tree>, n: nat, d: nat)
    requires !node.OutsideJson() && node.OpensSequence() && i < |node.content|
    requires DenoteItems(node.content, 0, []) == DenoteItems(node.content, i, done)
    requires FitsItems(done, n, d)
    ensures var item := Admitted(node.content[i], n + 1 + NodesIn(done), d + 1);
      && (item.None? ==> Admitted(node, n, d).None?)
      && (item.Some? ==>
          && FitsItems(done + [item.value], n, d)
          && NodesIn(done + [item.value]) == NodesIn(done) + Nodes(item.value)
          && DenoteItems(node.content, 0, []) == DenoteItems(node.content, i + 1, done + [item.value]))
  {
    hide FitsItems, Fits, NodesIn, Nodes, Node.ForeignTag;
    Opened(node, n, d);
    var item := Denote(node.content[i]);
    if item.Some? {
      FitsOneMoreItem(done, item.value, n, d);
      if Admitted(node, n, d).Some? {
        var all := DenoteItems(node.content, i, done).value;
        FitsPrefixItems(all, |done| + 1, n, d);
        assert all[..|done| + 1] == done + [item.value];
      }
    }
  }

  ghost predicate MemberDecides(node: Node, i: nat, done: seq<Member>, n: nat, d: nat)
    requires i % 2 == 0 && i + 1 < |node.content| && |node.content| % 2 == 0
  {
    var key, counted := node.content[i].value, n + 2 + NodesAmong(done);
    var value := Admitted(node.content[i + 1], counted, d + 1);
    && (!node.content[i].IsKey() || key in Keys(done) || value.None? || counted > MAX_PARSED_NODES ==>
        Admitted(node, n, d).None?)
    && (node.content[i].IsKey() && key !in Keys(done) && value.Some? ==>
        var more := done + [Member(key, value.value)];
        && FitsMembers(more, n, d) && NodesAmong(more) == NodesAmong(done) + 1 + Nodes(value.value)
        && Keys(more) == Keys(done) + {key}
        && DenoteMembers(node.content, 0, []) == DenoteMembers(node.content, i + 2, more))
  }

  lemma NextMember(node: Node, i: nat, done: seq<Member>, n: nat, d: nat)
    requires !node.OutsideJson() && node.OpensMapping() && i % 2 == 0 && i + 1 < |node.content|
    requires DenoteMembers(node.content, 0, []) == DenoteMembers(node.content, i, done)
    requires FitsMembers(done, n, d)
    ensures MemberDecides(node, i, done, n, d)
  {
    hide FitsMembers, Fits, NodesAmong, Nodes, Keys, Node.IsKey, Node.ForeignTag;
    Opened(node, n, d);
    var value := Denote(node.content[i + 1]);
    if value.Some? {
      var m := Member(node.content[i].value, value.value);
      FitsOneMoreMember(done, m, n, d);
      FitsCounted(value.value, n + 2 + NodesAmong(done), d + 1);
      if Admitted(node, n, d).Some? {
        var all := DenoteMembers(node.content, i, done).value;
        FitsPrefixMembers(all, |done| + 1, n, d);
        assert all[..|done| + 1] == done + [m];
      }
    }
  }

  lemma FitsCounted(v: Tree, n: nat, d: nat)
    ensures Fits(v, n, d) ==> n <= MAX_PARSED_NODES
  {
    hide Nodes;
  }

  /** A container is admitted exactly when its contents denote something that fits inside it. */
  lemma Opened(node: Node, n: nat, d: nat)
    requires !node.OutsideJson()
    ensures node.OpensMapping() ==>
              var members := DenoteMembers(node.content, 0, []);
              Admitted(node, n, d) ==
              if members.Some? && FitsMembers(members.value, n, d) then Some(Object(members.value)) else None
    ensures node.OpensSequence() ==>
              var items := DenoteItems(node.content, 0, []);
              Admitted(node, n, d) ==
              if items.Some? && FitsItems(items.value, n, d) then Some(Array(items.value)) else None
  {
    hide DenoteItems, DenoteMembers, NodesIn, NodesAmong, DepthIn, DepthAmong, KeysDiffer, Node.ForeignTag;
  }

  lemma LastItem(node: Node, done: seq<Tree>, n: nat, d: nat)
    requires !node.OutsideJson() && node.OpensSequence()
    requires DenoteItems(node.content, 0, []) == DenoteItems(node.content, |node.content|, done)
    requires FitsItems(done, n, d)
    ensures Admitted(node, n, d) == Some(Array(done)) && Nodes(Array(done)) == 1 + NodesIn(done)
  {
    hide FitsItems, NodesIn, Node.ForeignTag;
    Opened(node, n, d);
    assert DenoteItems(node.content, |node.content|, done) == Some(done);
  }

  lemma LastMember(node: Node, done: seq<Member>, n: nat, d: nat)
    requires !node.OutsideJson() && node.OpensMapping()
    requires DenoteMembers(node.content, 0, []) == DenoteMembers(node.content, |node.content|, done)
    requires FitsMembers(done, n, d)
    ensures Admitted(node, n, d) == Some(Object(done)) && Nodes(Object(done)) == 1 + NodesAmong(done)
  {
    hide FitsMembers, NodesAmong, Node.ForeignTag;
    Opened(node, n, d);
    assert DenoteMembers(node.content, |node.content|, done) == Some(done);
  }
}
