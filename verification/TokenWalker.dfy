/** The walkers over decoder tokens: parseJSONValue (internal/strictsource) and validateValue (internal/jsonvalue). */
module TokenWalker {
  import opened Wrappers
  import opened Trees

  datatype Container = Brace | Bracket

  datatype Token = Value(leaf: Leaf) | Open(container: Container) | Close(container: Container)

  datatype Got<+T> = Got(value: T, next: nat)

  /** The value spelled from token `p` on, if those tokens spell one. */
  function ReadValue(tokens: seq<Token>, p: nat): (r: Option<Got<Tree>>)
    ensures r.Some? ==> p < r.value.next <= |tokens|
    decreases |tokens| - p, 0
  {
    if p >= |tokens| then None
    else match tokens[p]
      case Value(leaf) => Some(Got(Scalar(leaf), p + 1))
      case Open(Bracket) =>
        var r := ReadItems(tokens, p + 1, []);
        if r.None? then None else Some(Got(Array(r.value.value), r.value.next))
      case Open(Brace) =>
        var r := ReadMembers(tokens, p + 1, []);
        if r.None? then None else Some(Got(Object(r.value.value), r.value.next))
      case Close(_) => None
  }

  /** The rest of an array whose items so far are `done`. */
  function ReadItems(tokens: seq<Token>, p: nat, done: seq<Tree>): (r: Option<Got<seq<Tree>>>)
    ensures r.Some? ==> p < r.value.next <= |tokens| && done <= r.value.value
    decreases |tokens| - p, 1
  {
    if p >= |tokens| then None
    else if tokens[p].Close? then
      if tokens[p].container.Bracket? then Some(Got(done, p + 1)) else None
    else
      var item := ReadValue(tokens, p);
      if item.None? then None else ReadItems(tokens, item.value.next, done + [item.value.value])
  }

  function ReadMembers(tokens: seq<Token>, p: nat, done: seq<Member>): (r: Option<Got<seq<Member>>>)
    ensures r.Some? ==> p < r.value.next <= |tokens| && done <= r.value.value
    decreases |tokens| - p, 1
  {
    if p >= |tokens| then None
    else if tokens[p].Close? then
      if tokens[p].container.Brace? then Some(Got(done, p + 1)) else None
    else if !tokens[p].Value? || !tokens[p].leaf.Text? then None
    else
      var value := ReadValue(tokens, p + 1);
      if value.None? then None
      else ReadMembers(tokens, value.value.next, done + [Member(tokens[p].leaf.text, value.value.value)])
  }

  predicate Accepts(tokens: seq<Token>, p: nat, n: nat, d: nat) {
    ReadValue(tokens, p).Some? && Fits(ReadValue(tokens, p).value.value, n, d)
  }

  /** json.Decoder as a token source: it hands out tokens and refuses a closer that does not match. */
  class Decoder {
    const tokens: seq<Token>
    var pos: nat
    var open: seq<Container>

    constructor (tokens: seq<Token>)
      ensures this.tokens == tokens && pos == 0 && open == []
    {
      this.tokens, pos, open := tokens, 0, [];
    }

    ghost predicate Matches(c: Container)
      reads this
    {
      open != [] && open[|open| - 1] == c
    }

    method Next() returns (token: Option<Token>)
      modifies this
      ensures token == (if old(pos) >= |tokens| || (tokens[old(pos)].Close? && !old(Matches(tokens[pos].container)))
                        then None else Some(tokens[old(pos)]))
      ensures pos == if token.None? then old(pos) else old(pos) + 1
      ensures open == (if token.None? || token.value.Value? then old(open)
                       else if token.value.Open? then old(open) + [token.value.container]
                       else old(open[..|open| - 1]))
    {
      if pos >= |tokens| {
        return None;
      }
      if tokens[pos].Open? {
        open := open + [tokens[pos].container];
      } else if tokens[pos].Close? {
        if open == [] || open[|open| - 1] != tokens[pos].container {
          return None;
        }
        open := open[..|open| - 1];
      }
      token := Some(tokens[pos]);
      pos := pos + 1;
    }

    predicate More()
      reads this
    {
      pos < |tokens| && !tokens[pos].Close?
    }
  }

  /** The counter that every recursive call shares through `nodes *int`. */
  class Counter {
    var nodes: nat

    constructor ()
      ensures nodes == 0
    {
      nodes := 0;
    }
  }

  method ValidateValue(decoder: Decoder, depth: nat, counter: Counter) returns (ok: bool, root: Option<Container>)
    requires depth <= MAX_NESTING_DEPTH
    modifies decoder, counter
    ensures ok <==> Accepts(decoder.tokens, old(decoder.pos), old(counter.nodes), depth)
    ensures ok ==> decoder.open == old(decoder.open)
    ensures ok ==> decoder.pos == ReadValue(decoder.tokens, old(decoder.pos)).value.next
    ensures ok ==> counter.nodes == old(counter.nodes) + Nodes(ReadValue(decoder.tokens, old(decoder.pos)).value.value)
    ensures ok ==> (root == Some(Brace) <==> ReadValue(decoder.tokens, old(decoder.pos)).value.value.Object?)
    decreases |decoder.tokens| - decoder.pos
  {
    hide Fits, ReadValue, ReadItems, ReadMembers, Nodes, NodesIn, NodesAmong, FitsItems, FitsMembers, Keys;
    ghost var n, p, outer := counter.nodes, decoder.pos, decoder.open;
    ghost var tokens := decoder.tokens;
    FirstToken(tokens, p, n, depth);
    counter.nodes := counter.nodes + 1;
    if counter.nodes > MAX_PARSED_NODES {
      return false, None;
    }
    var token := decoder.Next();
    if token.None? {
      return false, None;
    }
    if token.value.Value? {
      return true, None;
    }
    if depth + 1 > MAX_NESTING_DEPTH {
      return false, None;
    }
    if token.value.Close? {
      return false, None;
    }
    var container := token.value.container;
    if container == Brace {
      ghost var done: seq<Member> := [];
      var seen: set<string> := {};
      while decoder.More()
        invariant p < decoder.pos && decoder.open == outer + [Brace]
        invariant ReadMembers(tokens, p + 1, []) == ReadMembers(tokens, decoder.pos, done)
        invariant FitsMembers(done, n, depth) && counter.nodes == n + 1 + NodesAmong(done)
        invariant seen == Keys(done)
        decreases |tokens| - decoder.pos
      {
        ghost var at := decoder.pos;
        NextMember(tokens, p, at, done, n, depth);
        var keyToken := decoder.Next();
        if keyToken.None? || !keyToken.value.Value? || !keyToken.value.leaf.Text? {
          return false, None;
        }
        var key := keyToken.value.leaf.text;
        counter.nodes := counter.nodes + 1;
        if counter.nodes > MAX_PARSED_NODES {
          return false, None;
        }
        if key in seen {
          return false, None;
        }
        seen := seen + {key};
        var valid, _ := ValidateValue(decoder, depth + 1, counter);
        if !valid {
          return false, None;
        }
        done := done + [Member(key, ReadValue(tokens, at + 1).value.value)];
      }
      LastMember(tokens, p, decoder.pos, done, n, depth);
    } else {
      ghost var done: seq<Tree> := [];
      while decoder.More()
        invariant p < decoder.pos && decoder.open == outer + [Bracket]
        invariant ReadItems(tokens, p + 1, []) == ReadItems(tokens, decoder.pos, done)
        invariant FitsItems(done, n, depth) && counter.nodes == n + 1 + NodesIn(done)
        decreases |tokens| - decoder.pos
      {
        ghost var at := decoder.pos;
        NextItem(tokens, p, at, done, n, depth);
        var valid, _ := ValidateValue(decoder, depth + 1, counter);
        if !valid {
          return false, None;
        }
        done := done + [ReadValue(tokens, at).value.value];
      }
      LastItem(tokens, p, decoder.pos, done, n, depth);
    }
    var close := decoder.Next();
    if close.None? {
      return false, None;
    }
    return true, Some(container);
  }

  /** What the first token and the counter decide, and where the loops start. */
  lemma FirstToken(tokens: seq<Token>, p: nat, n: nat, d: nat)
    requires d <= MAX_NESTING_DEPTH
    ensures n + 1 > MAX_PARSED_NODES || p >= |tokens| || tokens[p].Close? ==> !Accepts(tokens, p, n, d)
    ensures p < |tokens| && tokens[p].Value? && n + 1 <= MAX_PARSED_NODES ==>
              && Accepts(tokens, p, n, d) && ReadValue(tokens, p).value.next == p + 1
              && Nodes(ReadValue(tokens, p).value.value) == 1 && ReadValue(tokens, p).value.value.Scalar?
    ensures p < |tokens| && tokens[p].Open? && d + 1 > MAX_NESTING_DEPTH ==> !Accepts(tokens, p, n, d)
    ensures n + 1 <= MAX_PARSED_NODES && d + 1 <= MAX_NESTING_DEPTH ==> FitsItems([], n, d) && FitsMembers([], n, d)
    ensures NodesIn([]) == 0 && NodesAmong([]) == 0 && Keys([]) == {}
  {
    hide ReadItems, ReadMembers;
  }

  predicate AcceptsItems(tokens: seq<Token>, p: nat, done: seq<Tree>, n: nat, d: nat) {
    ReadItems(tokens, p, done).Some? && FitsItems(ReadItems(tokens, p, done).value.value, n, d)
  }

  predicate AcceptsMembers(tokens: seq<Token>, p: nat, done: seq<Member>, n: nat, d: nat) {
    ReadMembers(tokens, p, done).Some? && FitsMembers(ReadMembers(tokens, p, done).value.value, n, d)
  }

  lemma Opened(tokens: seq<Token>, p: nat, n: nat, d: nat)
    requires p < |tokens|
    ensures tokens[p] == Open(Bracket) ==> (Accepts(tokens, p, n, d) <==> AcceptsItems(tokens, p + 1, [], n, d))
    ensures tokens[p] == Open(Brace) ==> (Accepts(tokens, p, n, d) <==> AcceptsMembers(tokens, p + 1, [], n, d))
  {
    hide ReadItems, ReadMembers, NodesIn, NodesAmong, DepthIn, DepthAmong, KeysDiffer;
  }

  /** Where the next item fails the array fails; where it passes the list of items so far grows by it. */
  lemma NextItem(tokens: seq<Token>, p: nat, at: nat, done: seq<Tree>, n: nat, d: nat)
    requires p < at < |tokens| && tokens[p] == Open(Bracket) && !tokens[at].Close?
    requires ReadItems(tokens, p + 1, []) == ReadItems(tokens, at, done)
    requires FitsItems(done, n, d)
    ensures !Accepts(tokens, at, n + 1 + NodesIn(done), d + 1) ==> !Accepts(tokens, p, n, d)
    ensures Accepts(tokens, at, n + 1 + NodesIn(done), d + 1) ==>
              var item := ReadValue(tokens, at).value;
              && FitsItems(done + [item.value], n, d)
              && NodesIn(done + [item.value]) == NodesIn(done) + Nodes(item.value)
              && ReadItems(tokens, p + 1, []) == ReadItems(tokens, item.next, done + [item.value])
  {
    hide ReadValue, FitsItems, Fits, NodesIn, Nodes;
    Opened(tokens, p, n, d);
    var item := ReadValue(tokens, at);
    if item.Some? {
      FitsOneMoreItem(done, item.value.value, n, d);
      if Accepts(tokens, p, n, d) {
        var all := ReadItems(tokens, at, done).value.value;
        FitsPrefixItems(all, |done| + 1, n, d);
        assert all[..|done| + 1] == done + [item.value.value];
      }
    }
  }

  lemma NextMember(tokens: seq<Token>, p: nat, at: nat, done: seq<Member>, n: nat, d: nat)
    requires p < at < |tokens| && tokens[p] == Open(Brace) && !tokens[at].Close?
    requires ReadMembers(tokens, p + 1, []) == ReadMembers(tokens, at, done)
    requires FitsMembers(done, n, d)
    ensures Accepts(tokens, p, n, d) ==> tokens[at].Value? && tokens[at].leaf.Text?
    ensures tokens[at].Value? && tokens[at].leaf.Text? ==>
              MemberDecides(tokens, p, at, done, n, d)
  {
    hide ReadValue, FitsMembers, Fits, NodesAmong, Nodes, Keys;
    Opened(tokens, p, n, d);
    if tokens[at].Value? && tokens[at].leaf.Text? {
      var value := ReadValue(tokens, at + 1);
      if value.Some? {
        var m := Member(tokens[at].leaf.text, value.value.value);
        FitsOneMoreMember(done, m, n, d);
        if Accepts(tokens, p, n, d) {
          var all := ReadMembers(tokens, at, done).value.value;
          FitsPrefixMembers(all, |done| + 1, n, d);
          assert all[..|done| + 1] == done + [m];
        }
      }
      KeyIsCounted(tokens, at + 1, n + 2 + NodesAmong(done), d + 1);
    }
  }

  lemma KeyIsCounted(tokens: seq<Token>, p: nat, n: nat, d: nat)
    ensures Accepts(tokens, p, n, d) ==> n <= MAX_PARSED_NODES
  {
    hide ReadValue, Nodes;
  }

  ghost predicate MemberDecides(tokens: seq<Token>, p: nat, at: nat, done: seq<Member>, n: nat, d: nat)
    requires at < |tokens| && tokens[at].Value? && tokens[at].leaf.Text?
  {
    var key := tokens[at].leaf.text;
    var counted := n + 2 + NodesAmong(done);
    && (key in Keys(done) || !Accepts(tokens, at + 1, counted, d + 1) || counted > MAX_PARSED_NODES ==>
        !Accepts(tokens, p, n, d))
    && (key !in Keys(done) && Accepts(tokens, at + 1, counted, d + 1) ==>
        var value := ReadValue(tokens, at + 1).value;
        var more := done + [Member(key, value.value)];
        && FitsMembers(more, n, d) && NodesAmong(more) == NodesAmong(done) + 1 + Nodes(value.value)
        && Keys(more) == Keys(done) + {key}
        && ReadMembers(tokens, p + 1, []) == ReadMembers(tokens, value.next, more))
  }

  lemma LastItem(tokens: seq<Token>, p: nat, at: nat, done: seq<Tree>, n: nat, d: nat)
    requires p < at && p < |tokens| && tokens[p] == Open(Bracket) && (at < |tokens| ==> tokens[at].Close?)
    requires ReadItems(tokens, p + 1, []) == ReadItems(tokens, at, done)
    requires FitsItems(done, n, d)
    ensures Accepts(tokens, p, n, d) <==> at < |tokens| && tokens[at].container.Bracket?
    ensures Accepts(tokens, p, n, d) ==>
              var r := ReadValue(tokens, p).value;
              r.next == at + 1 && Nodes(r.value) == 1 + NodesIn(done) && r.value.Array?
  {
    hide FitsItems, NodesIn;
    Opened(tokens, p, n, d);
  }

  lemma LastMember(tokens: seq<Token>, p: nat, at: nat, done: seq<Member>, n: nat, d: nat)
    requires p < at && p < |tokens| && tokens[p] == Open(Brace) && (at < |tokens| ==> tokens[at].Close?)
    requires ReadMembers(tokens, p + 1, []) == ReadMembers(tokens, at, done)
    requires FitsMembers(done, n, d)
    ensures Accepts(tokens, p, n, d) <==> at < |tokens| && tokens[at].container.Brace?
    ensures Accepts(tokens, p, n, d) ==>
              var r := ReadValue(tokens, p).value;
              r.next == at + 1 && Nodes(r.value) == 1 + NodesAmong(done) && r.value.Object?
  {
    hide FitsMembers, NodesAmong;
    Opened(tokens, p, n, d);
  }

  // What a decoder yields for a document, and that ReadValue reads back just that

  function Tokens(v: Tree): (r: seq<Token>)
    ensures |r| > 0 && !r[0].Close?
    decreases v
  {
    match v
    case Scalar(leaf) => [Value(leaf)]
    case Array(items) => [Open(Bracket)] + ItemTokens(items)
    case Object(members) => [Open(Brace)] + MemberTokens(members)
  }

  function ItemTokens(items: seq<Tree>): seq<Token>
    decreases items
  {
    if items == [] then [Close(Bracket)] else Tokens(items[0]) + ItemTokens(items[1..])
  }

  function MemberTokens(members: seq<Member>): seq<Token>
    decreases members
  {
    if members == [] then [Close(Brace)]
    else [Value(Text(members[0].key))] + Tokens(members[0].value) + MemberTokens(members[1..])
  }

  predicate Holds(tokens: seq<Token>, p: nat, part: seq<Token>) {
    p + |part| <= |tokens| && tokens[p..p + |part|] == part
  }

  lemma HoldsParts(tokens: seq<Token>, p: nat, a: seq<Token>, b: seq<Token>)
    ensures Holds(tokens, p, a + b) <==> Holds(tokens, p, a) && Holds(tokens, p + |a|, b)
  {
    if Holds(tokens, p, a + b) {
      assert tokens[p..p + |a|] == (a + b)[..|a|];
      assert tokens[p + |a|..p + |a| + |b|] == (a + b)[|a|..];
    }
    if Holds(tokens, p, a) && Holds(tokens, p + |a|, b) {
      assert tokens[p..p + |a| + |b|] == tokens[p..p + |a|] + tokens[p + |a|..p + |a| + |b|];
    }
  }

  lemma {:induction false} ReadsSpelling(tokens: seq<Token>, p: nat, v: Tree)
    requires Holds(tokens, p, Tokens(v))
    ensures ReadValue(tokens, p) == Some(Got(v, p + |Tokens(v)|))
    decreases v
  {
    hide ReadItems, ReadMembers, ItemTokens, MemberTokens;
    assert tokens[p] == tokens[p..p + |Tokens(v)|][0] == Tokens(v)[0];
    match v
    case Scalar(_) =>
    case Array(items) =>
      HoldsParts(tokens, p, [Open(Bracket)], ItemTokens(items));
      ReadsItems(tokens, p + 1, [], items);
      assert [] + items == items;
    case Object(members) =>
      HoldsParts(tokens, p, [Open(Brace)], MemberTokens(members));
      ReadsMembers(tokens, p + 1, [], members);
      assert [] + members == members;
  }

  lemma {:induction false} ReadsItems(tokens: seq<Token>, p: nat, done: seq<Tree>, items: seq<Tree>)
    requires Holds(tokens, p, ItemTokens(items))
    ensures ReadItems(tokens, p, done) == Some(Got(done + items, p + |ItemTokens(items)|))
    decreases items
  {
    hide ReadValue, Tokens;
    assert tokens[p] == tokens[p..p + |ItemTokens(items)|][0] == ItemTokens(items)[0];
    if items == [] {
      assert done + items == done;
    } else {
      HoldsParts(tokens, p, Tokens(items[0]), ItemTokens(items[1..]));
      ReadsSpelling(tokens, p, items[0]);
      ReadsItems(tokens, p + |Tokens(items[0])|, done + [items[0]], items[1..]);
      assert done + [items[0]] + items[1..] == done + items;
    }
  }

  lemma {:induction false} ReadsMembers(tokens: seq<Token>, p: nat, done: seq<Member>, members: seq<Member>)
    requires Holds(tokens, p, MemberTokens(members))
    ensures ReadMembers(tokens, p, done) == Some(Got(done + members, p + |MemberTokens(members)|))
    decreases members
  {
    hide ReadValue, Tokens;
    assert tokens[p] == tokens[p..p + |MemberTokens(members)|][0] == MemberTokens(members)[0];
    if members == [] {
      assert done + members == done;
    } else {
      var m := members[0];
      var key := [Value(Text(m.key))];
      HoldsParts(tokens, p, key + Tokens(m.value), MemberTokens(members[1..]));
      HoldsParts(tokens, p, key, Tokens(m.value));
      ReadsSpelling(tokens, p + 1, m.value);
      ReadsMembers(tokens, p + 1 + |Tokens(m.value)|, done + [m], members[1..]);
      assert done + [m] + members[1..] == done + members;
    }
  }

  lemma {:induction false} ReadIsSpelled(tokens: seq<Token>, p: nat)
    requires ReadValue(tokens, p).Some?
    ensures var got := ReadValue(tokens, p).value; got.next == p + |Tokens(got.value)| && Holds(tokens, p, Tokens(got.value))
    decreases |tokens| - p, 0
  {
    hide ReadItems, ReadMembers, ItemTokens, MemberTokens;
    var got := ReadValue(tokens, p).value;
    assert tokens[p..p + 1] == [tokens[p]];
    match tokens[p]
    case Value(_) =>
    case Open(Bracket) =>
      ItemsAreSpelled(tokens, p + 1, []);
      HoldsParts(tokens, p, [Open(Bracket)], ItemTokens(got.value.items));
      assert got.value.items[0..] == got.value.items;
    case Open(Brace) =>
      MembersAreSpelled(tokens, p + 1, []);
      HoldsParts(tokens, p, [Open(Brace)], MemberTokens(got.value.members));
      assert got.value.members[0..] == got.value.members;
  }

  lemma {:induction false} ItemsAreSpelled(tokens: seq<Token>, p: nat, done: seq<Tree>)
    requires ReadItems(tokens, p, done).Some?
    ensures var got := ReadItems(tokens, p, done).value;
      var rest := ItemTokens(got.value[|done|..]);
      got.next == p + |rest| && Holds(tokens, p, rest)
    decreases |tokens| - p, 1
  {
    hide ReadValue, Tokens;
    var got := ReadItems(tokens, p, done).value;
    if tokens[p].Close? {
      assert got.value[|done|..] == [];
      assert tokens[p..p + 1] == [tokens[p]];
    } else {
      var item := ReadValue(tokens, p).value;
      ReadIsSpelled(tokens, p);
      ItemsAreSpelled(tokens, item.next, done + [item.value]);
      var rest := got.value[|done|..];
      assert rest[0] == item.value && rest[1..] == got.value[|done| + 1..];
      HoldsParts(tokens, p, Tokens(item.value), ItemTokens(rest[1..]));
    }
  }

  lemma {:induction false} MembersAreSpelled(tokens: seq<Token>, p: nat, done: seq<Member>)
    requires ReadMembers(tokens, p, done).Some?
    ensures var got := ReadMembers(tokens, p, done).value;
      var rest := MemberTokens(got.value[|done|..]);
      got.next == p + |rest| && Holds(tokens, p, rest)
    decreases |tokens| - p, 1
  {
    hide ReadValue, Tokens;
    var got := ReadMembers(tokens, p, done).value;
    assert tokens[p..p + 1] == [tokens[p]];
    if tokens[p].Close? {
      assert got.value[|done|..] == [];
    } else {
      var value := ReadValue(tokens, p + 1).value;
      var m := Member(tokens[p].leaf.text, value.value);
      ReadIsSpelled(tokens, p + 1);
      MembersAreSpelled(tokens, value.next, done + [m]);
      var rest := got.value[|done|..];
      assert rest[0] == m && rest[1..] == got.value[|done| + 1..];
      HoldsParts(tokens, p, [Value(Text(m.key))], Tokens(m.value));
      HoldsParts(tokens, p, [Value(Text(m.key))] + Tokens(m.value), MemberTokens(rest[1..]));
    }
  }

  /** A whole document: one value and then the end of the tokens (EnsureJSONEOF). */
  method ValidateDocument(tokens: seq<Token>) returns (ok: bool, root: Option<Container>)
    ensures ok <==> exists v :: tokens == Tokens(v) && Bounded(v)
    ensures ok && root == Some(Brace) <==> exists v :: tokens == Tokens(v) && Bounded(v) && v.Object?
  {
    hide Bounded, Tokens, ReadValue;
    var decoder := new Decoder(tokens);
    var counter := new Counter();
    ok, root := ValidateValue(decoder, 0, counter);
    Document(tokens);
    if ok && decoder.pos != |tokens| {
      return false, None;
    }
  }

  lemma Document(tokens: seq<Token>)
    ensures forall v :: tokens == Tokens(v) && Bounded(v) ==>
              && Accepts(tokens, 0, 0, 0) && ReadValue(tokens, 0).value == Got(v, |tokens|)
    ensures Accepts(tokens, 0, 0, 0) && ReadValue(tokens, 0).value.next == |tokens| ==>
              tokens == Tokens(ReadValue(tokens, 0).value.value) && Bounded(ReadValue(tokens, 0).value.value)
  {
    hide ReadValue, Tokens, Fits;
    forall v | tokens == Tokens(v) && Bounded(v)
      ensures Accepts(tokens, 0, 0, 0) && ReadValue(tokens, 0).value == Got(v, |tokens|)
    {
      assert tokens[0..|tokens|] == tokens;
      ReadsSpelling(tokens, 0, v);
    }
    if Accepts(tokens, 0, 0, 0) && ReadValue(tokens, 0).value.next == |tokens| {
      ReadIsSpelled(tokens, 0);
      assert tokens[0..|tokens|] == tokens;
    }
  }
}
