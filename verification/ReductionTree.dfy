/**
 The fan-in-8 reduction tree over the part drafts of one summary.

 Every step recomputes the tree from durable rows: the drafts of the parts and the
 reductions saved so far. A fingerprint is a SHA-256 of the grouped nodes; it is
 modelled as an injective function, namely the group itself.
 */
module ReductionTree {
  import opened Wrappers
  import opened SourceText

  const FAN_IN := 8

  datatype Ref = Ref(part: nat, claim: int)
  datatype Claim = Claim(text: Text, references: seq<Ref>)

  // A reply of the model: something of another shape, or a list of claims.
  datatype Reply = Malformed | Claims(claims: seq<Claim>)

  datatype NodeId = PartNode(part: nat) | ReduceNode(level: nat, index: nat)
  datatype Node = Node(id: NodeId, parts: nat, claims: seq<Claim>)

  datatype Reduction = Reduction(input: seq<Node>, claims: seq<Claim>)
  type Reductions = map<NodeId, Reduction>

  datatype Error =
    | InvalidClaims | InvalidText | InvalidReferences | ReferenceOutsideInput | TextTooLarge
    | PartsIncomplete | InputChanged

  // ---------------------------------------------------------------- validate_claims

  predicate Allowed(inputs: seq<Node>, ref: Ref) {
    exists k, i :: 0 <= k < |inputs| && 0 <= i < |inputs[k].claims| && ref in inputs[k].claims[i].references
  }

  predicate ClaimAcceptable(claim: Claim, inputs: seq<Node>) {
    && Accept(claim.text, 1600).Some?
    && 1 <= |claim.references| <= 4
    && forall j :: 0 <= j < |claim.references| ==> Allowed(inputs, claim.references[j])
  }

  function TotalText(claims: seq<Claim>): nat
    requires forall i :: 0 <= i < |claims| ==> Accept(claims[i].text, 1600).Some?
  {
    if claims == [] then 0 else TotalText(claims[..|claims| - 1]) + |Accept(claims[|claims| - 1].text, 1600).value|
  }

  /** What a reduction, or a synthesis over groups, may contain. */
  predicate Acceptable(claims: seq<Claim>, inputs: seq<Node>) {
    && 1 <= |claims| <= 10
    && (forall i :: 0 <= i < |claims| ==> ClaimAcceptable(claims[i], inputs))
    && TotalText(claims) <= 8000
  }

  /** The accumulating loop over a reply accepts exactly the acceptable claims, unchanged. */
  method ValidateClaims(reply: Reply, inputs: seq<Node>) returns (r: Result<seq<Claim>, Error>)
    ensures r.Ok? <==> reply.Claims? && Acceptable(reply.claims, inputs)
    ensures r.Ok? ==> r.value == reply.claims
    ensures r.Ok? || (r.Err? && r.error == TextTooLarge) <==>
      && reply.Claims? && 1 <= |reply.claims| <= 10
      && forall i :: 0 <= i < |reply.claims| ==>
        && Accept(reply.claims[i].text, 1600).Some? && 1 <= |reply.claims[i].references| <= 4
        && forall j :: 0 <= j < |reply.claims[i].references| ==> Allowed(inputs, reply.claims[i].references[j])
    ensures r.Ok? ==> TotalText(reply.claims) <= 8000
    ensures r.Err? && r.error == TextTooLarge ==>
              reply.Claims? && 1 <= |reply.claims| <= 10
              && forall i :: 0 <= i < |reply.claims| ==> ClaimAcceptable(reply.claims[i], inputs)
  {
    hide Accept, Allowed;
    if reply.Malformed? { return Err(InvalidClaims); }
    var claims := reply.claims;
    if !(1 <= |claims| <= 10) { return Err(InvalidClaims); }
    var total := 0;
    for n := 0 to |claims|
      invariant forall i :: 0 <= i < n ==> ClaimAcceptable(claims[i], inputs)
      invariant total == TotalText(claims[..n])
    {
      var text := Accept(claims[n].text, 1600);
      if text.None? { return Err(InvalidText); }
      total := total + |text.value|;
      assert claims[..n + 1][..n] == claims[..n];
      var refs := claims[n].references;
      if !(1 <= |refs| <= 4) { return Err(InvalidReferences); }
      for m := 0 to |refs|
        invariant forall j :: 0 <= j < m ==> Allowed(inputs, refs[j])
      {
        if !Allowed(inputs, refs[m]) { return Err(ReferenceOutsideInput); }
      }
    }
    assert claims[..|claims|] == claims;
    if total > 8000 { return Err(TextTooLarge); }
    return Ok(claims);
  }

  /** Every reference of an acceptable reply, one to four for each claim, is one that an input claim has. */
  lemma AcceptedRefer(claims: seq<Claim>, inputs: seq<Node>, c: nat, j: nat) returns (k: nat, i: nat)
    requires Acceptable(claims, inputs) && c < |claims| && j < |claims[c].references|
    ensures |claims| <= 10 && 1 <= |claims[c].references| <= 4
    ensures k < |inputs| && i < |inputs[k].claims| && claims[c].references[j] in inputs[k].claims[i].references
  {
    assert ClaimAcceptable(claims[c], inputs);
    assert Allowed(inputs, claims[c].references[j]);
    k, i :| 0 <= k < |inputs| && 0 <= i < |inputs[k].claims| && claims[c].references[j] in inputs[k].claims[i].references;
  }

  /** The size of a reply is the length of all its texts, trimmed. */
  lemma {:induction false} TotalTextAdds(a: seq<Claim>, b: seq<Claim>)
    requires forall i :: 0 <= i < |a| ==> Accept(a[i].text, 1600).Some?
    requires forall i :: 0 <= i < |b| ==> Accept(b[i].text, 1600).Some?
    ensures TotalText(a + b) == TotalText(a) + TotalText(b)
    ensures |b| == 1 ==> TotalText(b) == |Accept(b[0].text, 1600).value|
  {
    hide Accept;
    if b == [] {
      assert a + b == a;
    } else {
      TotalTextAdds(a, b[..|b| - 1]);
      assert (a + b)[..|a + b| - 1] == a + b[..|b| - 1];
    }
  }

  // ---------------------------------------------------------------- next

  function SumParts(nodes: seq<Node>): nat {
    if nodes == [] then 0 else nodes[0].parts + SumParts(nodes[1..])
  }

  function Group(nodes: seq<Node>, index: nat): seq<Node>
    requires FAN_IN * index < |nodes|
  {
    nodes[FAN_IN * index..if FAN_IN * index + FAN_IN <= |nodes| then FAN_IN * index + FAN_IN else |nodes|]
  }

  function Ceil8(count: nat): nat {
    (count + 7) / 8
  }

  datatype Walk = Broken(error: Error) | Missing(id: NodeId, group: seq<Node>) | Nodes(nodes: seq<Node>)

  /** One level of the tree, from group `index` on: its reduced nodes, or the first group without a saved reduction. */
  function WalkLevel(nodes: seq<Node>, level: nat, index: nat, saved: Reductions): (w: Walk)
    ensures w.Nodes? && FAN_IN * index <= |nodes| + 7 ==> |w.nodes| == Ceil8(|nodes|) - index
    decreases |nodes| - FAN_IN * index
  {
    if FAN_IN * index >= |nodes| then Nodes([])
    else
      var group := Group(nodes, index);
      var head := ReduceNode(level, index);
      if |group| == 1 then Prepend(group[0], WalkLevel(nodes, level, index + 1, saved))
      else if head !in saved then Missing(head, group)
      else if saved[head].input != group then Broken(InputChanged)
      else if !Acceptable(saved[head].claims, group) then Broken(InvalidClaims)
      else Prepend(Node(head, SumParts(group), saved[head].claims), WalkLevel(nodes, level, index + 1, saved))
  }

  function Prepend(node: Node, w: Walk): Walk {
    if w.Nodes? then Nodes([node] + w.nodes) else w
  }

  /** The walk from the given level up to the first missing reduction, or to at most eight nodes. */
  function Climb(nodes: seq<Node>, level: nat, saved: Reductions): Walk
    decreases |nodes|
  {
    if |nodes| <= FAN_IN then Nodes(nodes)
    else
      var w := WalkLevel(nodes, level + 1, 0, saved);
      if w.Nodes? then Climb(w.nodes, level + 1, saved) else w
  }

  /** The leaves: one node per part, whose claims refer to that part's own draft claims. */
  function Leaf(part: nat, draft: seq<Text>): Node {
    Node(PartNode(part), 1, seq(|draft|, i requires 0 <= i < |draft| => Claim(draft[i], [Ref(part, i)])))
  }

  function Leaves(parts: seq<nat>, drafts: map<nat, seq<Text>>): seq<Node>
    requires forall i :: 0 <= i < |parts| ==> parts[i] in drafts
  {
    seq(|parts|, i requires 0 <= i < |parts| => Leaf(parts[i], drafts[parts[i]]))
  }

  function Elements(parts: seq<nat>): set<nat> {
    set i | 0 <= i < |parts| :: parts[i]
  }

  function Next(parts: seq<nat>, drafts: map<nat, seq<Text>>, saved: Reductions): Walk {
    if drafts.Keys != Elements(parts) then Broken(PartsIncomplete)
    else
      assert forall i :: 0 <= i < |parts| ==> parts[i] in Elements(parts);
      Climb(Leaves(parts, drafts), 0, saved)
  }

  // ---------------------------------------------------------------- what the walk hands out

  function Handed(w: Walk): seq<Node> {
    match w
    case Broken(_) => []
    case Missing(_, group) => group
    case Nodes(nodes) => nodes
  }

  /**
   A leaf has the claims of its part's draft, in order, each with one reference, to itself; a node
   above has the claims saved for it, and counts the parts below it.
   */
  predicate Own(node: Node, drafts: map<nat, seq<Text>>, saved: Reductions) {
    match node.id
    case PartNode(p) =>
      && p in drafts && node.parts == 1 && |node.claims| == |drafts[p]|
      && forall i :: 0 <= i < |drafts[p]| ==> node.claims[i].text == drafts[p][i] && node.claims[i].references == [Ref(p, i)]
    case ReduceNode(_, _) =>
      node.id in saved && node.claims == saved[node.id].claims && node.parts == SumParts(saved[node.id].input)
  }

  predicate AllOwn(nodes: seq<Node>, drafts: map<nat, seq<Text>>, saved: Reductions) {
    forall k :: 0 <= k < |nodes| ==> Own(nodes[k], drafts, saved)
  }

  lemma LeavesOwn(parts: seq<nat>, drafts: map<nat, seq<Text>>, saved: Reductions)
    requires forall i :: 0 <= i < |parts| ==> parts[i] in drafts
    ensures AllOwn(Leaves(parts, drafts), drafts, saved)
  {
  }

  lemma {:induction false} LevelOwn(nodes: seq<Node>, level: nat, index: nat, drafts: map<nat, seq<Text>>, saved: Reductions)
    requires AllOwn(nodes, drafts, saved)
    ensures AllOwn(Handed(WalkLevel(nodes, level, index, saved)), drafts, saved)
    decreases |nodes| - FAN_IN * index
  {
    hide Own, Acceptable;
    if FAN_IN * index < |nodes| {
      LevelOwn(nodes, level, index + 1, drafts, saved);
      var group, head := Group(nodes, index), ReduceNode(level, index);
      if head in saved && saved[head].input == group { ReducedOwn(head, drafts, saved); }
    }
  }

  lemma ReducedOwn(head: NodeId, drafts: map<nat, seq<Text>>, saved: Reductions)
    requires head.ReduceNode? && head in saved
    ensures Own(Node(head, SumParts(saved[head].input), saved[head].claims), drafts, saved)
  {
  }

  lemma {:induction false} ClimbOwn(nodes: seq<Node>, level: nat, drafts: map<nat, seq<Text>>, saved: Reductions)
    requires AllOwn(nodes, drafts, saved)
    ensures AllOwn(Handed(Climb(nodes, level, saved)), drafts, saved)
    decreases |nodes|
  {
    hide AllOwn, WalkLevel;
    if |nodes| > FAN_IN {
      var w := WalkLevel(nodes, level + 1, 0, saved);
      LevelOwn(nodes, level + 1, 0, drafts, saved);
      if w.Nodes? { ClimbOwn(w.nodes, level + 1, drafts, saved); }
    }
  }

  lemma NextHandsOwn(parts: seq<nat>, drafts: map<nat, seq<Text>>, saved: Reductions)
    ensures AllOwn(Handed(Next(parts, drafts, saved)), drafts, saved)
  {
    hide Own, Climb, Leaves;
    if drafts.Keys == Elements(parts) {
      assert forall i :: 0 <= i < |parts| ==> parts[i] in Elements(parts);
      LeavesOwn(parts, drafts, saved);
      ClimbOwn(Leaves(parts, drafts), 0, drafts, saved);
    }
  }

  /** The leaves allow exactly the references to a claim that some planned part's draft has. */
  lemma LeavesAllow(parts: seq<nat>, drafts: map<nat, seq<Text>>, ref: Ref)
    requires forall i :: 0 <= i < |parts| ==> parts[i] in drafts
    ensures Allowed(Leaves(parts, drafts), ref)
            <==> ref.part in parts && ref.part in drafts && 0 <= ref.claim < |drafts[ref.part]|
  {
    var leaves := Leaves(parts, drafts);
    LeavesOwn(parts, drafts, map[]);
    if ref.part in parts && 0 <= ref.claim < |drafts[ref.part]| {
      var k :| 0 <= k < |parts| && parts[k] == ref.part;
      assert Own(leaves[k], drafts, map[]);
      assert ref in leaves[k].claims[ref.claim].references;
    }
  }

  /** The two nested loops of the program find what the recursive walk describes. */
  method FindNext(parts: seq<nat>, drafts: map<nat, seq<Text>>, saved: Reductions) returns (w: Walk)
    ensures w == Next(parts, drafts, saved)
    ensures AllOwn(Handed(w), drafts, saved)
  {
    hide AllOwn, Handed, Acceptable;
    NextHandsOwn(parts, drafts, saved);
    if drafts.Keys != Elements(parts) { return Broken(PartsIncomplete); }
    assert forall i :: 0 <= i < |parts| ==> parts[i] in Elements(parts);
    var nodes := Leaves(parts, drafts);
    var level := 0;
    while |nodes| > FAN_IN
      invariant Next(parts, drafts, saved) == Climb(nodes, level, saved)
      decreases |nodes|
    {
      level := level + 1;
      var reduced: seq<Node> := [];
      var index := 0;
      ghost var whole := WalkLevel(nodes, level, 0, saved);
      while FAN_IN * index < |nodes|
        invariant FAN_IN * index <= |nodes| + 7
        invariant |reduced| == index
        invariant whole == Joined(reduced, WalkLevel(nodes, level, index, saved))
        decreases |nodes| - FAN_IN * index
      {
        var group := Group(nodes, index);
        var head := ReduceNode(level, index);
        ghost var rest := WalkLevel(nodes, level, index + 1, saved);
        if |group| == 1 {
          JoinedStep(reduced, group[0], rest);
          reduced := reduced + [group[0]];
        } else {
          if head !in saved { return Missing(head, group); }
          if saved[head].input != group { return Broken(InputChanged); }
          var claims := ValidateClaims(Claims(saved[head].claims), group);
          if claims.Err? { return Broken(InvalidClaims); }
          var node := Node(head, SumParts(group), claims.value);
          JoinedStep(reduced, node, rest);
          reduced := reduced + [node];
        }
        index := index + 1;
      }
      assert whole == Nodes(reduced + []);
      assert reduced + [] == reduced;
      nodes := reduced;
    }
    return Nodes(nodes);
  }

  function Joined(done: seq<Node>, rest: Walk): Walk {
    if rest.Nodes? then Nodes(done + rest.nodes) else rest
  }

  lemma JoinedStep(done: seq<Node>, node: Node, rest: Walk)
    ensures Joined(done, Prepend(node, rest)) == Joined(done + [node], rest)
  {
    if rest.Nodes? {
      assert done + ([node] + rest.nodes) == (done + [node]) + rest.nodes;
    }
  }
}
