/** The two limits on nested input: the worklist over a request body and the counting walk over a policy. */
module Limits {

  // ----- request bodies -----

  const MAX_NESTING := 128

  /** Only containers and what they hold matter here. */
  datatype Document = Scalar | Container(children: seq<Document>)

  /** The number of nested containers on the deepest path. */
  function Nesting(d: Document): nat {
    match d
    case Scalar => 0
    case Container(children) => 1 + DeepestNesting(children)
  }

  function DeepestNesting(ds: seq<Document>): nat {
    if ds == [] then 0 else
      var first, rest := Nesting(ds[0]), DeepestNesting(ds[1..]);
      if first > rest then first else rest
  }

  function Nodes(d: Document): nat {
    match d
    case Scalar => 1
    case Container(children) => 1 + AllNodes(children)
  }

  function AllNodes(ds: seq<Document>): nat {
    if ds == [] then 0 else Nodes(ds[0]) + AllNodes(ds[1..])
  }

  function PendingNodes(pending: seq<(Document, nat)>): nat {
    if pending == [] then 0 else PendingNodes(pending[..|pending| - 1]) + Nodes(pending[|pending| - 1].0)
  }

  ghost predicate AllWithin(pending: seq<(Document, nat)>) {
    forall i :: 0 <= i < |pending| ==> Within(pending[i])
  }

  /** The document at this depth does not take the nesting past the limit. */
  predicate Within(item: (Document, nat)) {
    item.0.Container? ==> item.1 + Nesting(item.0) <= MAX_NESTING
  }

  function AtDepth(children: seq<Document>, depth: nat): seq<(Document, nat)> {
    seq(|children|, i requires 0 <= i < |children| => (children[i], depth))
  }

  lemma {:induction false} DeepestIs(ds: seq<Document>)
    ensures forall i :: 0 <= i < |ds| ==> Nesting(ds[i]) <= DeepestNesting(ds)
    ensures ds != [] ==> exists i :: 0 <= i < |ds| && Nesting(ds[i]) == DeepestNesting(ds)
  {
    if ds != [] {
      DeepestIs(ds[1..]);
      if DeepestNesting(ds) != Nesting(ds[0]) {
        var i :| 0 <= i < |ds[1..]| && Nesting(ds[1..][i]) == DeepestNesting(ds[1..]);
        assert Nesting(ds[i + 1]) == DeepestNesting(ds);
      }
    }
  }

  lemma {:induction false} PendingAppend(pending: seq<(Document, nat)>, children: seq<Document>, depth: nat)
    ensures PendingNodes(pending + AtDepth(children, depth)) == PendingNodes(pending) + AllNodes(children)
    decreases |children|
  {
    if children == [] {
      assert pending + AtDepth(children, depth) == pending;
    } else {
      var one := pending + [(children[0], depth)];
      assert one[..|pending|] == pending;
      assert pending + AtDepth(children, depth) == one + AtDepth(children[1..], depth);
      PendingAppend(one, children[1..], depth);
    }
  }

  /** A container is within the limit exactly when its depth leaves room for it and its children are. */
  lemma ContainerWithin(d: Document, depth: nat)
    requires d.Container?
    ensures Within((d, depth)) <==> depth < MAX_NESTING && AllWithin(AtDepth(d.children, depth + 1))
  {
    DeepestIs(d.children);
    assert Nesting(d) == 1 + DeepestNesting(d.children);
    var items := AtDepth(d.children, depth + 1);
    if depth < MAX_NESTING && AllWithin(items) && d.children != [] {
      var i :| 0 <= i < |d.children| && Nesting(d.children[i]) == DeepestNesting(d.children);
      assert Within(items[i]) && items[i] == (d.children[i], depth + 1);
      assert d.children[i].Scalar? ==> Nesting(d.children[i]) == 0;
    }
    if Within((d, depth)) {
      forall i | 0 <= i < |items|
        ensures Within(items[i])
      {
        assert Nesting(d.children[i]) <= DeepestNesting(d.children);
      }
    }
  }

  /** The worklist accepts exactly the documents with at most 128 nested containers. */
  method ValidateNesting(document: Document) returns (ok: bool)
    ensures ok <==> Nesting(document) <= MAX_NESTING
  {
    var pending: seq<(Document, nat)> := [(document, 0)];
    assert pending[..0] == [];
    while pending != []
      invariant AllWithin(pending) <==> Nesting(document) <= MAX_NESTING
      decreases PendingNodes(pending)
    {
      var n := |pending| - 1;
      var (value, depth) := pending[n];
      ghost var was := pending;
      pending := pending[..n];
      assert AllWithin(was) <==> AllWithin(pending) && Within((value, depth)) by {
        assert was == pending + [(value, depth)];
      }
      if value.Container? {
        ContainerWithin(value, depth);
        if depth >= MAX_NESTING {
          return false;
        }
        PendingAppend(pending, value.children, depth + 1);
        ghost var rest := pending;
        pending := pending + AtDepth(value.children, depth + 1);
        assert AllWithin(pending) <==> AllWithin(rest) && AllWithin(AtDepth(value.children, depth + 1)) by {
          AllWithinAppend(rest, AtDepth(value.children, depth + 1));
        }
      }
    }
    ok := true;
  }

  lemma AllWithinAppend(a: seq<(Document, nat)>, b: seq<(Document, nat)>)
    ensures AllWithin(a + b) <==> AllWithin(a) && AllWithin(b)
  {
    if AllWithin(a + b) {
      forall i | 0 <= i < |b|
        ensures Within(b[i])
      {
        assert b[i] == (a + b)[|a| + i];
      }
      forall i | 0 <= i < |a|
        ensures Within(a[i])
      {
        assert a[i] == (a + b)[i];
      }
    }
  }

  // ----- policy expressions -----

  const MAX_DEPTH := 32
  const MAX_NODES := 512

  datatype Expression = All(operands: seq<Expression>) | Any(operands: seq<Expression>) | Not(operand: Expression) | Comparison

  function Depth(e: Expression): nat {
    match e
    case Comparison => 1
    case Not(operand) => 1 + Depth(operand)
    case All(operands) => 1 + DeepestOf(operands)
    case Any(operands) => 1 + DeepestOf(operands)
  }

  function DeepestOf(es: seq<Expression>): nat {
    if es == [] then 0 else
      var first, rest := Depth(es[0]), DeepestOf(es[1..]);
      if first > rest then first else rest
  }

  function Size(e: Expression): nat {
    match e
    case Comparison => 1
    case Not(operand) => 1 + Size(operand)
    case All(operands) => 1 + SizeOf(operands)
    case Any(operands) => 1 + SizeOf(operands)
  }

  function SizeOf(es: seq<Expression>): nat {
    if es == [] then 0 else Size(es[0]) + SizeOf(es[1..])
  }

  lemma {:induction false} SizePositive(e: Expression)
    ensures Size(e) >= 1 && Depth(e) >= 1
  {
  }

  class PolicyWalk {
    var nodes: nat

    constructor ()
      ensures nodes == 0
    {
      nodes := 0;
    }

    /** Stops at the first node past either limit, so at most one node beyond the limit is ever visited. */
    method Walk(e: Expression, depth: nat) returns (ok: bool)
      requires nodes <= MAX_NODES && 1 <= depth <= MAX_DEPTH + 1
      modifies this
      ensures ok <==> depth - 1 + Depth(e) <= MAX_DEPTH && old(nodes) + Size(e) <= MAX_NODES
      ensures ok ==> nodes == old(nodes) + Size(e)
      ensures nodes <= MAX_NODES + 1
      decreases e, 1
    {
      SizePositive(e);
      nodes := nodes + 1;
      if depth > MAX_DEPTH || nodes > MAX_NODES {
        return false;
      }
      match e {
        case Comparison =>
          ok := true;
        case Not(operand) =>
          ok := Walk(operand, depth + 1);
        case All(operands) =>
          ok := WalkEach(e, operands, depth + 1);
        case Any(operands) =>
          ok := WalkEach(e, operands, depth + 1);
      }
    }

    method WalkEach(ghost parent: Expression, operands: seq<Expression>, depth: nat) returns (ok: bool)
      requires nodes <= MAX_NODES && 2 <= depth <= MAX_DEPTH + 1
      requires forall i :: 0 <= i < |operands| ==> operands[i] < parent
      modifies this
      ensures ok <==> depth - 1 + DeepestOf(operands) <= MAX_DEPTH && old(nodes) + SizeOf(operands) <= MAX_NODES
      ensures ok ==> nodes == old(nodes) + SizeOf(operands)
      ensures nodes <= MAX_NODES + 1
      decreases parent, 0
    {
      ok := true;
      var i := 0;
      while ok && i < |operands|
        invariant 0 <= i <= |operands|
        invariant nodes <= MAX_NODES + 1 && (ok ==> nodes <= MAX_NODES)
        invariant ok ==> old(nodes) + SizeOf(operands) == nodes + SizeOf(operands[i..])
        invariant (depth - 1 + DeepestOf(operands) <= MAX_DEPTH && old(nodes) + SizeOf(operands) <= MAX_NODES)
                  <==> ok && depth - 1 + DeepestOf(operands[i..]) <= MAX_DEPTH && nodes + SizeOf(operands[i..]) <= MAX_NODES
      {
        assert operands[i..][0] == operands[i] && operands[i..][1..] == operands[i + 1..];
        ok := Walk(operands[i], depth);
        i := i + 1;
      }
    }
  }

  /** A policy is accepted exactly when it is at most 32 deep and has at most 512 nodes. */
  method ValidateExpression(e: Expression) returns (ok: bool)
    ensures ok <==> Depth(e) <= MAX_DEPTH && Size(e) <= MAX_NODES
  {
    var walk := new PolicyWalk();
    ok := walk.Walk(e, 1);
  }
}
