/** What a converted document holds, node by node. */
module HeadingDocuments {
  import opened Wrappers
  import opened HeadingTree

  /** How many of the first `k` nodes are of a supported kind. */
  function SupportedBefore<L, C>(nodes: seq<Node<L, C>>, k: nat): nat
    requires k <= |nodes|
  {
    if k == 0 then 0 else SupportedBefore(nodes, k - 1) + if nodes[k - 1].Unsupported? then 0 else 1
  }

  /** The heading's content or the block could not be converted, for this reason. */
  predicate FailsWith<L, C>(node: Node<L, C>, error: string) {
    match node
    case HeadingNode(_, inline) => inline.Err? && inline.error == error
    case Block(converted) => converted.Err? && converted.error == error
    case Unsupported => false
  }

  ghost predicate NoneFails<L, C>(nodes: seq<Node<L, C>>) {
    forall k :: 0 <= k < |nodes| ==> Succeeds(nodes[k])
  }

  predicate Succeeds<L, C>(node: Node<L, C>) {
    match node
    case HeadingNode(_, inline) => inline.Ok?
    case Block(converted) => converted.Ok?
    case Unsupported => true
  }

  /** The node's own block: a heading with its depth and content, or the converted block. */
  ghost predicate IsBlockOf<L, C>(e: Event<L, C>, node: Node<L, C>) {
    match node
    case HeadingNode(depth, inline) => inline.Ok? && e == Section(depth, inline.value)
    case Block(converted) => converted.Ok? && e == Content(converted.value)
    case Unsupported => false
  }

  /** The blocks are those of the supported nodes, each at its place among them. */
  ghost predicate HoldsNodes<L, C>(blocks: seq<Event<L, C>>, nodes: seq<Node<L, C>>) {
    && |blocks| == SupportedBefore(nodes, |nodes|)
    && forall k :: 0 <= k < |nodes| && !nodes[k].Unsupported? ==>
         SupportedBefore(nodes, k) < |blocks| && IsBlockOf(blocks[SupportedBefore(nodes, k)], nodes[k])
  }

  lemma {:induction false} CountOfTail<L, C>(nodes: seq<Node<L, C>>, k: nat)
    requires 0 < k <= |nodes|
    ensures SupportedBefore(nodes, k) == (if nodes[0].Unsupported? then 0 else 1) + SupportedBefore(nodes[1..], k - 1)
  {
    if k > 1 {
      CountOfTail(nodes, k - 1);
    }
  }

  lemma {:induction false} EventsHoldNodes<L, C>(nodes: seq<Node<L, C>>)
    requires NoneFails(nodes)
    ensures Events(nodes).Ok? && HoldsNodes(Events(nodes).value, nodes)
  {
    if nodes != [] {
      var tail := nodes[1..];
      assert forall k :: 0 <= k < |tail| ==> tail[k] == nodes[k + 1];
      EventsHoldNodes(tail);
      HoldsOneMore(nodes, EventsOf(nodes[0]), Events(tail).value);
    }
  }

  lemma HoldsOneMore<L, C>(nodes: seq<Node<L, C>>, first: seq<Event<L, C>>, rest: seq<Event<L, C>>)
    requires nodes != [] && HoldsNodes(rest, nodes[1..])
    requires if nodes[0].Unsupported? then first == [] else |first| == 1 && IsBlockOf(first[0], nodes[0])
    ensures HoldsNodes(first + rest, nodes)
  {
    var tail, blocks := nodes[1..], first + rest;
    CountOfTail(nodes, |nodes|);
    forall k | 0 <= k < |nodes| && !nodes[k].Unsupported?
      ensures SupportedBefore(nodes, k) < |blocks| && IsBlockOf(blocks[SupportedBefore(nodes, k)], nodes[k])
    {
      if k > 0 {
        CountOfTail(nodes, k);
        assert !tail[k - 1].Unsupported?;
        assert blocks[|first| + SupportedBefore(tail, k - 1)] == rest[SupportedBefore(tail, k - 1)];
      }
    }
  }

  /** The document of nodes none of which fails holds, in document order, exactly the blocks of the supported
    * nodes: as many, each with its own depth and content, at its place among the supported ones. */
  lemma DocumentHoldsNodes<L, C>(nodes: seq<Node<L, C>>)
    requires NoneFails(nodes)
    ensures Convert(Root(nodes)).Ok? && HoldsNodes(Flatten(Convert(Root(nodes)).value), nodes)
  {
    EventsHoldNodes(nodes);
    FlattenOfBuild(Events(nodes).value);
  }

  /** A document is refused exactly when it is no root or some node fails, with the first failure's error. */
  lemma DocumentFailsExactlyWhen<L, C>(nodes: seq<Node<L, C>>, other: Ast<L, C>)
    ensures Convert(Root(nodes)).Ok? <==> NoneFails(nodes)
    ensures Convert(Root(nodes)).Err? ==>
              exists k :: 0 <= k < |nodes| && FailsWith(nodes[k], Convert(Root(nodes)).error)
                          && forall j :: 0 <= j < k ==> Succeeds(nodes[j])
    ensures other.NotRoot? ==> Convert(other).Err?
  {
    FirstErrorWins(nodes);
    assert forall k :: 0 <= k < |nodes| ==> (Fails(nodes[k]) <==> !Succeeds(nodes[k]));
    if Events(nodes).Err? {
      var k :| 0 <= k < |nodes| && Fails(nodes[k]) && Events(nodes).error == ErrorOf(nodes[k])
               && forall j :: 0 <= j < k ==> !Fails(nodes[j]);
      assert FailsWith(nodes[k], Events(nodes).error);
    }
  }
}
