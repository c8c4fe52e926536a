/** The heading-stack tree builder: a flat sequence of Markdown blocks becomes a forest of sections.
  *
  * The builder keeps the open headings on a stack.  It is proved to insert each block at the right edge
  * of one tree, and that insertion and flattening are inverse to each other. */
module HeadingTree {
  import opened Wrappers

  datatype Heading<L, C> = Heading(level: nat, content: C, children: seq<BlockNode<L, C>>)

  datatype BlockNode<L, C> = HeadingBlock(heading: Heading<L, C>) | LeafBlock(leaf: L)

  /** A node of the parsed document: a heading, whose inline content may fail to convert, a block of
    * another supported kind, which may fail too, or a kind that is ignored. */
  datatype Node<L, C> = HeadingNode(depth: nat, inline: Result<C>) | Block(converted: Result<L>) | Unsupported

  datatype Ast<L, C> = Root(nodes: seq<Node<L, C>>) | NotRoot

  /** What a node contributes to the document. */
  datatype Event<L, C> = Section(level: nat, content: C) | Content(leaf: L)

  // ---------------------------------------------------------------- the builder's state

  datatype State<L, C> = State(stack: seq<Heading<L, C>>, output: seq<BlockNode<L, C>>)

  function WithChild<L, C>(h: Heading<L, C>, block: BlockNode<L, C>): Heading<L, C> {
    h.(children := h.children + [block])
  }

  /** A block goes to the innermost open heading, or to the document. */
  function Add<L, C>(s: State<L, C>, block: BlockNode<L, C>): State<L, C> {
    if s.stack == [] then s.(output := s.output + [block])
    else
      var n := |s.stack| - 1;
      s.(stack := s.stack[..n] + [WithChild(s.stack[n], block)])
  }

  function PopOne<L, C>(s: State<L, C>): (r: State<L, C>)
    requires s.stack != []
    ensures |r.stack| == |s.stack| - 1
  {
    Add(s.(stack := s.stack[..|s.stack| - 1]), HeadingBlock(s.stack[|s.stack| - 1]))
  }

  /** Closes the headings that are at least as deep as `level`. */
  function CloseDeeper<L, C>(s: State<L, C>, level: nat): State<L, C>
    decreases |s.stack|
  {
    if s.stack != [] && s.stack[|s.stack| - 1].level >= level then CloseDeeper(PopOne(s), level) else s
  }

  function Flush<L, C>(s: State<L, C>): seq<BlockNode<L, C>>
    decreases |s.stack|
  {
    if s.stack == [] then s.output else Flush(PopOne(s))
  }

  function Push<L, C>(s: State<L, C>, h: Heading<L, C>): State<L, C> { s.(stack := s.stack + [h]) }

  function Receive<L, C>(s: State<L, C>, e: Event<L, C>): State<L, C> {
    match e
    case Section(level, content) => Push(CloseDeeper(s, level), Heading(level, content, []))
    case Content(leaf) => Add(s, LeafBlock(leaf))
  }

  function ReceiveAll<L, C>(s: State<L, C>, events: seq<Event<L, C>>): State<L, C>
    decreases |events|
  {
    if events == [] then s else ReceiveAll(Receive(s, events[0]), events[1..])
  }

  predicate Fails<L, C>(node: Node<L, C>) {
    match node
    case HeadingNode(_, inline) => inline.Err?
    case Block(converted) => converted.Err?
    case Unsupported => false
  }

  function ErrorOf<L, C>(node: Node<L, C>): string
    requires Fails(node)
  {
    if node.HeadingNode? then node.inline.error else node.converted.error
  }

  /** The supported blocks of the document in order, or the error of the first one that fails. */
  function Events<L, C>(nodes: seq<Node<L, C>>): Result<seq<Event<L, C>>> {
    if nodes == [] then Ok([])
    else if Fails(nodes[0]) then Err(ErrorOf(nodes[0]))
    else
      var rest := Events(nodes[1..]);
      if rest.Err? then rest else Ok(EventsOf(nodes[0]) + rest.value)
  }

  function EventsOf<L, C>(node: Node<L, C>): seq<Event<L, C>>
    requires !Fails(node)
  {
    match node
    case HeadingNode(depth, inline) => [Section(depth, inline.value)]
    case Block(converted) => [Content(converted.value)]
    case Unsupported => []
  }

  function Build<L, C>(events: seq<Event<L, C>>): seq<BlockNode<L, C>> {
    Flush(ReceiveAll(State([], []), events))
  }

  function Convert<L, C>(root: Ast<L, C>): Result<seq<BlockNode<L, C>>> {
    match root
    case Root(nodes) => (var events := Events(nodes);
                         if events.Err? then Err(events.error) else Ok(Build(events.value)))
    case NotRoot => Err("Expected root node")
  }

  // ---------------------------------------------------------------- insertion at the right edge

  /** The simple form of one step: the block goes into the last section if that is shallower, and at the
    * end of the forest otherwise. */
  function Insert<L, C>(forest: seq<BlockNode<L, C>>, e: Event<L, C>): seq<BlockNode<L, C>>
    decreases forest
  {
    if Enters(forest, e) then
      var n := |forest| - 1;
      assert (forest decreases to forest[n]);
      var h := forest[n].heading;
      forest[..n] + [HeadingBlock(h.(children := Insert(h.children, e)))]
    else forest + [if e.Section? then HeadingBlock(Heading(e.level, e.content, [])) else LeafBlock(e.leaf)]
  }

  /** The block belongs inside the last section of the forest. */
  predicate Enters<L, C>(forest: seq<BlockNode<L, C>>, e: Event<L, C>) {
    && forest != [] && forest[|forest| - 1].HeadingBlock?
    && (e.Section? ==> forest[|forest| - 1].heading.level < e.level)
  }

  function InsertAll<L, C>(forest: seq<BlockNode<L, C>>, events: seq<Event<L, C>>): seq<BlockNode<L, C>>
    decreases |events|
  {
    if events == [] then forest else InsertAll(Insert(forest, events[0]), events[1..])
  }

  /** The tree of the open headings: each holds the next one as its last child. */
  function Spine<L, C>(stack: seq<Heading<L, C>>): seq<BlockNode<L, C>> {
    if stack == [] then []
    else [HeadingBlock(stack[0].(children := stack[0].children + Spine(stack[1..])))]
  }

  /** The forest that a state stands for. */
  function Forest<L, C>(s: State<L, C>): seq<BlockNode<L, C>> { s.output + Spine(s.stack) }

  // ---------------------------------------------------------------- the stack

  predicate Increasing<L, C>(stack: seq<Heading<L, C>>) {
    forall i, j :: 0 <= i < j < |stack| ==> stack[i].level < stack[j].level
  }

  predicate Leaves<L, C>(blocks: seq<BlockNode<L, C>>) {
    forall k :: 0 <= k < |blocks| ==> blocks[k].LeafBlock?
  }

  /** What every step keeps: open headings get strictly deeper, and the place that takes the next block
    * has no section yet. */
  predicate Open<L, C>(s: State<L, C>) {
    && Increasing(s.stack)
    && if s.stack == [] then Leaves(s.output) else Leaves(s.stack[|s.stack| - 1].children)
  }

  lemma {:induction false} SpineOfLast<L, C>(stack: seq<Heading<L, C>>, h: Heading<L, C>)
    requires stack != []
    ensures Spine(stack + [h])
         == Spine(stack[..|stack| - 1] + [WithChild(stack[|stack| - 1], HeadingBlock(h))])
  {
    var n := |stack| - 1;
    var parent := WithChild(stack[n], HeadingBlock(h));
    if n == 0 {
      SpineOfOne(h);
      SpineOfOne(parent);
      assert (stack + [h])[1..] == [h] && stack[..n] + [parent] == [parent];
    } else {
      assert (stack + [h])[1..] == stack[1..] + [h];
      assert (stack[..n] + [parent])[1..] == stack[1..][..n - 1] + [parent];
      SpineOfLast(stack[1..], h);
    }
  }

  lemma SpineOfOne<L, C>(h: Heading<L, C>)
    ensures Spine([h]) == [HeadingBlock(h)]
  {
    assert [h][1..] == [] && h.children + [] == h.children;
  }

  /** Closing a heading does not change the forest. */
  lemma PopKeepsForest<L, C>(s: State<L, C>)
    requires s.stack != []
    ensures Forest(PopOne(s)) == Forest(s)
  {
    var n := |s.stack| - 1;
    assert s.stack == s.stack[..n] + [s.stack[n]];
    if n == 0 {
      SpineOfOne(s.stack[0]);
    } else {
      SpineOfLast(s.stack[..n], s.stack[n]);
    }
  }

  lemma {:induction false} CloseKeepsForest<L, C>(s: State<L, C>, level: nat)
    requires Increasing(s.stack)
    ensures Forest(CloseDeeper(s, level)) == Forest(s)
    ensures Increasing(CloseDeeper(s, level).stack)
    ensures forall k :: 0 <= k < |CloseDeeper(s, level).stack| ==> CloseDeeper(s, level).stack[k].level < level
    decreases |s.stack|
  {
    if s.stack != [] && s.stack[|s.stack| - 1].level >= level {
      PopKeepsForest(s);
      CloseKeepsForest(PopOne(s), level);
    }
  }

  lemma {:induction false} FlushIsForest<L, C>(s: State<L, C>)
    ensures Flush(s) == Forest(s)
    decreases |s.stack|
  {
    if s.stack != [] {
      PopKeepsForest(s);
      FlushIsForest(PopOne(s));
    }
  }

  /** With all open headings shallower than the block and no section at the end of the innermost one,
    * the insertion goes down the open headings and appends there. */
  lemma {:induction false} InsertAtSpine<L, C>(front: seq<BlockNode<L, C>>, stack: seq<Heading<L, C>>, e: Event<L, C>)
    requires e.Section? ==> forall k :: 0 <= k < |stack| ==> stack[k].level < e.level
    requires !Enters(if stack == [] then front else stack[|stack| - 1].children, e)
    ensures Insert(front + Spine(stack), e)
         == front + if e.Section? then Spine(stack + [Heading(e.level, e.content, [])])
                    else if stack == [] then [LeafBlock(e.leaf)]
                    else Spine(stack[..|stack| - 1] + [WithChild(stack[|stack| - 1], LeafBlock(e.leaf))])
    decreases |stack|
  {
    if stack == [] {
      assert front + Spine(stack) == front;
      if e.Section? {
        var h: Heading<L, C> := Heading(e.level, e.content, []);
        SpineOfOne(h);
        assert stack + [h] == [h];
      }
    } else {
      var h := stack[0];
      var forest := front + Spine(stack);
      assert forest[..|forest| - 1] == front;
      InsertAtSpine(h.children, stack[1..], e);
      var next := if e.Section? then stack + [Heading(e.level, e.content, [])]
                  else stack[..|stack| - 1] + [WithChild(stack[|stack| - 1], LeafBlock(e.leaf))];
      if e.Section? {
        assert next[1..] == stack[1..] + [Heading(e.level, e.content, [])];
      } else if |stack| == 1 {
        SpineOfOne(next[0]);
        assert next == [next[0]];
      } else {
        assert next[1..] == stack[1..][..|stack| - 2] + [WithChild(stack[|stack| - 1], LeafBlock(e.leaf))];
      }
    }
  }

  lemma CloseLeavesRoom<L, C>(s: State<L, C>, level: nat, content: C)
    requires Open(s)
    ensures var c := CloseDeeper(s, level);
            !Enters(if c.stack == [] then c.output else c.stack[|c.stack| - 1].children, Section(level, content))
    decreases |s.stack|
  {
    if s.stack != [] && s.stack[|s.stack| - 1].level >= level {
      LastClosedIsDeep(PopOne(s), level, content);
    }
  }

  /** After a heading has been closed, the last block of its parent is a section at least as deep as
    * the new one. */
  lemma {:induction false} LastClosedIsDeep<L, C>(s: State<L, C>, level: nat, content: C)
    requires var last := if s.stack == [] then s.output else s.stack[|s.stack| - 1].children;
             !Enters(last, Section(level, content))
    ensures var c := CloseDeeper(s, level);
            !Enters(if c.stack == [] then c.output else c.stack[|c.stack| - 1].children, Section(level, content))
    decreases |s.stack|
  {
    if s.stack != [] && s.stack[|s.stack| - 1].level >= level {
      LastClosedIsDeep(PopOne(s), level, content);
    }
  }

  /** Each step of the builder is an insertion at the right edge of the forest. */
  lemma ReceiveInserts<L, C>(s: State<L, C>, e: Event<L, C>)
    requires Open(s)
    ensures Open(Receive(s, e)) && Forest(Receive(s, e)) == Insert(Forest(s), e)
  {
    if e.Section? {
      CloseKeepsForest(s, e.level);
      CloseLeavesRoom(s, e.level, e.content);
      var c := CloseDeeper(s, e.level);
      InsertAtSpine(c.output, c.stack, e);
    } else {
      InsertAtSpine(s.output, s.stack, e);
    }
  }

  /** In every reachable state the open headings are strictly increasing in level, and the forest is
    * what inserting the blocks one by one gives. */
  lemma {:induction false} StackRefinesInsertion<L, C>(s: State<L, C>, events: seq<Event<L, C>>)
    requires Open(s)
    ensures Open(ReceiveAll(s, events))
    ensures Forest(ReceiveAll(s, events)) == InsertAll(Forest(s), events)
    decreases |events|
  {
    if events != [] {
      ReceiveInserts(s, events[0]);
      StackRefinesInsertion(Receive(s, events[0]), events[1..]);
    }
  }

  lemma BuildRefinesInsertion<L, C>(events: seq<Event<L, C>>)
    ensures Build(events) == InsertAll([], events)
    ensures Increasing(ReceiveAll(State([], []), events).stack)
  {
    var start: State<L, C> := State([], []);
    StackRefinesInsertion(start, events);
    FlushIsForest(ReceiveAll(start, events));
    assert Forest(start) == [];
  }

  // ---------------------------------------------------------------- flattening

  /** The blocks of a forest in document order. */
  function Flatten<L, C>(forest: seq<BlockNode<L, C>>): seq<Event<L, C>>
    decreases forest
  {
    if forest == [] then [] else FlattenBlock(forest[0]) + Flatten(forest[1..])
  }

  function FlattenBlock<L, C>(block: BlockNode<L, C>): seq<Event<L, C>>
    decreases block
  {
    match block
    case HeadingBlock(h) => [Section(h.level, h.content)] + Flatten(h.children)
    case LeafBlock(leaf) => [Content(leaf)]
  }

  lemma {:induction false} FlattenOfConcat<L, C>(a: seq<BlockNode<L, C>>, b: seq<BlockNode<L, C>>)
    ensures Flatten(a + b) == Flatten(a) + Flatten(b)
    decreases |a|
  {
    if a == [] {
      assert a + b == b;
    } else {
      assert (a + b)[1..] == a[1..] + b;
      FlattenOfConcat(a[1..], b);
    }
  }

  lemma FlattenOfOne<L, C>(block: BlockNode<L, C>)
    ensures Flatten([block]) == FlattenBlock(block)
  {
    assert [block][1..] == [];
  }

  lemma {:induction false} InsertFlattens<L, C>(forest: seq<BlockNode<L, C>>, e: Event<L, C>)
    ensures Flatten(Insert(forest, e)) == Flatten(forest) + [e]
    decreases forest
  {
    if Enters(forest, e) {
      var n := |forest| - 1;
      var h := forest[n].heading;
      assert (forest decreases to forest[n]);
      InsertFlattens(h.children, e);
      assert forest == forest[..n] + [forest[n]];
      FlattenOfConcat(forest[..n], [forest[n]]);
      var changed := HeadingBlock(h.(children := Insert(h.children, e)));
      FlattenOfConcat(forest[..n], [changed]);
      FlattenOfOne(forest[n]);
      FlattenOfOne(changed);
    } else {
      var block := if e.Section? then HeadingBlock(Heading(e.level, e.content, [])) else LeafBlock(e.leaf);
      FlattenOfConcat(forest, [block]);
      FlattenOfOne(block);
    }
  }

  lemma {:induction false} InsertAllFlattens<L, C>(forest: seq<BlockNode<L, C>>, events: seq<Event<L, C>>)
    ensures Flatten(InsertAll(forest, events)) == Flatten(forest) + events
    decreases |events|
  {
    if events != [] {
      InsertFlattens(forest, events[0]);
      InsertAllFlattens(Insert(forest, events[0]), events[1..]);
    }
  }

  /** Flattening the built forest gives back the supported blocks in order. */
  lemma FlattenOfBuild<L, C>(events: seq<Event<L, C>>)
    ensures Flatten(Build(events)) == events
  {
    BuildRefinesInsertion(events);
    InsertAllFlattens([], events);
  }

  // ---------------------------------------------------------------- well-formed forests

  /** Leaves come first, then sections of non-increasing level, all of them deeper than `above`; the
    * same within each section. */
  predicate WellFormed<L, C>(forest: seq<BlockNode<L, C>>, above: int)
    decreases forest
  {
    && (forall k :: 0 <= k < |forest| ==> WellFormedBlock(forest[k], above))
    && forall k :: 0 <= k < |forest| - 1 ==> MayFollow(forest[k], forest[k + 1])
  }

  predicate WellFormedBlock<L, C>(block: BlockNode<L, C>, above: int)
    decreases block
  {
    match block
    case HeadingBlock(h) => h.level > above && WellFormed(h.children, h.level)
    case LeafBlock(_) => true
  }

  predicate MayFollow<L, C>(block: BlockNode<L, C>, next: BlockNode<L, C>) {
    block.HeadingBlock? ==> next.HeadingBlock? && next.heading.level <= block.heading.level
  }

  lemma {:induction false} InsertKeepsWellFormed<L, C>(forest: seq<BlockNode<L, C>>, e: Event<L, C>, above: int)
    requires WellFormed(forest, above) && (e.Section? ==> e.level > above)
    ensures WellFormed(Insert(forest, e), above)
    decreases forest
  {
    if Enters(forest, e) {
      var h := forest[|forest| - 1].heading;
      assert (forest decreases to forest[|forest| - 1]);
      InsertKeepsWellFormed(h.children, e, h.level);
    }
  }

  lemma {:induction false} InsertAllWellFormed<L, C>(forest: seq<BlockNode<L, C>>, events: seq<Event<L, C>>)
    requires WellFormed(forest, -1)
    ensures WellFormed(InsertAll(forest, events), -1)
    decreases |events|
  {
    if events != [] {
      InsertKeepsWellFormed(forest, events[0], -1);
      InsertAllWellFormed(Insert(forest, events[0]), events[1..]);
    }
  }

  lemma BuildIsWellFormed<L, C>(events: seq<Event<L, C>>)
    ensures WellFormed(Build(events), -1)
  {
    BuildRefinesInsertion(events);
    InsertAllWellFormed([], events);
  }

  // ---------------------------------------------------------------- rebuilding

  lemma {:induction false} InsertAllOfConcat<L, C>(forest: seq<BlockNode<L, C>>, a: seq<Event<L, C>>,
                                                  b: seq<Event<L, C>>)
    ensures InsertAll(forest, a + b) == InsertAll(InsertAll(forest, a), b)
    decreases |a|
  {
    if a == [] {
      assert a + b == b;
    } else {
      assert (a + b)[1..] == a[1..] + b;
      InsertAllOfConcat(Insert(forest, a[0]), a[1..], b);
    }
  }

  predicate Deeper<L, C>(events: seq<Event<L, C>>, level: int) {
    forall k :: 0 <= k < |events| && events[k].Section? ==> events[k].level > level
  }

  lemma {:induction false} WellFormedIsDeeper<L, C>(forest: seq<BlockNode<L, C>>, above: int)
    requires WellFormed(forest, above)
    ensures Deeper(Flatten(forest), above)
    decreases forest, 1
  {
    if forest != [] {
      WellFormedTail(forest, above);
      WellFormedIsDeeper(forest[1..], above);
      if forest[0].HeadingBlock? {
        assert (forest decreases to forest[0]);
        WellFormedIsDeeper(forest[0].heading.children, forest[0].heading.level);
      }
    }
  }

  lemma WellFormedTail<L, C>(forest: seq<BlockNode<L, C>>, above: int)
    requires forest != [] && WellFormed(forest, above)
    ensures WellFormed(forest[1..], above)
  {
    var rest := forest[1..];
    assert forall k :: 0 <= k < |rest| ==> rest[k] == forest[k + 1];
  }

  /** Deeper blocks all go into the last section. */
  lemma {:induction false} InsertIntoLast<L, C>(front: seq<BlockNode<L, C>>, h: Heading<L, C>, events: seq<Event<L, C>>)
    requires Deeper(events, h.level)
    ensures InsertAll(front + [HeadingBlock(h)], events)
         == front + [HeadingBlock(h.(children := InsertAll(h.children, events)))]
    decreases |events|
  {
    if events != [] {
      var forest := front + [HeadingBlock(h)];
      assert forest[..|forest| - 1] == front;
      assert Enters(forest, events[0]);
      InsertIntoLast(front, h.(children := Insert(h.children, events[0])), events[1..]);
    }
  }

  /** Inserting the blocks of well-formed trees after a forest they may follow appends the trees. */
  lemma {:induction false} Rebuild<L, C>(front: seq<BlockNode<L, C>>, forest: seq<BlockNode<L, C>>, above: int)
    requires WellFormed(forest, above)
    requires front != [] && forest != [] ==> MayFollow(front[|front| - 1], forest[0])
    ensures InsertAll(front, Flatten(forest)) == front + forest
    decreases forest, 1
  {
    if forest == [] {
      assert front + forest == front;
    } else {
      var block, rest := forest[0], forest[1..];
      InsertAllOfConcat(front, FlattenBlock(block), Flatten(rest));
      RebuildBlock(front, block);
      WellFormedTail(forest, above);
      assert rest != [] ==> MayFollow(forest[0], forest[1]);
      Rebuild(front + [block], rest, above);
      assert (front + [block]) + rest == front + forest;
    }
  }

  lemma {:induction false} RebuildBlock<L, C>(front: seq<BlockNode<L, C>>, block: BlockNode<L, C>)
    requires front != [] ==> MayFollow(front[|front| - 1], block)
    requires block.HeadingBlock? ==> WellFormed(block.heading.children, block.heading.level)
    ensures InsertAll(front, FlattenBlock(block)) == front + [block]
    decreases block, 0
  {
    var events := FlattenBlock(block);
    match block {
      case LeafBlock(leaf) =>
        assert events[1..] == [];
      case HeadingBlock(h) =>
        assert events[1..] == Flatten(h.children);
        assert Insert(front, events[0]) == front + [HeadingBlock(h.(children := []))];
        WellFormedIsDeeper(h.children, h.level);
        InsertIntoLast(front, h.(children := []), Flatten(h.children));
        Rebuild([], h.children, h.level);
        assert [] + h.children == h.children;
    }
  }

  /** Rebuilding a well-formed forest from its flattening gives that same forest. */
  lemma BuildOfFlatten<L, C>(forest: seq<BlockNode<L, C>>)
    requires WellFormed(forest, -1)
    ensures Build(Flatten(forest)) == forest
  {
    BuildRefinesInsertion(Flatten(forest));
    Rebuild([], forest, -1);
    assert [] + forest == forest;
  }

  /** The forests that come out are exactly the well-formed ones, and each document has its own. */
  lemma WellFormedExactlyBuilt<L, C>(forest: seq<BlockNode<L, C>>)
    ensures WellFormed(forest, -1) <==> exists events :: Build(events) == forest
  {
    if WellFormed(forest, -1) {
      BuildOfFlatten(forest);
    }
    forall events | Build(events) == forest ensures WellFormed(forest, -1) {
      BuildIsWellFormed(events);
    }
  }

  // ---------------------------------------------------------------- errors

  /** The conversion fails exactly when some block fails, with the error of the first one. */
  lemma {:induction false} FirstErrorWins<L, C>(nodes: seq<Node<L, C>>)
    ensures Events(nodes).Ok? <==> forall k :: 0 <= k < |nodes| ==> !Fails(nodes[k])
    ensures Events(nodes).Err? ==>
              exists k :: 0 <= k < |nodes| && Fails(nodes[k]) && Events(nodes).error == ErrorOf(nodes[k])
                          && forall j :: 0 <= j < k ==> !Fails(nodes[j])
  {
    if nodes != [] && !Fails(nodes[0]) {
      FirstErrorWins(nodes[1..]);
      if Events(nodes[1..]).Err? {
        var k :| 0 <= k < |nodes[1..]| && Fails(nodes[1..][k]) && Events(nodes[1..]).error == ErrorOf(nodes[1..][k])
                 && forall j :: 0 <= j < k ==> !Fails(nodes[1..][j]);
        assert Fails(nodes[k + 1]) && ErrorOf(nodes[k + 1]) == Events(nodes).error;
        assert forall j :: 0 <= j < k + 1 ==> !Fails(nodes[j]) by {
          assert forall j :: 1 <= j < k + 1 ==> nodes[j] == nodes[1..][j - 1];
        }
      } else {
        assert forall j :: 1 <= j < |nodes| ==> nodes[j] == nodes[1..][j - 1];
      }
    }
  }

  // ---------------------------------------------------------------- the converter

  class MdAstConverter<L, C> {
    var headingStack: seq<Heading<L, C>>

    constructor ()
      ensures headingStack == []
    {
      headingStack := [];
    }

    method AddToCurrentHeadingOrOutput(block: BlockNode<L, C>, output: seq<BlockNode<L, C>>)
      returns (newOutput: seq<BlockNode<L, C>>)
      modifies this
      ensures State(headingStack, newOutput) == Add(State(old(headingStack), output), block)
    {
      newOutput := output;
      if headingStack != [] {
        var n := |headingStack| - 1;
        headingStack := headingStack[..n] + [WithChild(headingStack[n], block)];
      } else {
        newOutput := output + [block];
      }
    }

    /** Takes the innermost heading off the stack and adds it to its parent. */
    method PopHeading(output: seq<BlockNode<L, C>>) returns (newOutput: seq<BlockNode<L, C>>)
      requires headingStack != []
      modifies this
      ensures State(headingStack, newOutput) == PopOne(State(old(headingStack), output))
    {
      var completed := headingStack[|headingStack| - 1];
      headingStack := headingStack[..|headingStack| - 1];
      newOutput := AddToCurrentHeadingOrOutput(HeadingBlock(completed), output);
    }

    /** Opens a heading.  Deeper and equal ones are closed even when the new heading fails. */
    method HandleHeading(depth: nat, inline: Result<C>, output: seq<BlockNode<L, C>>)
      returns (newOutput: seq<BlockNode<L, C>>, error: Result<()>)
      modifies this
      ensures error == (if inline.Ok? then Ok(()) else Err(inline.error))
      ensures State(headingStack, newOutput)
           == if inline.Ok? then Receive(State(old(headingStack), output), Section(depth, inline.value))
              else CloseDeeper(State(old(headingStack), output), depth)
    {
      newOutput, error := output, Ok(());
      while headingStack != [] && headingStack[|headingStack| - 1].level >= depth
        invariant CloseDeeper(State(headingStack, newOutput), depth)
               == CloseDeeper(State(old(headingStack), output), depth)
        decreases |headingStack|
      {
        newOutput := PopHeading(newOutput);
      }
      if inline.Err? {
        error := Err(inline.error);
      } else {
        headingStack := headingStack + [Heading(depth, inline.value, [])];
      }
    }

    method ProcessBlockNode(node: Node<L, C>, output: seq<BlockNode<L, C>>)
      returns (newOutput: seq<BlockNode<L, C>>, error: Result<()>)
      modifies this
      ensures error == (if Fails(node) then Err(ErrorOf(node)) else Ok(()))
      ensures !Fails(node) ==>
                State(headingStack, newOutput) == ReceiveAll(State(old(headingStack), output), EventsOf(node))
    {
      newOutput, error := output, Ok(());
      match node {
        case HeadingNode(depth, inline) =>
          newOutput, error := HandleHeading(depth, inline, output);
          if inline.Ok? {
            ReceiveOne(State(old(headingStack), output), Section(depth, inline.value));
          }
        case Block(converted) =>
          if converted.Err? {
            error := Err(converted.error);
          } else {
            newOutput := AddToCurrentHeadingOrOutput(LeafBlock(converted.value), output);
            ReceiveOne(State(old(headingStack), output), Content(converted.value));
          }
        case Unsupported =>
      }
    }

    method FlushHeadings(output: seq<BlockNode<L, C>>) returns (newOutput: seq<BlockNode<L, C>>)
      modifies this
      ensures headingStack == [] && newOutput == Flush(State(old(headingStack), output))
    {
      newOutput := output;
      while headingStack != []
        invariant Flush(State(headingStack, newOutput)) == Flush(State(old(headingStack), output))
        decreases |headingStack|
      {
        newOutput := PopHeading(newOutput);
      }
    }

    method ConvertRoot(root: Ast<L, C>) returns (document: Result<seq<BlockNode<L, C>>>)
      requires headingStack == []
      modifies this
      ensures document == Convert(root)
      ensures document.Ok? ==> headingStack == []
    {
      if root.NotRoot? {
        return Err("Expected root node");
      }
      var children: seq<BlockNode<L, C>> := [];
      ghost var start: State<L, C> := State([], []);
      assert root.nodes[0..] == root.nodes;
      for i := 0 to |root.nodes|
        invariant Agrees(State(headingStack, children), root.nodes[i..], start, root.nodes)
      {
        AgreesStep(State(headingStack, children), root.nodes, i, start);
        var error: Result<()>;
        children, error := ProcessBlockNode(root.nodes[i], children);
        if error.Err? {
          return Err(error.error);
        }
      }
      children := FlushHeadings(children);
      document := Ok(children);
    }

    /** Headings left over from a conversion that failed are dropped first. */
    method ConvertMarkdown(parsed: Result<Ast<L, C>>) returns (document: Result<seq<BlockNode<L, C>>>)
      modifies this
      ensures document == if parsed.Err? then Err(parsed.error) else Convert(parsed.value)
    {
      headingStack := [];
      if parsed.Err? {
        return Err(parsed.error);
      }
      document := ConvertRoot(parsed.value);
    }
  }

  lemma ReceiveOne<L, C>(s: State<L, C>, e: Event<L, C>)
    ensures ReceiveAll(s, [e]) == Receive(s, e)
  {
    assert [e][1..] == [];
  }

  lemma {:induction false} ReceiveAllOfConcat<L, C>(s: State<L, C>, a: seq<Event<L, C>>, b: seq<Event<L, C>>)
    ensures ReceiveAll(s, a + b) == ReceiveAll(ReceiveAll(s, a), b)
    decreases |a|
  {
    if a == [] {
      assert a + b == b;
    } else {
      assert (a + b)[1..] == a[1..] + b;
      ReceiveAllOfConcat(Receive(s, a[0]), a[1..], b);
    }
  }

  /** What is still to come from here gives what the whole document gives. */
  ghost predicate Agrees<L, C>(s: State<L, C>, rest: seq<Node<L, C>>, start: State<L, C>, nodes: seq<Node<L, C>>) {
    var all, left := Events(nodes), Events(rest);
    && (left.Err? ==> all == left)
    && (left.Ok? ==> all.Ok? && ReceiveAll(s, left.value) == ReceiveAll(start, all.value))
  }

  lemma AgreesStep<L, C>(s: State<L, C>, nodes: seq<Node<L, C>>, i: nat, start: State<L, C>)
    requires i < |nodes| && Agrees(s, nodes[i..], start, nodes)
    ensures Fails(nodes[i]) ==> Events(nodes) == Err(ErrorOf(nodes[i]))
    ensures !Fails(nodes[i]) ==> Agrees(ReceiveAll(s, EventsOf(nodes[i])), nodes[i + 1..], start, nodes)
  {
    assert nodes[i..][1..] == nodes[i + 1..];
    if !Fails(nodes[i]) {
      var rest := Events(nodes[i + 1..]);
      if rest.Ok? {
        ReceiveAllOfConcat(s, EventsOf(nodes[i]), rest.value);
      }
    }
  }
}
