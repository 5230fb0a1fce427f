/**
 * Where the writer is: the trees finished so far at every level that is still open. The lines printed, the
 * objects defined and the depth are functions of this place.
 */
module PsviPlaces {
  import opened PsviOutput
  import opened PsviComponents
  import opened PsviPlans
  import opened PsviExpansion

  datatype Place = Place(done: Nodes, around: Around) {
    function Depth(): nat {
      match around
      case Nothing => 0
      case Tagged(_, _, outer) => 1 + outer.Depth()
      case Commented(outer) => 1 + outer.Depth()
    }
  }

  datatype Around = Nothing | Tagged(tag: Tag, head: Head, outer: Place) | Commented(outer: Place)

  function Idle(): Place { Place(Start, Nothing) }

  function Enter(z: Place, tag: Tag, head: Head): Place { Place(Start, Tagged(tag, head, z)) }

  /** Where the writer is after showing these ordinary attributes: their group is opened by the first one. */
  function AttrPlace(z: Place, attrs: seq<DomAttr>): Place {
    if attrs == [] then z else Place(DomAttrNodes(attrs), Tagged(Attributes, Plain, z))
  }

  lemma SelectNone(attrs: seq<DomAttr>, z: Place)
    ensures Select(attrs, 0, false) == [] && NamespaceIndices(attrs, 0) == []
    ensures AttrPlace(z, []) == z
  {
  }

  /** The objects defined when the innermost level was entered. */
  function Before(c: Memory, z: Place): seq<Obj>
    decreases z, 0
  {
    match z.around
    case Nothing => []
    case Tagged(_, head, outer) => DefinedAt(c, outer) + HeadObj(head)
    case Commented(outer) => DefinedAt(c, outer)
  }

  /** The objects defined so far, in printing order. */
  function DefinedAt(c: Memory, z: Place): seq<Obj>
    decreases z, 1
  {
    Before(c, z) + Fixed(Expand(c, Before(c, z), z.done))
  }

  /** The lines printed so far. */
  function Printed(c: Memory, ids: map<Obj, string>, z: Place): seq<Token>
    decreases z, 1
  {
    Opened(c, ids, z) + Render(z.Depth(), ids, Expand(c, Before(c, z), z.done))
  }

  /** The lines printed up to and with the opening of the innermost level. */
  function Opened(c: Memory, ids: map<Obj, string>, z: Place): seq<Token>
    decreases z, 0
  {
    match z.around
    case Nothing => []
    case Tagged(tag, head, outer) => Printed(c, ids, outer) + [Open(outer.Depth(), tag, HeadAttrs(ids, head))]
    case Commented(outer) => Printed(c, ids, outer) + [CommentStart(outer.Depth())]
  }

  /** Every object mentioned so far has an id. */
  predicate KnownAt(c: Memory, ids: map<Obj, string>, z: Place) {
    Known(ids, Expand(c, Before(c, z), z.done)) &&
    match z.around
    case Nothing => true
    case Tagged(_, head, outer) => (head.Named? ==> head.obj in ids) && KnownAt(c, ids, outer)
    case Commented(outer) => KnownAt(c, ids, outer)
  }

  /** The places noted by the trees shown so far; none if no tree says. */
  function NotesAt(c: Memory, z: Place): seq<nat>
    decreases z
  {
    NotesIn(Expand(c, Before(c, z), z.done),
            match z.around
            case Nothing => []
            case Tagged(_, _, outer) => NotesAt(c, outer)
            case Commented(outer) => NotesAt(c, outer))
  }

  /** The objects mentioned so far. */
  function MentionedAt(c: Memory, z: Place): seq<Obj>
    decreases z
  {
    (match z.around
     case Nothing => []
     case Tagged(_, head, outer) => MentionedAt(c, outer) + HeadObj(head)
     case Commented(outer) => MentionedAt(c, outer))
    + Mentioned(Expand(c, Before(c, z), z.done))
  }

  function Append(z: Place, n: Node): Place { z.(done := More(z.done, n)) }

  lemma ExpandMore(c: Memory, d: seq<Obj>, f: Nodes, n: Node)
    ensures Expand(c, d, More(f, n)) == More(Expand(c, d, f), Step(c, d + Fixed(Expand(c, d, f)), n))
  {
  }

  lemma StepBranch(c: Memory, d: seq<Obj>, tag: Tag, head: Head, f: Nodes)
    ensures Step(c, d, Branch(tag, head, f)) == Branch(tag, head, Expand(c, d + HeadObj(head), f))
    ensures Step(c, d, Remark(f)) == Remark(Expand(c, d, f))
  {
  }

  lemma AppendPrints(c: Memory, ids: map<Obj, string>, z: Place, n: Node)
    ensures var s := Step(c, DefinedAt(c, z), n);
            && Printed(c, ids, Append(z, n)) == Printed(c, ids, z) + RenderNode(z.Depth(), ids, s)
            && DefinedAt(c, Append(z, n)) == DefinedAt(c, z) + FixedNode(s)
            && (KnownAt(c, ids, Append(z, n)) <==> KnownAt(c, ids, z) && KnownNode(ids, s))
  {
    hide Expand;
    hide Step;
    hide RenderNode;
    hide FixedNode;
    hide KnownNode;
    var b := Before(c, z);
    var z' := Append(z, n);
    ExpandMore(c, b, z.done, n);
    assert Before(c, z') == b && Opened(c, ids, z') == Opened(c, ids, z) && z'.Depth() == z.Depth();
  }

  /** Entering a level adds its opening line. */
  lemma EnterPrints(c: Memory, ids: map<Obj, string>, z: Place, tag: Tag, head: Head)
    ensures var z' := Enter(z, tag, head);
            && Printed(c, ids, z') == Printed(c, ids, z) + [Open(z.Depth(), tag, HeadAttrs(ids, head))]
            && DefinedAt(c, z') == DefinedAt(c, z) + HeadObj(head)
            && (KnownAt(c, ids, z') <==> KnownAt(c, ids, z) && (head.Named? ==> head.obj in ids))
  {
    hide HeadAttrs;
    hide HeadObj;
    var z' := Enter(z, tag, head);
    assert Expand(c, Before(c, z'), Start) == Start;
  }

  /** The node a level becomes when it is left, and the line that closes it. */
  function Whole(z: Place): Node
    requires !z.around.Nothing?
  {
    match z.around
    case Tagged(tag, head, _) => Branch(tag, head, z.done)
    case Commented(_) => Remark(z.done)
  }

  function CloseLine(z: Place): Token
    requires !z.around.Nothing?
  {
    match z.around
    case Tagged(tag, _, outer) => Close(outer.Depth(), tag)
    case Commented(outer) => CommentEnd(outer.Depth())
  }

  function Leave(z: Place): Place
    requires !z.around.Nothing?
  {
    Append(z.around.outer, Whole(z))
  }

  /** Leaving a level adds its close line, and nothing else changes. */
  lemma LeavePrints(c: Memory, ids: map<Obj, string>, z: Place)
    requires !z.around.Nothing?
    ensures Printed(c, ids, Leave(z)) == Printed(c, ids, z) + [CloseLine(z)]
    ensures DefinedAt(c, Leave(z)) == DefinedAt(c, z)
    ensures KnownAt(c, ids, Leave(z)) <==> KnownAt(c, ids, z)
  {
    if z.around.Tagged? {
      LeaveTagged(c, ids, z);
    } else {
      LeaveComment(c, ids, z);
    }
  }

  lemma LeaveTagged(c: Memory, ids: map<Obj, string>, z: Place)
    requires z.around.Tagged?
    ensures Printed(c, ids, Leave(z)) == Printed(c, ids, z) + [CloseLine(z)]
    ensures DefinedAt(c, Leave(z)) == DefinedAt(c, z)
    ensures KnownAt(c, ids, Leave(z)) <==> KnownAt(c, ids, z)
  {
    hide Expand, Step, HeadAttrs, RenderNode, FixedNode, KnownNode, Printed, DefinedAt, KnownAt, Render, Fixed,
         Known;
    var outer := z.around.outer;
    var f := Expand(c, Before(c, z), z.done);
    AppendPrints(c, ids, outer, Whole(z));
    StepBranch(c, DefinedAt(c, outer), z.around.tag, z.around.head, z.done);
    BranchPrints(ids, outer.Depth(), z.around.tag, z.around.head, f);
    TaggedPrints(c, ids, z);
    var line := [Open(outer.Depth(), z.around.tag, HeadAttrs(ids, z.around.head))];
    assert Printed(c, ids, outer) + (line + Render(z.Depth(), ids, f) + [CloseLine(z)])
        == (Printed(c, ids, outer) + line + Render(z.Depth(), ids, f)) + [CloseLine(z)];
  }

  /** What a level inside another one has printed, defined and mentioned. */
  lemma TaggedPrints(c: Memory, ids: map<Obj, string>, z: Place)
    requires z.around.Tagged?
    ensures var outer, head, f := z.around.outer, z.around.head, Expand(c, Before(c, z), z.done);
            && Before(c, z) == DefinedAt(c, outer) + HeadObj(head)
            && Printed(c, ids, z) == Printed(c, ids, outer) + [Open(outer.Depth(), z.around.tag, HeadAttrs(ids, head))]
                                     + Render(z.Depth(), ids, f)
            && DefinedAt(c, z) == DefinedAt(c, outer) + (HeadObj(head) + Fixed(f))
            && (KnownAt(c, ids, z) <==> KnownAt(c, ids, outer) && (head.Named? ==> head.obj in ids) && Known(ids, f))
  {
    hide Expand, HeadAttrs, Render, Fixed, Known;
  }

  lemma BranchPrints(ids: map<Obj, string>, i: nat, tag: Tag, head: Head, f: Nodes)
    ensures var n := Branch(tag, head, f);
            && RenderNode(i, ids, n) == [Open(i, tag, HeadAttrs(ids, head))] + Render(i + 1, ids, f) + [Close(i, tag)]
            && FixedNode(n) == HeadObj(head) + Fixed(f)
            && (KnownNode(ids, n) <==> (head.Named? ==> head.obj in ids) && Known(ids, f))
  {
    hide HeadAttrs, HeadObj, Known, Fixed, Render;
  }

  lemma LeaveComment(c: Memory, ids: map<Obj, string>, z: Place)
    requires z.around.Commented?
    ensures Printed(c, ids, Leave(z)) == Printed(c, ids, z) + [CloseLine(z)]
    ensures DefinedAt(c, Leave(z)) == DefinedAt(c, z)
    ensures KnownAt(c, ids, Leave(z)) <==> KnownAt(c, ids, z)
  {
    hide Expand, Step, RenderNode, FixedNode, KnownNode, Printed, DefinedAt, KnownAt, Render, Fixed, Known;
    var outer := z.around.outer;
    var f := Expand(c, Before(c, z), z.done);
    AppendPrints(c, ids, outer, Whole(z));
    StepBranch(c, DefinedAt(c, outer), Document, Plain, z.done);
    RemarkPrints(ids, outer.Depth(), f);
    CommentedPrints(c, ids, z);
    var line := [CommentStart(outer.Depth())];
    assert Printed(c, ids, outer) + (line + Render(z.Depth(), ids, f) + [CloseLine(z)])
        == (Printed(c, ids, outer) + line + Render(z.Depth(), ids, f)) + [CloseLine(z)];
  }

  lemma CommentedPrints(c: Memory, ids: map<Obj, string>, z: Place)
    requires z.around.Commented?
    ensures var outer, f := z.around.outer, Expand(c, Before(c, z), z.done);
            && Before(c, z) == DefinedAt(c, outer)
            && Printed(c, ids, z)
               == Printed(c, ids, outer) + [CommentStart(outer.Depth())] + Render(z.Depth(), ids, f)
            && DefinedAt(c, z) == DefinedAt(c, outer) + Fixed(f)
            && (KnownAt(c, ids, z) <==> KnownAt(c, ids, outer) && Known(ids, f))
  {
    hide Expand, Render, Fixed, Known;
  }

  lemma RemarkPrints(ids: map<Obj, string>, i: nat, f: Nodes)
    ensures RenderNode(i, ids, Remark(f)) == [CommentStart(i)] + Render(i + 1, ids, f) + [CommentEnd(i)]
    ensures FixedNode(Remark(f)) == Fixed(f) && (KnownNode(ids, Remark(f)) <==> Known(ids, f))
  {
    hide Known, Fixed, Render;
  }

  lemma {:induction false} PrintedStable(c: Memory, ids: map<Obj, string>, ids': map<Obj, string>, z: Place)
    requires KnownAt(c, ids, z) && Extends(ids, ids')
    ensures KnownAt(c, ids', z) && Printed(c, ids', z) == Printed(c, ids, z)
    decreases z
  {
    hide Expand;
    RenderStable(z.Depth(), ids, ids', Expand(c, Before(c, z), z.done));
    if !z.around.Nothing? {
      PrintedStable(c, ids, ids', z.around.outer);
    }
  }

  // -------------------------------------------------------------------------
  //  The writer's output at a place
  // -------------------------------------------------------------------------

  /** After the lines `earlier`, exactly the lines of place z were printed, and d is what they define. */
  predicate Traces(c: Memory, ids: map<Obj, string>, z: Place, earlier: seq<Token>, out: seq<Token>, d: seq<Obj>) {
    out == earlier + Printed(c, ids, z) && d == DefinedAt(c, z) && KnownAt(c, ids, z)
  }

  lemma IdleTraces(c: Memory, out: seq<Token>)
    ensures Traces(c, map[], Idle(), out, out, [])
  {
    assert Expand(c, [], Start) == Start;
    assert Printed(c, map[], Idle()) == [];
  }

  lemma AppendTraces(c: Memory, ids: map<Obj, string>, z: Place, earlier: seq<Token>, out: seq<Token>,
                     d: seq<Obj>, n: Node, s: Node)
    requires Traces(c, ids, z, earlier, out, d)
    requires s == Step(c, d, n) && KnownNode(ids, s)
    ensures Traces(c, ids, Append(z, n), earlier, out + RenderNode(z.Depth(), ids, s), d + FixedNode(s))
  {
    hide Printed;
    hide DefinedAt;
    hide KnownAt;
    hide Step;
    hide RenderNode;
    hide FixedNode;
    hide KnownNode;
    AppendPrints(c, ids, z, n);
    assert out + RenderNode(z.Depth(), ids, s) == earlier + (Printed(c, ids, z) + RenderNode(z.Depth(), ids, s));
  }

  /** One more line that defines nothing. */
  lemma LineTraces(c: Memory, ids: map<Obj, string>, z: Place, earlier: seq<Token>, out: seq<Token>,
                   d: seq<Obj>, n: Node)
    requires Traces(c, ids, z, earlier, out, d)
    requires n.Nil? || n.Bare? || n.Text? || (n.Link? && n.target in ids && !n.back)
    ensures Traces(c, ids, Append(z, n), earlier, out + RenderNode(z.Depth(), ids, n), d)
  {
    hide Traces;
    assert Step(c, d, n) == n && FixedNode(n) == [];
    assert d + [] == d;
    AppendTraces(c, ids, z, earlier, out, d, n, n);
  }

  lemma EnterTraces(c: Memory, ids: map<Obj, string>, z: Place, earlier: seq<Token>, out: seq<Token>,
                    d: seq<Obj>, tag: Tag, head: Head)
    requires Traces(c, ids, z, earlier, out, d)
    requires head.Named? ==> head.obj in ids
    ensures Traces(c, ids, Enter(z, tag, head), earlier, out + [Open(z.Depth(), tag, HeadAttrs(ids, head))],
                   d + HeadObj(head))
  {
    hide Printed;
    hide DefinedAt;
    hide KnownAt;
    hide HeadAttrs;
    EnterPrints(c, ids, z, tag, head);
  }

  lemma CommentTraces(c: Memory, ids: map<Obj, string>, z: Place, earlier: seq<Token>, out: seq<Token>,
                      d: seq<Obj>)
    requires Traces(c, ids, z, earlier, out, d)
    ensures Traces(c, ids, Place(Start, Commented(z)), earlier, out + [CommentStart(z.Depth())], d)
  {
    var z' := Place(Start, Commented(z));
    assert Before(c, z') == d && Expand(c, d, Start) == Start;
    assert Printed(c, ids, z') == Printed(c, ids, z) + [CommentStart(z.Depth())] + [];
  }

  lemma LeaveTraces(c: Memory, ids: map<Obj, string>, z: Place, earlier: seq<Token>, out: seq<Token>, d: seq<Obj>)
    requires !z.around.Nothing?
    requires Traces(c, ids, z, earlier, out, d)
    ensures Traces(c, ids, Leave(z), earlier, out + [CloseLine(z)], d)
  {
    hide Printed;
    hide DefinedAt;
    hide KnownAt;
    LeavePrints(c, ids, z);
  }

  /** Ids given out later do not change what the lines spell out. */
  lemma NewIdsTrace(c: Memory, ids: map<Obj, string>, ids': map<Obj, string>, z: Place, earlier: seq<Token>,
                    out: seq<Token>, d: seq<Obj>)
    requires Traces(c, ids, z, earlier, out, d) && Extends(ids, ids')
    ensures Traces(c, ids', z, earlier, out, d)
  {
    hide Printed;
    hide DefinedAt;
    hide KnownAt;
    PrintedStable(c, ids, ids', z);
  }

  /** A definition printed for a local component, or a reference to it, is what Inline stands for. */
  lemma InlineTraces(c: Memory, ids: map<Obj, string>, z: Place, earlier: seq<Token>, out: seq<Token>,
                     d: seq<Obj>, o: Obj, n: Node)
    requires Traces(c, ids, Append(z, n), earlier, out, d)
    requires n == if IsLocal(c, o) && o !in DefinedAt(c, z) then Branch(TagOf(c, o), Named(o), Contents(c, o))
                  else Link(TagOf(c, o), o, false)
    ensures Traces(c, ids, Append(z, Inline(o)), earlier, out, d)
  {
    hide Printed;
    hide DefinedAt;
    hide KnownAt;
    hide Contents;
    AppendPrints(c, ids, z, n);
    AppendPrints(c, ids, z, Inline(o));
    InlineStep(c, DefinedAt(c, z), o, z.Depth(), ids);
  }

  lemma InlineStep(c: Memory, d: seq<Obj>, o: Obj, i: nat, ids: map<Obj, string>)
    ensures var n := if IsLocal(c, o) && o !in d then Branch(TagOf(c, o), Named(o), Contents(c, o))
                     else Link(TagOf(c, o), o, false);
            var s, t := Step(c, d, n), Step(c, d, Inline(o));
            RenderNode(i, ids, s) == RenderNode(i, ids, t) && FixedNode(s) == FixedNode(t) &&
            KnownNode(ids, s) == KnownNode(ids, t)
  {
    hide Contents;
    if IsLocal(c, o) && o !in d {
      StepBranch(c, d, TagOf(c, o), Named(o), Contents(c, o));
    }
  }

  // -------------------------------------------------------------------------
  //  The places noted and the objects mentioned
  // -------------------------------------------------------------------------

  lemma AppendRecords(c: Memory, z: Place, n: Node)
    ensures var s := Step(c, DefinedAt(c, z), n);
            && NotesAt(c, Append(z, n)) == NotesInNode(s, NotesAt(c, z))
            && MentionedAt(c, Append(z, n)) == MentionedAt(c, z) + MentionedNode(s)
  {
    hide Expand, Step, NotesInNode, MentionedNode;
    ExpandMore(c, Before(c, z), z.done, n);
    assert Before(c, Append(z, n)) == Before(c, z);
  }

  lemma LineRecords(c: Memory, z: Place, n: Node)
    requires n.Nil? || n.Bare? || n.Text? || (n.Link? && !n.back)
    ensures NotesAt(c, Append(z, n)) == NotesAt(c, z)
    ensures MentionedAt(c, Append(z, n)) == if n.Link? then MentionedAt(c, z) + [n.target] else MentionedAt(c, z)
  {
    hide NotesAt, MentionedAt;
    AppendRecords(c, z, n);
    assert Step(c, DefinedAt(c, z), n) == n;
    assert MentionedAt(c, z) + [] == MentionedAt(c, z);
  }

  lemma MarkRecords(c: Memory, z: Place, places: seq<nat>)
    ensures NotesAt(c, Append(z, Mark(places))) == places
    ensures MentionedAt(c, Append(z, Mark(places))) == MentionedAt(c, z)
  {
    hide NotesAt, MentionedAt;
    AppendRecords(c, z, Mark(places));
    assert MentionedAt(c, z) + [] == MentionedAt(c, z);
  }

  lemma EnterRecords(c: Memory, z: Place, around: Around)
    requires !around.Nothing? && around.outer == z
    ensures NotesAt(c, Place(Start, around)) == NotesAt(c, z)
    ensures MentionedAt(c, Place(Start, around))
         == if around.Tagged? && around.head.Named? then MentionedAt(c, z) + [around.head.obj] else MentionedAt(c, z)
  {
    assert Expand(c, Before(c, Place(Start, around)), Start) == Start;
    assert MentionedAt(c, z) + [] == MentionedAt(c, z);
    if around.Tagged? {
      assert MentionedAt(c, z) + HeadObj(around.head) + [] == MentionedAt(c, z) + HeadObj(around.head);
    }
  }

  lemma LeaveRecords(c: Memory, z: Place)
    requires !z.around.Nothing?
    ensures NotesAt(c, Leave(z)) == NotesAt(c, z) && MentionedAt(c, Leave(z)) == MentionedAt(c, z)
  {
    hide Expand, Step;
    var outer := z.around.outer;
    AppendRecords(c, outer, Whole(z));
    StepBranch(c, DefinedAt(c, outer), if z.around.Tagged? then z.around.tag else Document,
               if z.around.Tagged? then z.around.head else Plain, z.done);
    if z.around.Tagged? {
      var f, head := Expand(c, Before(c, z), z.done), HeadObj(z.around.head);
      assert MentionedAt(c, outer) + (head + Mentioned(f)) == MentionedAt(c, outer) + head + Mentioned(f);
    }
  }

  lemma InlineRecords(c: Memory, z: Place, o: Obj, n: Node)
    requires n == if IsLocal(c, o) && o !in DefinedAt(c, z) then Branch(TagOf(c, o), Named(o), Contents(c, o))
                  else Link(TagOf(c, o), o, false)
    ensures NotesAt(c, Append(z, Inline(o))) == NotesAt(c, Append(z, n))
    ensures MentionedAt(c, Append(z, Inline(o))) == MentionedAt(c, Append(z, n))
  {
    hide Contents, NotesAt, MentionedAt;
    AppendRecords(c, z, n);
    AppendRecords(c, z, Inline(o));
    if IsLocal(c, o) && o !in DefinedAt(c, z) {
      StepBranch(c, DefinedAt(c, z), TagOf(c, o), Named(o), Contents(c, o));
    }
  }

  lemma MarkTraces(c: Memory, ids: map<Obj, string>, z: Place, earlier: seq<Token>, out: seq<Token>,
                   d: seq<Obj>, places: seq<nat>)
    requires Traces(c, ids, z, earlier, out, d)
    ensures Traces(c, ids, Append(z, Mark(places)), earlier, out, d)
  {
    hide Traces;
    var n := Mark(places);
    assert Step(c, d, n) == n && FixedNode(n) == [] && RenderNode(z.Depth(), ids, n) == [];
    assert d + [] == d && out + [] == out;
    AppendTraces(c, ids, z, earlier, out, d, n, n);
  }
}
