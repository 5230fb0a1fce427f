/**
 * Between two callbacks the writer stands in a row of document and element levels, each with or without an
 * open `children` level; the stack of flags tells which.
 */
module PsviShape {
  import opened Options
  import opened PsviOutput
  import opened PsviComponents
  import opened PsviExpansion
  import opened PsviPlaces
  import opened PsviEvents
  import Names = PsviNamespaces
  import Reader = PsviReader

  /** The flags match the open levels; below the top every flag is true; no comment is open or nested. */
  predicate Shape(z: Place, flags: seq<bool>)
    decreases |flags|, 0
  {
    CommentsFlat(z.done) &&
    if flags == [] then z.around.Nothing?
    else
      var rest := flags[..|flags| - 1];
      if flags[|flags| - 1] then
        && z.around.Tagged? && z.around.tag == Children && z.around.head.Plain?
        && CommentsFlat(z.around.outer.done)
        && ShapeBelow(z.around.outer, rest)
      else
        ShapeBelow(z, rest)
  }

  /** z is the level of the document or of an element; rest are the flags of the levels around it. */
  predicate ShapeBelow(z: Place, rest: seq<bool>)
    decreases |rest|, 1
  {
    && z.around.Tagged?
    && z.around.tag == (if rest == [] then Document else Element)
    && z.around.head == (if rest == [] then Root else Plain)
    && (rest != [] ==> rest[|rest| - 1])
    && Shape(z.around.outer, rest)
  }

  function Trues(flags: seq<bool>): nat {
    if flags == [] then 0 else Trues(flags[..|flags| - 1]) + if flags[|flags| - 1] then 1 else 0
  }

  /** The indent is the height of the stack plus the number of open `children` levels. */
  lemma {:induction false} ShapeDepth(z: Place, flags: seq<bool>)
    requires Shape(z, flags)
    ensures z.Depth() == |flags| + Trues(flags)
    decreases |flags|
  {
    if flags != [] {
      var rest := flags[..|flags| - 1];
      var level := if flags[|flags| - 1] then z.around.outer else z;
      ShapeDepth(level.around.outer, rest);
    }
  }

  lemma {:induction false} ShapeTrueBelow(z: Place, flags: seq<bool>)
    requires Shape(z, flags)
    ensures forall k :: 0 <= k < |flags| - 1 ==> flags[k]
    decreases |flags|
  {
    if flags != [] {
      var rest := flags[..|flags| - 1];
      var level := if flags[|flags| - 1] then z.around.outer else z;
      ShapeTrueBelow(level.around.outer, rest);
    }
  }

  // -------------------------------------------------------------------------
  //  What a callback does to the place and the flags
  // -------------------------------------------------------------------------

  /** Where the next child goes: in the `children` level, opened if it is not yet open. */
  function ChildPlace(z: Place, flags: seq<bool>): Place {
    if flags != [] && !flags[|flags| - 1] then Enter(z, Children, Plain) else z
  }

  function ChildFlags(flags: seq<bool>): seq<bool> {
    if flags != [] && !flags[|flags| - 1] then flags[..|flags| - 1] + [true] else flags
  }

  lemma ShapeChild(z: Place, flags: seq<bool>)
    requires Shape(z, flags)
    ensures Shape(ChildPlace(z, flags), ChildFlags(flags))
    ensures |ChildFlags(flags)| == |flags|
    ensures flags != [] ==> ChildFlags(flags)[|flags| - 1]
  {
    var f := ChildFlags(flags);
    if flags != [] && !flags[|flags| - 1] {
      assert f[..|f| - 1] == flags[..|flags| - 1];
    }
  }

  lemma ShapeAdd(z: Place, flags: seq<bool>, f: Nodes)
    requires Shape(z, flags) && CommentsFlat(f)
    ensures Shape(z.(done := f), flags)
  {
  }

  lemma ShapeElement(z: Place, flags: seq<bool>)
    requires Shape(z, flags)
    ensures flags != [] && flags[|flags| - 1] ==>
              forall f :: CommentsFlat(f) ==> Shape(Place(f, Tagged(Element, Plain, z)), flags + [false])
  {
    assert (flags + [false])[..|flags|] == flags;
  }

  /** The level of the element or document, after its children level was closed or shown empty. */
  function Closed(z: Place, flags: seq<bool>): (r: Place)
    requires Shape(z, flags) && flags != []
    ensures r.around.Tagged?
  {
    var rest := flags[..|flags| - 1];
    if flags[|flags| - 1] then
      assert ShapeBelow(z.around.outer, rest);
      Leave(z)
    else
      assert ShapeBelow(z, rest);
      z.(done := z.done.Blank(Children))
  }

  lemma ClosedShape(z: Place, flags: seq<bool>)
    requires Shape(z, flags) && flags != []
    ensures ShapeBelow(Closed(z, flags), flags[..|flags| - 1])
    ensures CommentsFlat(Closed(z, flags).done)
  {
  }

  lemma ShapeElementEnd(z: Place, rest: seq<bool>, f: Nodes)
    requires ShapeBelow(z, rest) && rest != [] && CommentsFlat(f)
    ensures Shape(Leave(z.(done := f)), rest)
  {
    var outer := z.around.outer;
    var n := Branch(Element, Plain, f);
    assert Leave(z.(done := f)) == outer.(done := More(outer.done, n));
    assert CommentsFlat(More(outer.done, n));
    ShapeAdd(outer, rest, More(outer.done, n));
  }

  lemma ShapeDone(z: Place, flags: seq<bool>)
    requires Shape(z, flags)
    ensures CommentsFlat(z.done)
  {
  }

  lemma StartFlat()
    ensures CommentsFlat(Start)
  {
  }

  lemma ShapeText(z: Place, flags: seq<bool>, tag: Tag, f: Nodes)
    requires Shape(z, flags) && CommentsFlat(f)
    ensures Shape(z.(done := z.done.Group(tag, f)), flags)
  {
    ShapeAdd(z, flags, z.done.Group(tag, f));
  }

  /** An element's level after its last comment and its children. */
  function LevelEnd(z: Place, flags: seq<bool>, value: ActualValue): Place
    requires Shape(z, flags) && |flags| > 1
  {
    ShapeAdd(z, flags, ActualValuePlan(z.done, value));
    Closed(z.(done := ActualValuePlan(z.done, value)), flags)
  }

  /** The place after an element was closed, with its assessment. */
  function ElementEnd(c: Memory, z: Place, flags: seq<bool>, e: PsviElement): Place
    requires Shape(z, flags) && |flags| > 1
  {
    var level := LevelEnd(z, flags, e.actual);
    Leave(level.(done := ElementTail(c, level.done, e, if |flags| == 2 then e.model else None)))
  }

  lemma ElementEndShape(c: Memory, z: Place, flags: seq<bool>, e: PsviElement)
    requires Shape(z, flags) && |flags| > 1
    ensures Shape(ElementEnd(c, z, flags, e), flags[..|flags| - 1])
    ensures var level := LevelEnd(z, flags, e.actual);
            && level.around.Tagged? && level.around.tag == Element
            && ElementEnd(c, z, flags, e)
               == Leave(level.(done := ElementTail(c, level.done, e, if |flags| == 2 then e.model else None)))
  {
    hide ElementTail, ActualValuePlan, CommentsFlat, Shape;
    ShapeDone(z, flags);
    ShapeAdd(z, flags, ActualValuePlan(z.done, e.actual));
    ClosedShape(z.(done := ActualValuePlan(z.done, e.actual)), flags);
    var level := LevelEnd(z, flags, e.actual);
    ShapeElementEnd(level, flags[..|flags| - 1],
                    ElementTail(c, level.done, e, if |flags| == 2 then e.model else None));
  }

  // -------------------------------------------------------------------------
  //  Attributes shown as namespace declarations
  // -------------------------------------------------------------------------

  /** Where the writer stands when it stops at a place noted that leads to no assessed attribute. */
  function Broken(z: Place, infos: seq<AttrInfo>, list: PsviAttributes, notes: seq<nat>): Place
    requires !AllFindable(infos, list, notes)
  {
    BrokenAt(Enter(z, NamespaceAttributes, Plain), infos, list, notes)
  }

  function BrokenAt(z: Place, infos: seq<AttrInfo>, list: PsviAttributes, notes: seq<nat>): Place
    requires !AllFindable(infos, list, notes)
  {
    var n := Sound(infos, list, notes);
    Place(BrokenNote(infos, notes[n]), Tagged(Attribute, Plain, z.(done := NoteNodes(infos, list, notes, n))))
  }

  lemma SoundIs(z: Place, infos: seq<AttrInfo>, list: PsviAttributes, notes: seq<nat>, n: nat)
    requires n < |notes| && !Findable(infos, list, notes[n])
    requires forall k :: 0 <= k < n ==> Findable(infos, list, notes[k])
    ensures !AllFindable(infos, list, notes)
    ensures BrokenAt(z, infos, list, notes)
         == Place(BrokenNote(infos, notes[n]), Tagged(Attribute, Plain, z.(done := NoteNodes(infos, list, notes, n))))
  {
    hide Findable, BrokenNote, NoteNodes;
    assert Sound(infos, list, notes) == n;
  }

  /** What stands at the place now, when the attributes at the first n places noted have been tried behind z. */
  ghost predicate NotesShown(z: Place, infos: seq<AttrInfo>, list: PsviAttributes, notes: seq<nat>, n: nat, threw: bool,
                             now: Place)
    requires n <= |notes|
  {
    if threw then !AllFindable(infos, list, notes) && now == BrokenAt(z, infos, list, notes)
    else (forall k :: 0 <= k < n ==> Findable(infos, list, notes[k]))
         && now == z.(done := NoteNodes(infos, list, notes, n))
  }

  lemma NothingNoted(z: Place, infos: seq<AttrInfo>, list: PsviAttributes, notes: seq<nat>)
    requires z.done == Start
    ensures NotesShown(z, infos, list, notes, 0, false, z)
  {
  }

  lemma NextNoteShown(z: Place, infos: seq<AttrInfo>, list: PsviAttributes, notes: seq<nat>, n: nat, before: Place,
                      threw: bool, now: Place)
    requires n < |notes| && NotesShown(z, infos, list, notes, n, false, before)
    requires threw <==> !Findable(infos, list, notes[n])
    requires now == if threw then Place(BrokenNote(infos, notes[n]), Tagged(Attribute, Plain, before))
                    else before.(done := before.done.Group(Attribute, NoteBody(infos, list, notes[n])))
    ensures NotesShown(z, infos, list, notes, n + 1, threw, now)
  {
    hide Findable, BrokenNote, NoteBody, BrokenAt;
    if threw {
      SoundIs(z, infos, list, notes, n);
    }
  }

  lemma NotesOutcome(z: Place, infos: seq<AttrInfo>, list: PsviAttributes, notes: seq<nat>, n: nat, threw: bool,
                     now: Place)
    requires n <= |notes| && (threw || n == |notes|) && NotesShown(z, infos, list, notes, n, threw, now)
    ensures threw <==> !AllFindable(infos, list, notes)
    ensures now == if threw then BrokenAt(z, infos, list, notes)
                   else z.(done := NoteNodes(infos, list, notes, |notes|))
  {
    hide Findable, BrokenAt, NoteNodes;
  }

  /** The places noted by an element's attributes depend only on what was defined before. */
  lemma NotesLeftAt(c: Memory, z: Place, s: Names.Scope, infos: seq<AttrInfo>, list: PsviAttributes)
    ensures NotesAt(c, z.(done := AttributesPlan(c, s, z.done, infos, list)))
         == NotesLeft(c, DefinedAt(c, z), s, infos, list)
  {
    hide AttributeNodes;
    var d := DefinedAt(c, z);
    var n := if infos == [] then Bare(Attributes)
             else Branch(Attributes, Plain, AttributeNodes(c, s, infos, list, |infos|));
    var marked := Append(z, Mark([]));
    NotesUnfold(c, z, n);
  }

  lemma NotesUnfold(c: Memory, z: Place, n: Node)
    ensures NotesAt(c, Append(Append(z, Mark([])), n))
         == NotesIn(Expand(c, DefinedAt(c, z), More(More(Start, Mark([])), n)), [])
  {
    hide Expand, Step, NotesInNode;
    var d, marked := DefinedAt(c, z), Append(z, Mark([]));
    MarkRecords(c, z, []);
    AppendRecords(c, marked, n);
    MarkDefines(c, z, []);
    ExpandMore(c, d, More(Start, Mark([])), n);
    MarkAlone(c, d);
  }

  lemma MarkDefines(c: Memory, z: Place, places: seq<nat>)
    ensures DefinedAt(c, Append(z, Mark(places))) == DefinedAt(c, z)
  {
    hide DefinedAt;
    AppendPrints(c, map[], z, Mark(places));
    assert DefinedAt(c, z) + [] == DefinedAt(c, z);
  }

  lemma MarkAlone(c: Memory, d: seq<Obj>)
    ensures Expand(c, d, More(Start, Mark([]))) == More(Start, Mark([]))
    ensures d + Fixed(More(Start, Mark([]))) == d && NotesIn(More(Start, Mark([])), []) == []
  {
  }

  lemma DocumentShape()
    ensures Shape(Enter(Idle(), Document, Root), [false])
  {
    assert [false][..0] == [];
  }

  /** The document level with its last properties, closed. */
  function DocumentEnd(z: Place, baseUri: string): Place
    requires z.around.Tagged?
  {
    Leave(z.(done := z.done.Absent(DocumentElement).Blank(Notations).Blank(UnparsedEntities)
                     .Val(BaseURI, baseUri).Val(AllDeclarationsProcessed, "true")))
  }

  // -------------------------------------------------------------------------
  //  The open tags
  // -------------------------------------------------------------------------

  /** Document and element tags, each followed by `children` where the flag is true. */
  function ExpectedTags(flags: seq<bool>): seq<Tag> {
    if flags == [] then []
    else
      var rest := flags[..|flags| - 1];
      ExpectedTags(rest) + [if rest == [] then Document else Element]
      + if flags[|flags| - 1] then [Children] else []
  }

  /** What the reader has after reading the lines of a place. */
  function ContextOf(c: Memory, ids: map<Obj, string>, z: Place): Reader.Context {
    var done := Reader.ShownAll(ids, Reader.Items.Start, Expand(c, Before(c, z), z.done));
    match z.around
    case Nothing => Reader.Outermost(done)
    case Tagged(tag, head, outer) => Reader.InElem(tag, HeadAttrs(ids, head), done, ContextOf(c, ids, outer))
    case Commented(outer) => Reader.InRemark(done, ContextOf(c, ids, outer))
  }

  predicate FlatPlace(z: Place) {
    CommentsFlat(z.done) && (z.around.Tagged? ==> FlatPlace(z.around.outer)) && !z.around.Commented?
  }

  lemma {:induction false} ContextDepth(c: Memory, ids: map<Obj, string>, z: Place)
    ensures ContextOf(c, ids, z).Depth() == z.Depth()
    decreases z
  {
    hide Expand;
    if !z.around.Nothing? {
      ContextDepth(c, ids, z.around.outer);
    }
  }

  lemma {:induction false} FlatNotInComment(c: Memory, ids: map<Obj, string>, z: Place)
    requires FlatPlace(z)
    ensures !ContextOf(c, ids, z).InComment()
    decreases z
  {
    if z.around.Tagged? {
      FlatNotInComment(c, ids, z.around.outer);
    }
  }

  /** The printed lines read back as the place they were printed for. */
  lemma {:induction false} ReadPrinted(c: Memory, ids: map<Obj, string>, z: Place)
    requires FlatPlace(z)
    ensures Reader.ReadAll(Reader.Outermost(Reader.Items.Start), Printed(c, ids, z)) == Some(ContextOf(c, ids, z))
    decreases z
  {
    var start := if z.around.Nothing? then Reader.Outermost(Reader.Items.Start)
                 else Reader.InElem(z.around.tag, HeadAttrs(ids, z.around.head), Reader.Items.Start,
                             ContextOf(c, ids, z.around.outer));
    if z.around.Nothing? {
      assert Opened(c, ids, z) == [];
    } else {
      ReadPrinted(c, ids, z.around.outer);
      ReadOpened(c, ids, z);
    }
    ContextDepth(c, ids, z);
    FlatNotInComment(c, ids, z);
    ReadBody(c, ids, z, start);
  }

  lemma ReadOpened(c: Memory, ids: map<Obj, string>, z: Place)
    requires z.around.Tagged?
    requires var outer := z.around.outer;
             Reader.ReadAll(Reader.Outermost(Reader.Items.Start), Printed(c, ids, outer))
               == Some(ContextOf(c, ids, outer))
    ensures Reader.ReadAll(Reader.Outermost(Reader.Items.Start), Opened(c, ids, z))
         == Some(Reader.InElem(z.around.tag, HeadAttrs(ids, z.around.head), Reader.Items.Start,
                        ContextOf(c, ids, z.around.outer)))
  {
    hide Expand, Printed, HeadAttrs, Reader.ReadAll;
    var outer := z.around.outer;
    var line := Open(outer.Depth(), z.around.tag, HeadAttrs(ids, z.around.head));
    ContextDepth(c, ids, outer);
    Reader.ReadAppend(Reader.Outermost(Reader.Items.Start), Printed(c, ids, outer), [line]);
    Reader.ReadOne(ContextOf(c, ids, outer), line);
  }

  lemma ReadBody(c: Memory, ids: map<Obj, string>, z: Place, start: Reader.Context)
    requires FlatPlace(z) && start.Depth() == z.Depth() && !start.InComment()
    requires Reader.ReadAll(Reader.Outermost(Reader.Items.Start), Opened(c, ids, z)) == Some(start)
    requires start.done == Reader.Items.Start
    ensures Reader.ReadAll(Reader.Outermost(Reader.Items.Start), Printed(c, ids, z))
         == Some(start.With(Reader.ShownAll(ids, Reader.Items.Start, Expand(c, Before(c, z), z.done))))
  {
    hide Expand, Opened, Reader.ReadAll;
    var f := Expand(c, Before(c, z), z.done);
    ExpandFlat(c, Before(c, z), z.done);
    Reader.ReadRender(start, ids, f);
    Reader.ReadAppend(Reader.Outermost(Reader.Items.Start), Opened(c, ids, z), Render(z.Depth(), ids, f));
  }

  lemma {:induction false} ShapeTags(c: Memory, ids: map<Obj, string>, z: Place, flags: seq<bool>)
    requires Shape(z, flags)
    ensures FlatPlace(z)
    ensures ContextOf(c, ids, z).OpenTags() == ExpectedTags(flags)
    decreases |flags|
  {
    hide Expand, Reader.ShownAll, CommentsFlat, Before;
    if flags != [] {
      var rest := flags[..|flags| - 1];
      var level := if flags[|flags| - 1] then z.around.outer else z;
      ShapeTags(c, ids, level.around.outer, rest);
    }
  }

  /**
   * Between callbacks the output read so far is well formed, and what is still open is exactly the document
   * and the elements on the stack, with `children` where the flag is true.
   */
  lemma OpenTagsMatchFlags(c: Memory, ids: map<Obj, string>, z: Place, flags: seq<bool>)
    requires Shape(z, flags)
    ensures var read := Reader.ReadAll(Reader.Outermost(Reader.Items.Start), Printed(c, ids, z));
            read.Some? && read.value.OpenTags() == ExpectedTags(flags) && read.value.Depth() == z.Depth()
  {
    ShapeTags(c, ids, z, flags);
    ReadPrinted(c, ids, z);
    ContextDepth(c, ids, z);
  }
}
