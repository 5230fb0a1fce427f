/**
 * The places of a run: inside the levels of a document, and where the writer stops in a document that is not shown
 * to the end; and what has been mentioned there.
 */
module PsviStops {
  import opened Options
  import opened PsviOutput
  import opened PsviComponents
  import opened PsviPlans
  import opened PsviExpansion
  import opened PsviPlaces
  import opened PsviShape
  import opened PsviEvents
  import opened PsviDocument
  import opened PsviIds
  import opened PsviRequests

  /** The place inside an element or document level: its `children` level if open, else the level itself. */
  function Level(e: Place, open: bool, nodes: Nodes): Place {
    if open then Place(nodes, Tagged(Children, Plain, e)) else e
  }

  /** The level of an element that is being shown inside e, after the trees s. */
  function Inside(e: Place, s: Nodes, known: Nodes): Place {
    Place(known, Tagged(Element, Plain, Level(e, true, s)))
  }

  /** The level of the document before its content. */
  ghost function DocumentPlace(d: DocumentEvents): Place {
    Place(DocumentStart(d), Tagged(Document, Root, Idle()))
  }

  lemma DocumentDefined(c: Memory, d: DocumentEvents)
    ensures DefinedAt(c, DocumentPlace(d)) == Now(c, [], DocumentStart(d))
  {
    hide DefinedAt, DocumentStart;
    TreesDefined(c, DocumentPlace(d));
    TreesDefined(c, Idle());
    assert Expand(c, [], Start) == Start && [] + Fixed(Start) == [] && Now(c, [], Start) == [];
    assert [] + HeadObj(Root) == [];
  }

  lemma LevelDefined(c: Memory, e: Place, open: bool, nodes: Nodes)
    requires !open ==> nodes == Start
    ensures DefinedAt(c, Level(e, open, nodes)) == Now(c, DefinedAt(c, e), nodes)
  {
    hide DefinedAt;
    TreesDefined(c, e);
    TreesDefined(c, Level(e, open, nodes));
    var d := DefinedAt(c, e);
    assert d + [] == d && Expand(c, d, Start) == Start && Fixed(Start) == [];
  }

  lemma TreesDefined(c: Memory, z: Place)
    ensures DefinedAt(c, z) == Now(c, Before(c, z), z.done)
  {
  }

  lemma InsideDefinedAt(c: Memory, e: Place, s: Nodes, known: Nodes)
    ensures DefinedAt(c, Inside(e, s, known)) == Now(c, Now(c, DefinedAt(c, e), s), known)
  {
    hide DefinedAt, Now;
    LevelDefined(c, e, true, s);
    TreesDefined(c, Inside(e, s, known));
    assert Now(c, DefinedAt(c, e), s) + [] == Now(c, DefinedAt(c, e), s);
  }

  /** The objects defined when the next element of a level starts. */
  ghost function DefinedIn(c: Memory, e: Place, s: Shown): seq<Obj> { Now(c, DefinedAt(c, e), s.nodes) }

  // -------------------------------------------------------------------------
  //  Where the writer stops
  // -------------------------------------------------------------------------

  /** The place in content x of level e, behind what is shown in s, where an element does not start. */
  ghost function StopIn(c: Memory, root: bool, e: Place, s: Shown, x: Content): Place
    requires !ContentRuns(c, root, DefinedAt(c, e), s, x)
    decreases x, 1
  {
    StopElement(c, e, s, Entered(s.env, x.element), x.element)
  }

  ghost function StopElement(c: Memory, e: Place, s: Shown, env: Env, x: ElementEvents): Place
    requires !ElementRuns(c, DefinedIn(c, e, s), env, x)
    decreases x, 1
  {
    if !Starts(c, DefinedIn(c, e, s), env, x) then StopAtNote(c, e, s, env, x) else StopInside(c, e, s, env, x)
  }

  /** The element's attributes have been shown, and of those noted the ones in front of the first bad place. */
  ghost function StopAtNote(c: Memory, e: Place, s: Shown, env: Env, x: ElementEvents): Place
    requires !Starts(c, DefinedIn(c, e, s), env, x)
  {
    var named := ElementName(env.scope, x.localName, x.uri);
    Broken(Inside(e, s.nodes, AttributesPlan(c, env.scope, named, x.attrs, x.assessed)), x.attrs, x.assessed,
           Noted(c, DefinedIn(c, e, s), env, x))
  }

  ghost function StopInside(c: Memory, e: Place, s: Shown, env: Env, x: ElementEvents): Place
    requires !InsideRuns(c, DefinedIn(c, e, s), env, x)
    decreases x, 0
  {
    var known := ElementStart(c, DefinedIn(c, e, s), env, x);
    InsideDefinedAt(c, e, s.nodes, known);
    StopAll(c, false, Inside(e, s.nodes, known), env, x.content, |x.content|)
  }

  ghost function StopAll(c: Memory, root: bool, e: Place, env: Env, content: seq<Content>, n: nat): Place
    requires n <= |content| && !AllRun(c, root, DefinedAt(c, e), Shown(Start, env), content, n)
    decreases content, n
  {
    if !AllRun(c, root, DefinedAt(c, e), Shown(Start, env), content, n - 1) then
      StopAll(c, root, e, env, content, n - 1)
    else
      StopIn(c, root, e, ShowAll(c, root, DefinedAt(c, e), Shown(Start, env), content, n - 1), content[n - 1])
  }

  lemma {:induction false} StaysStopped(c: Memory, root: bool, e: Place, env: Env, content: seq<Content>,
                                        i: nat, n: nat)
    requires i <= n <= |content| && !AllRun(c, root, DefinedAt(c, e), Shown(Start, env), content, i)
    ensures !AllRun(c, root, DefinedAt(c, e), Shown(Start, env), content, n)
    ensures StopAll(c, root, e, env, content, n) == StopAll(c, root, e, env, content, i)
    ensures StopRequests(c, root, DefinedAt(c, e), Shown(Start, env), content, n)
         == StopRequests(c, root, DefinedAt(c, e), Shown(Start, env), content, i)
    decreases n
  {
    hide ContentRuns, DefinedAt, ShowAll;
    if i < n {
      StaysStopped(c, root, e, env, content, i, n - 1);
    }
  }

  /** Where the writer is when an element of the document does not start. */
  ghost function DocumentStop(c: Memory, d: DocumentEvents): Place
    requires !DocumentRuns(c, d)
  {
    DocumentDefined(c, d);
    StopAll(c, true, DocumentPlace(d), EmptyEnv(), d.content, |d.content|)
  }

  lemma DocumentStops(c: Memory, d: DocumentEvents)
    requires !DocumentRuns(c, d)
    ensures DefinedAt(c, DocumentPlace(d)) == Now(c, [], DocumentStart(d))
    ensures DocumentStop(c, d) == StopAll(c, true, DocumentPlace(d), EmptyEnv(), d.content, |d.content|)
  {
    hide StopAll, AllRun, DefinedAt, Now;
    DocumentDefined(c, d);
  }

  // -------------------------------------------------------------------------
  //  What has been mentioned
  // -------------------------------------------------------------------------

  lemma MentionedInside(c: Memory, z: Place)
    requires z.around.Tagged? && !z.around.head.Named?
    ensures MentionedAt(c, z)
         == MentionedAt(c, z.around.outer) + Mentioned(Expand(c, DefinedAt(c, z.around.outer), z.done))
  {
    hide Expand;
    var outer := z.around.outer;
    assert DefinedAt(c, outer) + [] == DefinedAt(c, outer) && MentionedAt(c, outer) + [] == MentionedAt(c, outer);
  }

  lemma LevelMentioned(c: Memory, e: Place, open: bool, nodes: Nodes)
    requires !open ==> nodes == Start
    ensures MentionedAt(c, Level(e, open, nodes))
         == MentionedAt(c, e) + Mentioned(Expand(c, DefinedAt(c, e), nodes))
  {
    hide DefinedAt, MentionedAt, Expand;
    if open {
      MentionedInside(c, Level(e, open, nodes));
    } else {
      NothingMentioned(c, DefinedAt(c, e));
      assert MentionedAt(c, e) + [] == MentionedAt(c, e);
    }
  }

  lemma InsideMentioned(c: Memory, e: Place, s: Nodes, known: Nodes)
    ensures MentionedAt(c, Inside(e, s, known))
         == MentionedAt(c, Level(e, true, s)) + Mentioned(Expand(c, Now(c, DefinedAt(c, e), s), known))
  {
    hide DefinedAt, MentionedAt, Expand;
    MentionedInside(c, Inside(e, s, known));
    LevelDefined(c, e, true, s);
  }

  /** The end of an element's content, behind s in level e. */
  ghost function EndPlace(c: Memory, e: Place, s: Shown, env: Env, x: ElementEvents): Place {
    var d := DefinedIn(c, e, s);
    Level(Inside(e, s.nodes, ElementStart(c, d, env, x)), AnyVisible(x.content, |x.content|),
          ShowInside(c, d, env, x).nodes)
  }

  /** From there to the end of the element, what stands behind the children is mentioned. */
  lemma EndMentioned(c: Memory, root: bool, e: Place, s: Shown, env: Env, x: ElementEvents)
    ensures var d := DefinedIn(c, e, s);
            var inner := ShowInside(c, d, env, x).nodes;
            MentionedAt(c, Level(e, true, s.nodes.Group(Element, ElementNodes(c, root, d, env, x, inner))))
              == MentionedAt(c, EndPlace(c, e, s, env, x))
                 + Mentioned(Expand(c, Now(c, InsideDefined(c, d, env, x), inner), EndTrees(c, root, x)))
  {
    hide MentionedAt, DefinedIn, ElementStart, ElementNodes, Expand, Mentioned, Inside, AnyVisible, Now, EndTrees,
         Level, ShowInside;
    var d := DefinedIn(c, e, s);
    var known, inner := ElementStart(c, d, env, x), ShowInside(c, d, env, x).nodes;
    var within := InsideDefined(c, d, env, x);
    InsideAsks(c, d, env, x);
    EndPlaceMentioned(c, e, s, known, AnyVisible(x.content, |x.content|), inner);
    ElementMentioned(c, e, s, ElementNodes(c, root, d, env, x, inner));
    ElementMentions(c, root, d, env, x, inner);
    Regroup(MentionedAt(c, Level(e, true, s.nodes)), Mentioned(Expand(c, d, known)),
            Mentioned(Expand(c, within, inner)), Mentioned(Expand(c, Now(c, within, inner), EndTrees(c, root, x))));
  }

  lemma Regroup<T>(a: seq<T>, b: seq<T>, c: seq<T>, d: seq<T>)
    ensures a + (b + c + d) == a + b + c + d
  {
  }

  lemma EndPlaceMentioned(c: Memory, e: Place, s: Shown, known: Nodes, any: bool, inner: Nodes)
    requires !any ==> inner == Start
    ensures MentionedAt(c, Level(Inside(e, s.nodes, known), any, inner))
         == MentionedAt(c, Level(e, true, s.nodes)) + Mentioned(Expand(c, DefinedIn(c, e, s), known))
            + Mentioned(Expand(c, Now(c, DefinedIn(c, e, s), known), inner))
  {
    hide MentionedAt, DefinedAt, Expand, Mentioned, Inside, Level, Now;
    LevelMentioned(c, Inside(e, s.nodes, known), any, inner);
    InsideMentioned(c, e, s.nodes, known);
    InsideDefinedAt(c, e, s.nodes, known);
  }

  lemma ElementMentioned(c: Memory, e: Place, s: Shown, f: Nodes)
    ensures MentionedAt(c, Level(e, true, s.nodes.Group(Element, f)))
         == MentionedAt(c, Level(e, true, s.nodes)) + Mentioned(Expand(c, DefinedIn(c, e, s), f))
  {
    hide MentionedAt, DefinedAt, Expand, Mentioned, Level, Now;
    LevelMentioned(c, e, true, s.nodes);
    LevelMentioned(c, e, true, s.nodes.Group(Element, f));
    GroupMentions(c, DefinedAt(c, e), s.nodes, Element, f);
  }

  /** Content that is not an element mentions nothing. */
  lemma TextMentions(c: Memory, root: bool, e: Place, open: bool, s: Shown, x: Content)
    requires !x.Nested? && (!open ==> s.nodes == Start)
    ensures MentionedAt(c, Level(e, open || Visible(x), ShowContent(c, root, DefinedAt(c, e), s, x).nodes))
         == MentionedAt(c, Level(e, open, s.nodes))
  {
    hide DefinedAt, MentionedAt, Expand, Level, Mentioned;
    LevelMentioned(c, e, open, s.nodes);
    LevelMentioned(c, e, open || Visible(x), ShowContent(c, root, DefinedAt(c, e), s, x).nodes);
    TextMentionsNothing(c, root, DefinedAt(c, e), s, x);
  }

  /** Nothing is mentioned among the attributes shown as namespace declarations. */
  lemma BrokenMentioned(c: Memory, z: Place, infos: seq<AttrInfo>, list: PsviAttributes, notes: seq<nat>)
    requires !AllFindable(infos, list, notes)
    ensures MentionedAt(c, Broken(z, infos, list, notes)) == MentionedAt(c, z)
  {
    hide DefinedAt, MentionedAt, Expand, BrokenNote, NoteNodes;
    var b := Broken(z, infos, list, notes);
    var n := Sound(infos, list, notes);
    MentionedInside(c, b);
    MentionedInside(c, b.around.outer);
    NotesMention(c, DefinedAt(c, z), infos, list, notes, n);
    NoteMentions(c, DefinedAt(c, b.around.outer), infos, notes[n]);
    assert MentionedAt(c, z) + [] == MentionedAt(c, z);
  }

  lemma NoteMentions(c: Memory, d: seq<Obj>, infos: seq<AttrInfo>, i: nat)
    ensures Mentioned(Expand(c, d, BrokenNote(infos, i))) == []
  {
    hide Expand, Mentioned, Nodes.Val;
    var one := Start.Val(NamespaceName, XMLNS_URI);
    NothingMentioned(c, d);
    ValMentions(c, d, Start, NamespaceName, XMLNS_URI);
    if i < |infos| {
      HeadMentions(c, d, infos[i]);
    }
  }

  lemma ValMentions(c: Memory, d: seq<Obj>, f: Nodes, tag: Tag, text: string)
    ensures Mentioned(Expand(c, d, f.Val(tag, text))) == Mentioned(Expand(c, d, f))
    ensures Now(c, d, f.Val(tag, text)) == Now(c, d, f)
  {
    hide Expand, Mentioned, Now;
    LineMentions(c, d, f, f.Val(tag, text).last);
  }

  lemma HeadMentions(c: Memory, d: seq<Obj>, a: AttrInfo)
    ensures Mentioned(Expand(c, d, NoteHead(a))) == [] && Now(c, d, NoteHead(a)) == d
  {
    hide Expand, Mentioned, Nodes.Val, Now;
    var f1 := Start.Val(NamespaceName, XMLNS_URI);
    var f2 := f1.Val(LocalName, a.localName);
    var f3 := f2.Val(Prefix, "xmlns");
    NothingMentioned(c, d);
    ValMentions(c, d, Start, NamespaceName, XMLNS_URI);
    ValMentions(c, d, f1, LocalName, a.localName);
    ValMentions(c, d, f2, Prefix, "xmlns");
    ValMentions(c, d, f3, NormalizedValue, a.value);
  }

  lemma InfoMentions(c: Memory, d: seq<Obj>, a: AttrInfo, schemaSpecified: bool)
    ensures Mentioned(Expand(c, d, NoteInfo(a, schemaSpecified))) == [] && Now(c, d, NoteInfo(a, schemaSpecified)) == d
  {
    hide Expand, Mentioned, Nodes.Val, Now, NoteHead;
    var f1 := NoteHead(a).Val(Specified, BoolText(schemaSpecified));
    var f2 := f1.Val(AttributeType, a.attrType);
    HeadMentions(c, d, a);
    ValMentions(c, d, NoteHead(a), Specified, BoolText(schemaSpecified));
    ValMentions(c, d, f1, AttributeType, a.attrType);
    LineMentions(c, d, f2, Node.Nil(References));
  }

  lemma {:induction false} NotesMention(c: Memory, d: seq<Obj>, infos: seq<AttrInfo>, list: PsviAttributes,
                                        notes: seq<nat>, n: nat)
    requires n <= |notes| && forall k :: 0 <= k < n ==> Findable(infos, list, notes[k])
    ensures Mentioned(Expand(c, d, NoteNodes(infos, list, notes, n))) == []
    ensures Now(c, d, NoteNodes(infos, list, notes, n)) == d
  {
    hide Expand, Mentioned, Now, NoteInfo;
    if n == 0 {
      NothingMentioned(c, d);
    } else {
      var i := notes[n - 1];
      NotesMention(c, d, infos, list, notes, n - 1);
      GroupMentions(c, d, NoteNodes(infos, list, notes, n - 1), Attribute, NoteBody(infos, list, i));
      InfoMentions(c, d, infos[i], list.ByName(infos[i]).value.schemaSpecified);
    }
  }

  lemma NothingYet(c: Memory)
    ensures MentionedAt(c, Idle()) == [] && DefinedAt(c, Idle()) == []
  {
    assert Expand(c, [], Start) == Start;
  }

  lemma DocumentMentioned(c: Memory, d: DocumentEvents)
    ensures MentionedAt(c, DocumentPlace(d)) == []
  {
    hide Expand, Mentioned, Nodes.Val, MentionedAt, DefinedAt;
    NothingYet(c);
    MentionedInside(c, DocumentPlace(d));
    NothingMentioned(c, []);
    if d.declaration.Some? {
      var x := d.declaration.value;
      var f1 := Start.Val(CharacterEncodingScheme, if x.encoding != "" then x.encoding else x.autoEncoding);
      ValMentions(c, [], Start, CharacterEncodingScheme, if x.encoding != "" then x.encoding else x.autoEncoding);
      ValMentions(c, [], f1, Standalone, x.standalone);
      ValMentions(c, [], f1.Val(Standalone, x.standalone), Version, x.version);
    }
  }

  /** The tree of a document mentions what its content mentions. */
  lemma DocumentMentions(c: Memory, d: DocumentEvents, inner: Shown, any: bool)
    requires inner == DocumentContent(c, d) && any == AnyVisible(d.content, |d.content|)
    requires !any ==> inner.nodes == Start
    ensures MentionedAt(c, Place(DocumentNodes(c, d), Nothing))
         == MentionedAt(c, Level(DocumentPlace(d), any, inner.nodes))
  {
    hide Expand, Mentioned, MentionedAt, DefinedAt, DocumentContent, AnyVisible, DocumentStart, Nodes.Val, Now;
    var level := if any then DocumentStart(d).Group(Children, inner.nodes) else DocumentStart(d).Blank(Children);
    var last := level.Absent(DocumentElement).Blank(Notations).Blank(UnparsedEntities);
    LevelMentioned(c, DocumentPlace(d), any, inner.nodes);
    DocumentMentioned(c, d);
    DocumentDefined(c, d);
    LastMentions(c, level, inner.env.baseUri);
    StartMentions(c, d);
    if any {
      GroupMentions(c, [], DocumentStart(d), Children, inner.nodes);
    } else {
      LineMentions(c, [], DocumentStart(d), Bare(Children));
      NothingMentioned(c, Now(c, [], DocumentStart(d)));
    }
    OneTreeMentions(c, last.Val(BaseURI, inner.env.baseUri).Val(AllDeclarationsProcessed, "true"));
  }

  lemma StartMentions(c: Memory, d: DocumentEvents)
    ensures Mentioned(Expand(c, [], DocumentStart(d))) == []
  {
    hide Expand, Mentioned, MentionedAt, DefinedAt, DocumentStart;
    DocumentMentioned(c, d);
    MentionedInside(c, DocumentPlace(d));
    NothingYet(c);
  }

  lemma LastMentions(c: Memory, level: Nodes, baseUri: string)
    ensures Mentioned(Expand(c, [], level.Absent(DocumentElement).Blank(Notations).Blank(UnparsedEntities)
                                    .Val(BaseURI, baseUri).Val(AllDeclarationsProcessed, "true")))
         == Mentioned(Expand(c, [], level))
  {
    hide Expand, Mentioned, Nodes.Val, Now;
    var f1 := level.Absent(DocumentElement);
    var f2 := f1.Blank(Notations);
    var f3 := f2.Blank(UnparsedEntities);
    LineMentions(c, [], level, Node.Nil(DocumentElement));
    LineMentions(c, [], f1, Bare(Notations));
    LineMentions(c, [], f2, Bare(UnparsedEntities));
    ValMentions(c, [], f3, BaseURI, baseUri);
    ValMentions(c, [], f3.Val(BaseURI, baseUri), AllDeclarationsProcessed, "true");
  }

  lemma OneTreeMentions(c: Memory, f: Nodes)
    ensures MentionedAt(c, Place(More(Start, Branch(Document, Root, f)), Nothing)) == Mentioned(Expand(c, [], f))
  {
    hide Expand;
    var tree := Branch(Document, Root, f);
    MoreMentions(c, [], Start, tree);
    NothingMentioned(c, []);
    assert Step(c, [], tree) == Branch(Document, Root, Expand(c, [] + HeadObj(Root), f));
    assert [] + HeadObj(Root) == [];
  }

  /** The mentions of a document are those of its tree, in order. */
  lemma RequestsAreMentions(c: Memory, d: DocumentEvents)
    ensures Objects(RequestsOf(c, d)) == Mentioned(Expand(c, [], DocumentNodes(c, d)))
  {
    hide Expand, Mentioned, MentionedAt, DefinedAt, AnyVisible, ShowAll, ContentRequests, Now, DocumentStart, Level;
    var inner, any := DocumentContent(c, d), AnyVisible(d.content, |d.content|);
    var start := Shown(Start, EmptyEnv());
    if !any {
      NothingShown(c, true, Now(c, [], DocumentStart(d)), start, d.content, |d.content|);
    }
    DocumentMentions(c, d, inner, any);
    LevelMentioned(c, DocumentPlace(d), any, inner.nodes);
    DocumentMentioned(c, d);
    DocumentDefined(c, d);
    AllMentioned(c, true, Now(c, [], DocumentStart(d)), start, d.content, |d.content|);
    NothingMentioned(c, Now(c, [], DocumentStart(d)));
    RootMentioned(c, DocumentNodes(c, d));
    assert [] + Objects(RequestsOf(c, d)) == Objects(RequestsOf(c, d));
    assert [] + Mentioned(Expand(c, Now(c, [], DocumentStart(d)), inner.nodes))
        == Mentioned(Expand(c, Now(c, [], DocumentStart(d)), inner.nodes));
  }

  lemma RootMentioned(c: Memory, f: Nodes)
    ensures MentionedAt(c, Place(f, Nothing)) == Mentioned(Expand(c, [], f))
  {
    hide Expand, Mentioned;
  }
}
