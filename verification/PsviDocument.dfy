/**
 * A whole document as the parser reports it, whether the writer shows it to the end, and the one tree shown for
 * it. The tree is built from the nesting of the document alone: no stack, no indent, no output.
 */
module PsviDocument {
  import opened Options
  import opened PsviOutput
  import opened PsviComponents
  import opened PsviPlans
  import opened PsviExpansion
  import opened PsviEvents
  import Names = PsviNamespaces
  import Reader = PsviReader

  datatype Content =
    | Chars(text: string)
    | Whitespace(text: string)
    | CommentText(text: string)
    | Instruction(target: string, data: string)
    | BaseChange(baseUri: string)
    | Nested(element: ElementEvents)

  /** The mappings it declares, its attributes, what is known before its content, the content, the assessment. */
  datatype ElementEvents = ElementEvents(mappings: seq<(string, string)>, localName: string, uri: string,
                                         attrs: seq<AttrInfo>, assessed: PsviAttributes,
                                         partial: Option<PsviElement>, content: seq<Content>, close: PsviElement)

  datatype Declaration = Declaration(version: string, encoding: string, standalone: string, autoEncoding: string)

  datatype DocumentEvents = DocumentEvents(declaration: Option<Declaration>, content: seq<Content>)

  /** Namespaces in scope and base uri; they change along the document. */
  datatype Env = Env(scope: Names.Scope, baseUri: string)

  datatype Shown = Shown(nodes: Nodes, env: Env)

  /** Content that is shown as a child. */
  predicate Visible(x: Content) {
    !x.Whitespace? && !x.BaseChange?
  }

  predicate AnyVisible(content: seq<Content>, n: nat)
    requires n <= |content|
  {
    n > 0 && (AnyVisible(content, n - 1) || Visible(content[n - 1]))
  }

  function StartAll(s: Names.Scope, mappings: seq<(string, string)>, n: nat): Names.Scope
    requires n <= |mappings|
  {
    if n == 0 then s
    else Names.StartMapping(StartAll(s, mappings, n - 1), mappings[n - 1].0, mappings[n - 1].1)
  }

  /** Mappings end in the opposite order. */
  function EndAll(s: Names.Scope, mappings: seq<(string, string)>, n: nat): Names.Scope
    requires n <= |mappings|
    decreases n
  {
    if n == 0 then s else EndAll(Names.EndMapping(s, mappings[n - 1].0), mappings, n - 1)
  }

  /**
   * root tells whether the content stands directly in the document; d are the objects defined before the
   * content of the level.
   */
  function ShowContent(c: Memory, root: bool, d: seq<Obj>, s: Shown, x: Content): Shown
    decreases x, 0
  {
    match x
    case Chars(text) => Shown(s.nodes.Group(Character, Start.Val(TextContent, text)), s.env)
    case Whitespace(_) => s
    case CommentText(text) => Shown(s.nodes.Group(CommentItem, Start.Val(Tag.Content, text)), s.env)
    case Instruction(target, data) =>
      Shown(s.nodes.Group(ProcessingInstruction, Start.Val(Target, target).Val(Tag.Content, data)), s.env)
    case BaseChange(uri) => Shown(s.nodes, s.env.(baseUri := uri))
    case Nested(e) => ShowElement(c, root, Now(c, d, s.nodes), s.nodes, Entered(s.env, e), e)
  }

  function ShowElement(c: Memory, root: bool, d: seq<Obj>, pre: Nodes, env: Env, e: ElementEvents): Shown
    decreases e, 1
  {
    var inner := ShowInside(c, d, env, e);
    Shown(pre.Group(Element, ElementNodes(c, root, d, env, e, inner.nodes)),
          inner.env.(scope := EndAll(inner.env.scope, e.mappings, |e.mappings|)))
  }

  function ShowInside(c: Memory, d: seq<Obj>, env: Env, e: ElementEvents): Shown
    decreases e, 0
  {
    ShowAll(c, false, InsideDefined(c, d, env, e), Shown(Start, env), e.content, |e.content|)
  }

  function ShowAll(c: Memory, root: bool, d: seq<Obj>, s: Shown, content: seq<Content>, n: nat): Shown
    requires n <= |content|
    decreases content, n
  {
    if n == 0 then s else ShowContent(c, root, d, ShowAll(c, root, d, s, content, n - 1), content[n - 1])
  }

  function Entered(env: Env, e: ElementEvents): Env {
    env.(scope := StartAll(env.scope, e.mappings, |e.mappings|))
  }

  /** The places noted when the element's attributes have been shown. */
  function Noted(c: Memory, d: seq<Obj>, env: Env, e: ElementEvents): seq<nat> {
    NotesLeft(c, d, env.scope, e.attrs, e.assessed)
  }

  /** The element's attributes are shown to the end: every place noted leads to an assessed attribute. */
  predicate Starts(c: Memory, d: seq<Obj>, env: Env, e: ElementEvents) {
    AllFindable(e.attrs, e.assessed, Noted(c, d, env, e))
  }

  /** What is shown of an element before its content, provided that it starts. */
  function ElementStart(c: Memory, d: seq<Obj>, env: Env, e: ElementEvents): Nodes {
    if !Starts(c, d, env, e) then Start
    else if e.partial.None? then HeadOf(c, d, env, e)
    else PartialPlan(c, HeadOf(c, d, env, e), e.partial.value, None)
  }

  function HeadOf(c: Memory, d: seq<Obj>, env: Env, e: ElementEvents): (r: Nodes)
    requires Starts(c, d, env, e)
    ensures CommentsFlat(r) && Fixed(r) == [] && NoSchema(r)
  {
    ElementHead(c, env.scope, env.baseUri, e.localName, e.uri, e.attrs, e.assessed, Noted(c, d, env, e))
  }

  /** The objects defined when the element's content begins. */
  function InsideDefined(c: Memory, d: seq<Obj>, env: Env, e: ElementEvents): seq<Obj> {
    Now(c, d, ElementStart(c, d, env, e))
  }

  /** The schema model is shown with the root element only. */
  function ElementNodes(c: Memory, root: bool, d: seq<Obj>, env: Env, e: ElementEvents, inner: Nodes): Nodes {
    var known := ElementStart(c, d, env, e);
    var level := if AnyVisible(e.content, |e.content|)
                 then known.Group(Children, ActualValuePlan(inner, e.close.actual))
                 else ActualValuePlan(known, e.close.actual).Blank(Children);
    ElementTail(c, level, e.close, if root then e.close.model else None)
  }

  function DocumentStart(d: DocumentEvents): Nodes {
    if d.declaration.None? then Start
    else
      var x := d.declaration.value;
      Start.Val(CharacterEncodingScheme, if x.encoding != "" then x.encoding else x.autoEncoding)
      .Val(Standalone, x.standalone).Val(Version, x.version)
  }

  function EmptyEnv(): Env { Env(Names.Scope([], map[]), "") }

  function DocumentContent(c: Memory, d: DocumentEvents): Shown {
    ShowAll(c, true, Now(c, [], DocumentStart(d)), Shown(Start, EmptyEnv()), d.content, |d.content|)
  }

  function DocumentNodes(c: Memory, d: DocumentEvents): Nodes {
    var inner := DocumentContent(c, d);
    var level := if AnyVisible(d.content, |d.content|) then DocumentStart(d).Group(Children, inner.nodes)
                 else DocumentStart(d).Blank(Children);
    More(Start, Branch(Document, Root,
      level.Absent(DocumentElement).Blank(Notations).Blank(UnparsedEntities)
      .Val(BaseURI, inner.env.baseUri).Val(AllDeclarationsProcessed, "true")))
  }

  lemma {:induction false} NothingShown(c: Memory, root: bool, d: seq<Obj>, s: Shown, content: seq<Content>, n: nat)
    requires n <= |content| && !AnyVisible(content, n)
    ensures ShowAll(c, root, d, s, content, n).nodes == s.nodes
    decreases n
  {
    if n > 0 {
      NothingShown(c, root, d, s, content, n - 1);
    }
  }

  // -------------------------------------------------------------------------
  //  Documents the parser may report
  // -------------------------------------------------------------------------

  /** Pointers are good. */
  predicate ContentOk(c: Memory, x: Content) {
    x.Nested? ==>
      var e := x.element;
      && PsviAttributesLinked(c, e.assessed)
      && PsviElementLinked(c, e.close) && (e.partial.Some? ==> PsviElementLinked(c, e.partial.value))
      && forall i :: 0 <= i < |e.content| ==> ContentOk(c, e.content[i])
  }

  predicate DocumentOk(c: Memory, d: DocumentEvents) {
    forall i :: 0 <= i < |d.content| ==> ContentOk(c, d.content[i])
  }

  // -------------------------------------------------------------------------
  //  Documents the writer shows to the end
  // -------------------------------------------------------------------------

  /** Every element in the content starts. */
  predicate ContentRuns(c: Memory, root: bool, d: seq<Obj>, s: Shown, x: Content)
    decreases x
  {
    x.Nested? ==> ElementRuns(c, Now(c, d, s.nodes), Entered(s.env, x.element), x.element)
  }

  predicate ElementRuns(c: Memory, d: seq<Obj>, env: Env, e: ElementEvents)
    decreases e, 1
  {
    Starts(c, d, env, e) && InsideRuns(c, d, env, e)
  }

  predicate InsideRuns(c: Memory, d: seq<Obj>, env: Env, e: ElementEvents)
    decreases e, 0
  {
    AllRun(c, false, InsideDefined(c, d, env, e), Shown(Start, env), e.content, |e.content|)
  }

  predicate AllRun(c: Memory, root: bool, d: seq<Obj>, s: Shown, content: seq<Content>, n: nat)
    requires n <= |content|
    decreases content, n
  {
    n == 0 ||
    (AllRun(c, root, d, s, content, n - 1) &&
     ContentRuns(c, root, d, ShowAll(c, root, d, s, content, n - 1), content[n - 1]))
  }

  predicate DocumentRuns(c: Memory, d: DocumentEvents) {
    AllRun(c, true, Now(c, [], DocumentStart(d)), Shown(Start, EmptyEnv()), d.content, |d.content|)
  }

  // -------------------------------------------------------------------------
  //  The tree is well formed
  // -------------------------------------------------------------------------

  lemma {:induction false} ContentFlat(c: Memory, root: bool, d: seq<Obj>, s: Shown, x: Content)
    requires CommentsFlat(s.nodes)
    ensures CommentsFlat(ShowContent(c, root, d, s, x).nodes)
    decreases x
  {
    hide ElementNodes, InsideDefined, Now;
    if x.Nested? {
      var e, before, env := x.element, Now(c, d, s.nodes), Entered(s.env, x.element);
      AllFlat(c, false, InsideDefined(c, before, env, e), Shown(Start, env), e.content, |e.content|);
      ElementFlat(c, root, before, env, e, ShowInside(c, before, env, e).nodes);
    }
  }

  lemma ElementFlat(c: Memory, root: bool, d: seq<Obj>, env: Env, e: ElementEvents, inner: Nodes)
    requires CommentsFlat(inner)
    ensures CommentsFlat(ElementNodes(c, root, d, env, e, inner))
  {
    hide Quiet, Fixed, ElementStart, ActualValuePlan, ElementTail, AnyVisible;
    StartsFlat(c, d, env, e);
  }

  lemma StartsFlat(c: Memory, d: seq<Obj>, env: Env, e: ElementEvents)
    ensures CommentsFlat(ElementStart(c, d, env, e))
  {
    hide Quiet, Fixed, HeadOf, PartialPlan, Starts;
  }

  lemma {:induction false} AllFlat(c: Memory, root: bool, d: seq<Obj>, s: Shown, content: seq<Content>, n: nat)
    requires n <= |content| && CommentsFlat(s.nodes)
    ensures CommentsFlat(ShowAll(c, root, d, s, content, n).nodes)
    decreases content, n
  {
    if n > 0 {
      AllFlat(c, root, d, s, content, n - 1);
      ContentFlat(c, root, d, ShowAll(c, root, d, s, content, n - 1), content[n - 1]);
    }
  }

  lemma DocumentFlat(c: Memory, d: DocumentEvents)
    ensures CommentsFlat(DocumentNodes(c, d))
  {
    hide ShowAll, AnyVisible, Quiet, Fixed, Now;
    AllFlat(c, true, Now(c, [], DocumentStart(d)), Shown(Start, EmptyEnv()), d.content, |d.content|);
    assert CommentsFlat(Start);
    assert CommentsFlat(DocumentStart(d));
  }

  /**
   * The lines of a document read back as a single document element: all tags match, every line has the
   * indent of its depth, comments do not nest.
   */
  lemma DocumentWellFormed(c: Memory, ids: map<Obj, string>, d: DocumentEvents)
    ensures exists children ::
              Reader.ReadAll(Reader.Outermost(Reader.Items.Start), Render(0, ids, Expand(c, [], DocumentNodes(c, d))))
              == Some(Reader.Outermost(Reader.Items.More(Reader.Items.Start,
                                                         Reader.Elem(Document, RootAttrs(), children))))
  {
    hide Reader.ReadAll, Render, RootAttrs;
    var f := DocumentNodes(c, d);
    DocumentFlat(c, d);
    ExpandFlat(c, [], f);
    Reader.ReadRender(Reader.Outermost(Reader.Items.Start), ids, Expand(c, [], f));
    DocumentShown(c, ids, f.last.children);
  }

  lemma DocumentShown(c: Memory, ids: map<Obj, string>, f: Nodes)
    ensures Reader.ShownAll(ids, Reader.Items.Start, Expand(c, [], More(Start, Branch(Document, Root, f))))
         == Reader.Items.More(Reader.Items.Start,
              Reader.Elem(Document, RootAttrs(), Reader.ShownAll(ids, Reader.Items.Start, Expand(c, [], f))))
  {
    hide RootAttrs;
    assert Expand(c, [], Start) == Start;
    assert [] + Fixed(Start) == [] && [] + HeadObj(Root) == [];
    assert Expand(c, [], More(Start, Branch(Document, Root, f)))
        == More(Start, Branch(Document, Root, Expand(c, [], f)));
  }
}
