/**
 * The mentions of a document, in the order of its tree, each with the prefix that its namespace has where it is
 * printed: at the start of an element, the prefixes in scope for the element; at its end, those its content left.
 */
module PsviRequests {
  import opened Options
  import opened PsviOutput
  import opened PsviComponents
  import opened PsviPlans
  import opened PsviExpansion
  import opened PsviIds
  import opened PsviEvents
  import opened PsviDocument
  import Names = PsviNamespaces

  /** These objects, mentioned in a scope. */
  function RequestsFor(c: Memory, s: Names.Scope, objs: seq<Obj>): (r: seq<Request>)
    ensures |r| == |objs| && forall k :: 0 <= k < |r| ==> r[k] == Request(objs[k], PrefixIn(c, s, objs[k]))
  {
    seq(|objs|, k requires 0 <= k < |objs| => Request(objs[k], PrefixIn(c, s, objs[k])))
  }

  lemma RequestsAre(c: Memory, s: Names.Scope, before: seq<Request>, r: seq<Request>, objs: seq<Obj>)
    requires AskedIn(c, s, before, r) && Objects(r) == Objects(before) + objs
    ensures r == before + RequestsFor(c, s, objs)
  {
    hide PrefixIn;
    forall k | 0 <= k < |r| ensures r[k] == (before + RequestsFor(c, s, objs))[k] {
      assert r[k].obj == (Objects(before) + objs)[k];
    }
  }

  function ElementRequests(c: Memory, root: bool, d: seq<Obj>, env: Env, e: ElementEvents): seq<Request>
    decreases e, 1
  {
    StartRequests(c, d, env, e) + InsideRequests(c, d, env, e) + EndRequests(c, root, d, env, e)
  }

  function StartRequests(c: Memory, d: seq<Obj>, env: Env, e: ElementEvents): seq<Request> {
    RequestsFor(c, env.scope, Mentioned(Expand(c, d, ElementStart(c, d, env, e))))
  }

  function InsideRequests(c: Memory, d: seq<Obj>, env: Env, e: ElementEvents): seq<Request>
    decreases e, 0
  {
    ContentRequests(c, false, InsideDefined(c, d, env, e), Shown(Start, env), e.content, |e.content|)
  }

  function EndRequests(c: Memory, root: bool, d: seq<Obj>, env: Env, e: ElementEvents): seq<Request> {
    var inner := ShowInside(c, d, env, e);
    var before := Now(c, InsideDefined(c, d, env, e), inner.nodes);
    RequestsFor(c, inner.env.scope, Mentioned(Expand(c, before, EndTrees(c, root, e))))
  }

  /** What is shown of an element behind its children. */
  function EndTrees(c: Memory, root: bool, e: ElementEvents): Nodes {
    ElementTail(c, Start, e.close, if root then e.close.model else None)
  }

  function ItemRequests(c: Memory, root: bool, d: seq<Obj>, s: Shown, x: Content): seq<Request>
    decreases x, 2
  {
    if x.Nested? then ElementRequests(c, root, Now(c, d, s.nodes), Entered(s.env, x.element), x.element) else []
  }

  function ContentRequests(c: Memory, root: bool, d: seq<Obj>, s: Shown, content: seq<Content>, n: nat): seq<Request>
    requires n <= |content|
    decreases content, n
  {
    if n == 0 then []
    else
      ContentRequests(c, root, d, s, content, n - 1)
      + ItemRequests(c, root, d, ShowAll(c, root, d, s, content, n - 1), content[n - 1])
  }

  function RequestsOf(c: Memory, d: DocumentEvents): seq<Request> {
    ContentRequests(c, true, Now(c, [], DocumentStart(d)), Shown(Start, EmptyEnv()), d.content, |d.content|)
  }

  // -------------------------------------------------------------------------
  //  A document that is not shown to the end
  // -------------------------------------------------------------------------

  function StopElementRequests(c: Memory, d: seq<Obj>, env: Env, e: ElementEvents): seq<Request>
    requires !ElementRuns(c, d, env, e)
    decreases e, 1
  {
    if !Starts(c, d, env, e) then StopNoteRequests(c, d, env, e)
    else StartRequests(c, d, env, e) + StopInsideRequests(c, d, env, e)
  }

  function StopNoteRequests(c: Memory, d: seq<Obj>, env: Env, e: ElementEvents): seq<Request> {
    var named := ElementName(env.scope, e.localName, e.uri);
    RequestsFor(c, env.scope, Mentioned(Expand(c, d, AttributesPlan(c, env.scope, named, e.attrs, e.assessed))))
  }

  function StopInsideRequests(c: Memory, d: seq<Obj>, env: Env, e: ElementEvents): seq<Request>
    requires !InsideRuns(c, d, env, e)
    decreases e, 0
  {
    StopRequests(c, false, InsideDefined(c, d, env, e), Shown(Start, env), e.content, |e.content|)
  }

  function StopRequests(c: Memory, root: bool, d: seq<Obj>, s: Shown, content: seq<Content>, n: nat): seq<Request>
    requires n <= |content| && !AllRun(c, root, d, s, content, n)
    decreases content, n
  {
    if !AllRun(c, root, d, s, content, n - 1) then StopRequests(c, root, d, s, content, n - 1)
    else
      ContentRequests(c, root, d, s, content, n - 1)
      + StopItemRequests(c, root, d, ShowAll(c, root, d, s, content, n - 1), content[n - 1])
  }

  function StopItemRequests(c: Memory, root: bool, d: seq<Obj>, s: Shown, x: Content): seq<Request>
    requires !ContentRuns(c, root, d, s, x)
    decreases x, 2
  {
    StopElementRequests(c, Now(c, d, s.nodes), Entered(s.env, x.element), x.element)
  }

  // -------------------------------------------------------------------------
  //  The ids of a document
  // -------------------------------------------------------------------------

  /** The mentions of the document up to its end, or to where it stops. */
  function MentionsMade(c: Memory, d: DocumentEvents): seq<Request> {
    var before := Now(c, [], DocumentStart(d));
    if DocumentRuns(c, d) then RequestsOf(c, d)
    else StopRequests(c, true, before, Shown(Start, EmptyEnv()), d.content, |d.content|)
  }

  /** The ids of a document. */
  function DocumentTable(c: Memory, d: DocumentEvents): IdTable {
    MintAll(c, EmptyTable(), MentionsMade(c, d))
  }

  /** No more than 99000 objects of the document need a number; then no number has six digits. */
  predicate NumbersSuffice(c: Memory, d: DocumentEvents) { |DocumentTable(c, d).counted| <= 99000 }

  lemma NumbersDecide(c: Memory, d: DocumentEvents)
    ensures TableOk(c, DocumentTable(c, d))
    ensures var counted := DocumentTable(c, d).counted;
            NumbersSuffice(c, d) <==> forall o :: o in counted ==> counted[o] <= 99999
  {
    hide TableOk, MentionsMade;
    EmptyTableOk(c);
    MintAllOk(c, EmptyTable(), MentionsMade(c, d));
    NumbersFitIff(c, DocumentTable(c, d));
  }

  // -------------------------------------------------------------------------
  //  What trees behind each other mention
  // -------------------------------------------------------------------------

  lemma MoreMentions(c: Memory, d: seq<Obj>, f: Nodes, n: Node)
    ensures var s := Step(c, Now(c, d, f), n);
            && Mentioned(Expand(c, d, More(f, n))) == Mentioned(Expand(c, d, f)) + MentionedNode(s)
            && Now(c, d, More(f, n)) == Now(c, d, f) + FixedNode(s)
  {
  }

  lemma GroupMentions(c: Memory, d: seq<Obj>, f: Nodes, tag: Tag, children: Nodes)
    ensures Mentioned(Expand(c, d, f.Group(tag, children)))
         == Mentioned(Expand(c, d, f)) + Mentioned(Expand(c, Now(c, d, f), children))
    ensures Now(c, d, f.Group(tag, children)) == Now(c, Now(c, d, f), children)
  {
    hide Expand, Mentioned, Fixed;
    var d1 := Now(c, d, f);
    MoreMentions(c, d, f, Branch(tag, Plain, children));
    PlainBranch(c, d1, tag, children);
  }

  lemma PlainBranch(c: Memory, d: seq<Obj>, tag: Tag, children: Nodes)
    ensures Step(c, d, Branch(tag, Plain, children)) == Branch(tag, Plain, Expand(c, d, children))
    ensures var n := Branch(tag, Plain, Expand(c, d, children));
            MentionedNode(n) == Mentioned(n.children) && FixedNode(n) == Fixed(n.children)
  {
    hide Expand;
    assert d + [] == d;
  }

  /** A line that mentions nothing. */
  lemma LineMentions(c: Memory, d: seq<Obj>, f: Nodes, n: Node)
    requires n.Nil? || n.Bare? || n.Text?
    ensures Mentioned(Expand(c, d, More(f, n))) == Mentioned(Expand(c, d, f))
    ensures Now(c, d, More(f, n)) == Now(c, d, f)
  {
    hide Expand;
    MoreMentions(c, d, f, n);
    assert Step(c, Now(c, d, f), n) == n;
    assert Now(c, d, f) + [] == Now(c, d, f);
  }

  lemma NothingMentioned(c: Memory, d: seq<Obj>)
    ensures Mentioned(Expand(c, d, Start)) == [] && Now(c, d, Start) == d
  {
  }

  lemma ActualMentions(c: Memory, d: seq<Obj>, pre: Nodes, v: ActualValue)
    ensures Mentioned(Expand(c, d, ActualValuePlan(pre, v))) == Mentioned(Expand(c, d, pre))
    ensures Now(c, d, ActualValuePlan(pre, v)) == Now(c, d, pre)
  {
    hide Expand, Mentioned, Fixed, Now;
    if !v.NoValue? {
      var d1, f := Now(c, d, pre), Start.Group(Tag.ActualValue, ActualValueBody(v));
      MoreMentions(c, d, pre, Remark(f));
      GroupMentions(c, d1, Start, Tag.ActualValue, ActualValueBody(v));
      NothingMentioned(c, d1);
      if v.ShownValue? {
        LineMentions(c, d1, Start, Text(DataType, v.dataType));
        LineMentions(c, d1, Start.Written(DataType, v.dataType), Text(DataValue, v.dataValue));
      }
      RemarkMentions(c, d1, f);
    }
  }

  lemma RemarkMentions(c: Memory, d: seq<Obj>, f: Nodes)
    requires Mentioned(Expand(c, d, f)) == [] && Now(c, d, f) == d
    ensures var s := Step(c, d, Remark(f)); MentionedNode(s) == [] && FixedNode(s) == [] && d + [] == d
  {
    hide Expand;
    var made := Fixed(Expand(c, d, f));
    assert |d + made| == |d|;
  }

  // -------------------------------------------------------------------------
  //  Trees put behind others
  // -------------------------------------------------------------------------

  function Concat(a: Nodes, b: Nodes): Nodes {
    match b
    case Start => a
    case More(front, last) => More(Concat(a, front), last)
  }

  lemma {:induction false} ConcatMentions(c: Memory, d: seq<Obj>, a: Nodes, b: Nodes)
    ensures Mentioned(Expand(c, d, Concat(a, b)))
         == Mentioned(Expand(c, d, a)) + Mentioned(Expand(c, Now(c, d, a), b))
    ensures Now(c, d, Concat(a, b)) == Now(c, Now(c, d, a), b)
    decreases b
  {
    hide Expand, Mentioned, Now, Step;
    if b.Start? {
      NothingMentioned(c, Now(c, d, a));
    } else {
      ConcatMentions(c, d, a, b.front);
      MoreMentions(c, d, Concat(a, b.front), b.last);
      MoreMentions(c, Now(c, d, a), b.front, b.last);
    }
  }

  lemma TailConcat(c: Memory, pre: Nodes, e: PsviElement, model: Option<seq<NamespaceItem>>)
    ensures ElementTail(c, pre, e, model) == Concat(pre, ElementTail(c, Start, e, model))
  {
    hide SchemaInformationPlan, ElementOutcome, ElementReferences;
    var f := SchemaInformationPlan(c, Start, model);
    SchemaConcat(c, pre, model);
    OutcomeConcat(pre, f, e);
    ReferencesConcat(c, pre, ElementOutcome(f, e), e);
  }

  lemma SchemaConcat(c: Memory, pre: Nodes, model: Option<seq<NamespaceItem>>)
    ensures SchemaInformationPlan(c, pre, model) == Concat(pre, SchemaInformationPlan(c, Start, model))
  {
    hide NamespaceItemNodes;
  }

  lemma ValConcat(pre: Nodes, f: Nodes, tag: Tag, text: string)
    ensures Concat(pre, f.Val(tag, text)) == Concat(pre, f).Val(tag, text)
    ensures Concat(pre, f.Absent(tag)) == Concat(pre, f).Absent(tag)
  {
  }

  lemma OutcomeConcat(pre: Nodes, f: Nodes, e: PsviElement)
    ensures ElementOutcome(Concat(pre, f), e) == Concat(pre, ElementOutcome(f, e))
  {
    hide Nodes.Val, Nodes.Absent, Concat;
    var f1 := f.Val(ValidationAttempted, e.validationAttempted);
    var f2 := f1.Val(ValidationContext, e.validationContext);
    var f3 := f2.Val(Validity, e.validity);
    var f4 := f3.Absent(SchemaErrorCode);
    var f5 := f4.Val(SchemaNormalizedValue, e.normalizedValue);
    var f6 := f5.Val(CanonicalRepresentation, e.canonical);
    var f7 := f6.Val(SchemaSpecified, SpecifiedText(e.schemaSpecified));
    ValConcat(pre, f, ValidationAttempted, e.validationAttempted);
    ValConcat(pre, f1, ValidationContext, e.validationContext);
    ValConcat(pre, f2, Validity, e.validity);
    ValConcat(pre, f3, SchemaErrorCode, "");
    ValConcat(pre, f4, SchemaNormalizedValue, e.normalizedValue);
    ValConcat(pre, f5, CanonicalRepresentation, e.canonical);
    ValConcat(pre, f6, SchemaSpecified, SpecifiedText(e.schemaSpecified));
    ValConcat(pre, f7, SchemaDefault, e.schemaDefault);
  }

  lemma TypeRefConcat(c: Memory, pre: Nodes, f: Nodes, enclose: Tag, o: Option<Obj>)
    ensures Concat(pre, TypeRef(c, f, enclose, o)) == TypeRef(c, Concat(pre, f), enclose, o)
  {
    hide Concat, Nodes.Group, Nodes.Absent, Nodes.Ref;
    if o.None? {
      ValConcat(pre, f, enclose, "");
    } else {
      GroupConcat(pre, f, enclose, Start.Ref(TagOf(c, o.value), o));
    }
  }

  lemma DeclRefConcat(pre: Nodes, f: Nodes, enclose: Tag, tag: Tag, o: Option<Obj>)
    ensures Concat(pre, DeclRef(f, enclose, tag, o)) == DeclRef(Concat(pre, f), enclose, tag, o)
  {
    hide Concat, Nodes.Group, Nodes.Absent, Nodes.Ref;
    if o.None? {
      ValConcat(pre, f, enclose, "");
    } else {
      GroupConcat(pre, f, enclose, Start.Ref(tag, o));
    }
  }

  lemma GroupConcat(pre: Nodes, f: Nodes, tag: Tag, children: Nodes)
    ensures Concat(pre, f.Group(tag, children)) == Concat(pre, f).Group(tag, children)
  {
  }

  lemma RefConcat(pre: Nodes, f: Nodes, tag: Tag, o: Option<Obj>)
    ensures Concat(pre, f.Ref(tag, o)) == Concat(pre, f).Ref(tag, o)
  {
  }

  lemma ReferencesConcat(c: Memory, pre: Nodes, f: Nodes, e: PsviElement)
    ensures ElementReferences(c, Concat(pre, f), e) == Concat(pre, ElementReferences(c, f, e))
  {
    hide Nodes.Val, Nodes.Absent, Nodes.Ref, Concat, TypeRef, DeclRef;
    var f1 := TypeRef(c, f, TypeDefinition, e.typeDefinition);
    var f2 := TypeRef(c, f1, MemberTypeDefinition, e.memberType);
    var f3 := f2.Absent(NilProperty);
    var f4 := DeclRef(f3, Tag.Declaration, ElementDeclaration, e.declaration);
    var f5 := f4.Ref(Notation, e.notation);
    var f6 := f5.Absent(IdIdrefTable);
    TypeRefConcat(c, pre, f, TypeDefinition, e.typeDefinition);
    TypeRefConcat(c, pre, f1, MemberTypeDefinition, e.memberType);
    ValConcat(pre, f2, NilProperty, "");
    DeclRefConcat(pre, f3, Tag.Declaration, ElementDeclaration, e.declaration);
    RefConcat(pre, f4, Notation, e.notation);
    ValConcat(pre, f5, IdIdrefTable, "");
    ValConcat(pre, f6, IdentityConstraintTable, "");
  }

  // -------------------------------------------------------------------------
  //  Elements
  // -------------------------------------------------------------------------

  /** An element's tree mentions what its start, its content and its end mention. */
  lemma ElementMentions(c: Memory, root: bool, d: seq<Obj>, env: Env, e: ElementEvents, inner: Nodes)
    requires !AnyVisible(e.content, |e.content|) ==> inner == Start
    ensures var known := ElementStart(c, d, env, e);
            var within := InsideDefined(c, d, env, e);
            Mentioned(Expand(c, d, ElementNodes(c, root, d, env, e, inner)))
              == Mentioned(Expand(c, d, known)) + Mentioned(Expand(c, within, inner))
                 + Mentioned(Expand(c, Now(c, within, inner), EndTrees(c, root, e)))
  {
    hide Expand, Mentioned, Now, ElementStart, ElementTail, ActualValuePlan, AnyVisible;
    var known := ElementStart(c, d, env, e);
    var level := if AnyVisible(e.content, |e.content|)
                 then known.Group(Children, ActualValuePlan(inner, e.close.actual))
                 else ActualValuePlan(known, e.close.actual).Blank(Children);
    LevelMentions(c, d, known, inner, e.close.actual, AnyVisible(e.content, |e.content|));
    TailConcat(c, level, e.close, if root then e.close.model else None);
    ConcatMentions(c, d, level, EndTrees(c, root, e));
  }

  lemma LevelMentions(c: Memory, d: seq<Obj>, known: Nodes, inner: Nodes, v: ActualValue, any: bool)
    requires !any ==> inner == Start
    ensures var level := if any then known.Group(Children, ActualValuePlan(inner, v))
                         else ActualValuePlan(known, v).Blank(Children);
            && Mentioned(Expand(c, d, level))
               == Mentioned(Expand(c, d, known)) + Mentioned(Expand(c, Now(c, d, known), inner))
            && Now(c, d, level) == Now(c, Now(c, d, known), inner)
  {
    hide Expand, Mentioned, Now, ActualValuePlan;
    if any {
      GroupMentions(c, d, known, Children, ActualValuePlan(inner, v));
      ActualMentions(c, Now(c, d, known), inner, v);
    } else {
      ActualMentions(c, d, known, v);
      LineMentions(c, d, ActualValuePlan(known, v), Bare(Children));
      NothingMentioned(c, Now(c, d, known));
    }
  }

  // -------------------------------------------------------------------------
  //  All the content
  // -------------------------------------------------------------------------

  lemma ObjectsAppend(a: seq<Request>, b: seq<Request>)
    ensures Objects(a + b) == Objects(a) + Objects(b)
  {
  }

  lemma RequestsForObjects(c: Memory, s: Names.Scope, objs: seq<Obj>)
    ensures Objects(RequestsFor(c, s, objs)) == objs
  {
    hide PrefixIn;
  }

  lemma {:induction false} ItemMentions(c: Memory, root: bool, d: seq<Obj>, s: Shown, x: Content)
    ensures Mentioned(Expand(c, d, ShowContent(c, root, d, s, x).nodes))
         == Mentioned(Expand(c, d, s.nodes)) + Objects(ItemRequests(c, root, d, s, x))
    decreases x, 1
  {
    if x.Nested? {
      var e, before, env := x.element, Now(c, d, s.nodes), Entered(s.env, x.element);
      ElementAsks(c, root, before, env, e);
      NestedMentions(c, root, d, s, e);
    } else {
      TextMentionsNothing(c, root, d, s, x);
      assert Mentioned(Expand(c, d, s.nodes)) + [] == Mentioned(Expand(c, d, s.nodes));
    }
  }

  lemma NestedMentions(c: Memory, root: bool, d: seq<Obj>, s: Shown, e: ElementEvents)
    ensures var before, env := Now(c, d, s.nodes), Entered(s.env, e);
            Mentioned(Expand(c, d, ShowContent(c, root, d, s, Nested(e)).nodes))
              == Mentioned(Expand(c, d, s.nodes))
                 + Mentioned(Expand(c, before,
                                    ElementNodes(c, root, before, env, e, ShowInside(c, before, env, e).nodes)))
  {
    hide Expand, Mentioned, Now, ElementNodes, ShowInside;
    var before, env := Now(c, d, s.nodes), Entered(s.env, e);
    GroupMentions(c, d, s.nodes, Element, ElementNodes(c, root, before, env, e, ShowInside(c, before, env, e).nodes));
  }

  lemma TextMentionsNothing(c: Memory, root: bool, d: seq<Obj>, s: Shown, x: Content)
    requires !x.Nested?
    ensures Mentioned(Expand(c, d, ShowContent(c, root, d, s, x).nodes)) == Mentioned(Expand(c, d, s.nodes))
  {
    hide Expand, Mentioned, Now, Nodes.Group;
    match x
    case Chars(text) => TextGroup(c, d, s.nodes, Character, Start.Val(TextContent, text));
    case CommentText(text) => TextGroup(c, d, s.nodes, CommentItem, Start.Val(Tag.Content, text));
    case Instruction(target, data) =>
      assert OnlyTexts(Start.Val(Target, target));
      TextGroup(c, d, s.nodes, ProcessingInstruction, Start.Val(Target, target).Val(Tag.Content, data));
    case _ =>
  }

  /** Trees that are texts only. */
  predicate OnlyTexts(f: Nodes) {
    f.More? ==> OnlyTexts(f.front) && (f.last.Text? || f.last.Nil?)
  }

  lemma {:induction false} TextsMentionNothing(c: Memory, d: seq<Obj>, f: Nodes)
    requires OnlyTexts(f)
    ensures Mentioned(Expand(c, d, f)) == []
    decreases f
  {
    hide Expand, Mentioned, Now;
    if f.Start? {
      NothingMentioned(c, d);
    } else {
      TextsMentionNothing(c, d, f.front);
      LineMentions(c, d, f.front, f.last);
    }
  }

  lemma TextGroup(c: Memory, d: seq<Obj>, f: Nodes, tag: Tag, children: Nodes)
    requires OnlyTexts(children)
    ensures Mentioned(Expand(c, d, f.Group(tag, children))) == Mentioned(Expand(c, d, f))
  {
    hide Expand, Mentioned, Now;
    GroupMentions(c, d, f, tag, children);
    TextsMentionNothing(c, Now(c, d, f), children);
    assert Mentioned(Expand(c, d, f)) + [] == Mentioned(Expand(c, d, f));
  }

  lemma {:induction false} ElementAsks(c: Memory, root: bool, d: seq<Obj>, env: Env, e: ElementEvents)
    ensures Mentioned(Expand(c, d, ElementNodes(c, root, d, env, e, ShowInside(c, d, env, e).nodes)))
         == Objects(ElementRequests(c, root, d, env, e))
    decreases e, 0
  {
    hide Expand, Mentioned, Now, ElementNodes, ElementStart, EndTrees, RequestsFor, InsideDefined;
    var within, inner := InsideDefined(c, d, env, e), ShowInside(c, d, env, e);
    InsideAsks(c, d, env, e);
    ElementMentions(c, root, d, env, e, inner.nodes);
    RequestsForObjects(c, env.scope, Mentioned(Expand(c, d, ElementStart(c, d, env, e))));
    RequestsForObjects(c, inner.env.scope, Mentioned(Expand(c, Now(c, within, inner.nodes), EndTrees(c, root, e))));
    ObjectsAppend(StartRequests(c, d, env, e), InsideRequests(c, d, env, e));
    ObjectsAppend(StartRequests(c, d, env, e) + InsideRequests(c, d, env, e), EndRequests(c, root, d, env, e));
  }

  lemma {:induction false} InsideAsks(c: Memory, d: seq<Obj>, env: Env, e: ElementEvents)
    ensures Mentioned(Expand(c, InsideDefined(c, d, env, e), ShowInside(c, d, env, e).nodes))
         == Objects(InsideRequests(c, d, env, e))
    ensures !AnyVisible(e.content, |e.content|) ==> ShowInside(c, d, env, e).nodes == Start
    decreases e.content, |e.content| + 1
  {
    hide Expand, Mentioned, Now, InsideDefined, ShowAll, ContentRequests;
    var within := InsideDefined(c, d, env, e);
    AllMentioned(c, false, within, Shown(Start, env), e.content, |e.content|);
    NothingMentioned(c, within);
    if !AnyVisible(e.content, |e.content|) {
      NothingShown(c, false, within, Shown(Start, env), e.content, |e.content|);
    }
  }

  /** The content of a level mentions what is requested for it. */
  lemma {:induction false} AllMentioned(c: Memory, root: bool, d: seq<Obj>, s: Shown, content: seq<Content>, n: nat)
    requires n <= |content|
    ensures Mentioned(Expand(c, d, ShowAll(c, root, d, s, content, n).nodes))
         == Mentioned(Expand(c, d, s.nodes)) + Objects(ContentRequests(c, root, d, s, content, n))
    decreases content, n
  {
    hide Expand, Mentioned, ShowContent, ItemRequests;
    if n == 0 {
      assert Mentioned(Expand(c, d, s.nodes)) + [] == Mentioned(Expand(c, d, s.nodes));
    } else {
      var before := ShowAll(c, root, d, s, content, n - 1);
      AllMentioned(c, root, d, s, content, n - 1);
      ItemMentions(c, root, d, before, content[n - 1]);
      ObjectsAppend(ContentRequests(c, root, d, s, content, n - 1),
                    ItemRequests(c, root, d, before, content[n - 1]));
    }
  }
}
