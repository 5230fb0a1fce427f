/**
 * Where the schema information stands in the lines for a document: it is given at the close of a root element
 * that has a model, and every other element and every partial assessment has the empty form.
 */
module PsviSchemaForms {
  import opened Options
  import opened PsviOutput
  import opened PsviComponents
  import opened PsviPlans
  import opened PsviExpansion
  import opened PsviEvents
  import opened PsviDocument

  // -------------------------------------------------------------------------
  //  The lines
  // -------------------------------------------------------------------------

  /** The form a line shows schema information in; the depth is the line's indent. */
  function LineForm(line: Token): seq<SchemaForm> {
    match line
    case Open(i, tag, attrs) => if !tag.SchemaInformation? then [] else if attrs == [] then [Given(i)] else [Odd(i)]
    case Empty(i, tag, attrs) =>
      if !tag.SchemaInformation? then [] else if attrs == NilAttrs() then [Missing(i)] else [Odd(i)]
    case Value(i, tag, _) => if tag.SchemaInformation? then [Odd(i)] else []
    case _ => []
  }

  function LineForms(lines: seq<Token>): seq<SchemaForm> {
    if lines == [] then [] else LineForms(lines[..|lines| - 1]) + LineForm(lines[|lines| - 1])
  }

  lemma {:induction false} LineFormsAppend(a: seq<Token>, b: seq<Token>)
    ensures LineForms(a + b) == LineForms(a) + LineForms(b)
    decreases |b|
  {
    if b == [] {
      assert a + b == a;
    } else {
      LineFormsAppend(a, b[..|b| - 1]);
      assert (a + b)[..|a + b| - 1] == a + b[..|b| - 1] && (a + b)[|a + b| - 1] == b[|b| - 1];
      var last := LineForm(b[|b| - 1]);
      assert (LineForms(a) + LineForms(b[..|b| - 1])) + last == LineForms(a) + (LineForms(b[..|b| - 1]) + last);
    }
  }

  lemma OneLineForm(line: Token)
    ensures LineForms([line]) == LineForm(line)
  {
    assert [line][..0] == [];
  }

  lemma DeeperAppend(a: seq<SchemaForm>, b: seq<SchemaForm>, i: nat)
    ensures Deeper(a + b, i) == Deeper(a, i) + Deeper(b, i)
  {
  }

  lemma DeeperTwice(s: seq<SchemaForm>, i: nat, j: nat)
    ensures Deeper(Deeper(s, i), j) == Deeper(s, i + j)
  {
    var once, twice, both := Deeper(s, i), Deeper(Deeper(s, i), j), Deeper(s, i + j);
    hide Deeper;
    forall k | 0 <= k < |s| ensures twice[k] == both[k] {
      assert twice[k] == once[k].In(j) && once[k] == s[k].In(i);
    }
  }

  lemma DeeperNone(s: seq<SchemaForm>)
    ensures Deeper(s, 0) == s
  {
  }

  /** The lines of trees show schema information where the trees have it. */
  lemma {:induction false} RenderForms(i: nat, ids: map<Obj, string>, f: Nodes)
    ensures LineForms(Render(i, ids, f)) == Deeper(SchemaForms(f), i)
    decreases f, 1
  {
    hide LineForms, Deeper;
    if f.More? {
      RenderForms(i, ids, f.front);
      NodeForms(i, ids, f.last);
      LineFormsAppend(Render(i, ids, f.front), RenderNode(i, ids, f.last));
      DeeperAppend(SchemaForms(f.front), SchemaFormsNode(f.last), i);
    } else {
      NothingFormed(i);
    }
  }

  lemma NothingFormed(i: nat)
    ensures LineForms([]) == Deeper([], i) == []
  {
  }

  lemma OneDeeper(x: SchemaForm, i: nat)
    ensures Deeper([x], i) == [x.In(i)]
  {
  }

  lemma {:induction false} NodeForms(i: nat, ids: map<Obj, string>, n: Node)
    ensures LineForms(RenderNode(i, ids, n)) == Deeper(SchemaFormsNode(n), i)
    decreases n, 0
  {
    match n
    case Branch(tag, head, children) =>
      RenderForms(i + 1, ids, children);
      BranchForms(i, ids, tag, head, children);
    case Remark(children) =>
      RenderForms(i + 1, ids, children);
      RemarkForms(i, ids, children);
    case Link(tag, o, back) => OneLineForm(Empty(i, tag, RefAttrs(ids, o)));
    case Text(tag, text) => OneLineForm(Value(i, tag, text));
    case Nil(tag) => OneLineForm(Empty(i, tag, NilAttrs()));
    case Bare(tag) => OneLineForm(Empty(i, tag, []));
    case Inline(_) => NothingFormed(i);
    case Mark(_) => NothingFormed(i);
  }

  lemma BranchForms(i: nat, ids: map<Obj, string>, tag: Tag, head: Head, children: Nodes)
    requires LineForms(Render(i + 1, ids, children)) == Deeper(SchemaForms(children), i + 1)
    ensures LineForms(RenderNode(i, ids, Branch(tag, head, children)))
         == Deeper(SchemaFormsNode(Branch(tag, head, children)), i)
  {
    hide LineForms, Render, SchemaForms, Deeper;
    var open, close := Open(i, tag, HeadAttrs(ids, head)), Close(i, tag);
    OneLineForm(open);
    OneLineForm(close);
    LineFormsAppend([open], Render(i + 1, ids, children));
    LineFormsAppend([open] + Render(i + 1, ids, children), [close]);
    DeeperTwice(SchemaForms(children), 1, i);
    var own := if !tag.SchemaInformation? then [] else if head.Plain? then [Given(0)] else [Odd(0)];
    DeeperAppend(own, Deeper(SchemaForms(children), 1), i);
    OwnForm(i, ids, tag, head, own);
  }

  lemma OwnForm(i: nat, ids: map<Obj, string>, tag: Tag, head: Head, own: seq<SchemaForm>)
    requires own == if !tag.SchemaInformation? then [] else if head.Plain? then [Given(0)] else [Odd(0)]
    ensures Deeper(own, i) == LineForm(Open(i, tag, HeadAttrs(ids, head)))
  {
  }

  lemma RemarkForms(i: nat, ids: map<Obj, string>, children: Nodes)
    requires LineForms(Render(i + 1, ids, children)) == Deeper(SchemaForms(children), i + 1)
    ensures LineForms(RenderNode(i, ids, Remark(children))) == Deeper(SchemaFormsNode(Remark(children)), i)
  {
    hide LineForms, Render, SchemaForms, Deeper;
    OneLineForm(CommentStart(i));
    OneLineForm(CommentEnd(i));
    LineFormsAppend([CommentStart(i)], Render(i + 1, ids, children));
    LineFormsAppend([CommentStart(i)] + Render(i + 1, ids, children), [CommentEnd(i)]);
    DeeperTwice(SchemaForms(children), 1, i);
  }

  // -------------------------------------------------------------------------
  //  The walk
  // -------------------------------------------------------------------------

  /** The walk neither adds nor moves schema information. */
  lemma {:induction false} ExpandForms(c: Memory, d: seq<Obj>, f: Nodes)
    ensures SchemaForms(Expand(c, d, f)) == SchemaForms(f)
    decreases Undefined(c, d), f
  {
    if f.More? {
      ExpandForms(c, d, f.front);
      var d1 := d + Fixed(Expand(c, d, f.front));
      assert Undefined(c, d1) <= Undefined(c, d);
      StepForms(c, d1, f.last);
    }
  }

  lemma {:induction false} StepForms(c: Memory, d: seq<Obj>, n: Node)
    ensures SchemaFormsNode(Step(c, d, n)) == SchemaFormsNode(n)
    decreases Undefined(c, d), n
  {
    match n
    case Branch(_, head, children) =>
      assert Undefined(c, d + HeadObj(head)) <= Undefined(c, d);
      ExpandForms(c, d + HeadObj(head), children);
    case Remark(children) => ExpandForms(c, d, children);
    case Inline(o) =>
      if IsLocal(c, o) && o !in d {
        assert o in Undefined(c, d) && o !in Undefined(c, d + [o]);
        assert Undefined(c, d + [o]) <= Undefined(c, d);
        ExpandForms(c, d + [o], Contents(c, o));
      }
    case _ =>
  }

  // -------------------------------------------------------------------------
  //  Documents
  // -------------------------------------------------------------------------

  /**
   * The schema information an element should have, counted from the level the element stands in: missing in a
   * partial assessment, then that of its content, and at its close given if it is a root with a model.
   */
  function ElementForms(root: bool, e: ElementEvents): seq<SchemaForm>
    decreases e, 1
  {
    (if e.partial.Some? then [Missing(3)] else [])
    + Deeper(ContentForms(false, e.content, |e.content|), 2)
    + [if root && e.close.model.Some? then Given(1) else Missing(1)]
  }

  function ContentForms(root: bool, content: seq<Content>, n: nat): seq<SchemaForm>
    requires n <= |content|
    decreases content, n
  {
    if n == 0 then []
    else
      ContentForms(root, content, n - 1) + ItemForms(root, content[n - 1])
  }

  function ItemForms(root: bool, x: Content): seq<SchemaForm>
    decreases x, 2
  {
    if x.Nested? then ElementForms(root, x.element) else []
  }

  lemma {:induction false} ContentShows(c: Memory, root: bool, d: seq<Obj>, s: Shown, x: Content)
    requires ContentRuns(c, root, d, s, x)
    ensures SchemaForms(ShowContent(c, root, d, s, x).nodes)
         == SchemaForms(s.nodes) + ItemForms(root, x)
    decreases x
  {
    hide Now, Starts, InsideDefined, ElementNodes, ElementForms, AnyVisible;
    if x.Nested? {
      var e, before, env := x.element, Now(c, d, s.nodes), Entered(s.env, x.element);
      assert ElementRuns(c, before, env, e) && InsideRuns(c, before, env, e);
      AllShow(c, false, InsideDefined(c, before, env, e), Shown(Start, env), e.content, |e.content|);
      if !AnyVisible(e.content, |e.content|) {
        NothingShown(c, false, InsideDefined(c, before, env, e), Shown(Start, env), e.content, |e.content|);
      }
      ElementShows(c, root, before, env, e, ShowInside(c, before, env, e).nodes);
    }
  }

  lemma {:induction false} AllShow(c: Memory, root: bool, d: seq<Obj>, s: Shown, content: seq<Content>, n: nat)
    requires n <= |content| && AllRun(c, root, d, s, content, n)
    ensures SchemaForms(ShowAll(c, root, d, s, content, n).nodes)
         == SchemaForms(s.nodes) + ContentForms(root, content, n)
    decreases content, n
  {
    hide ItemForms, ContentRuns, ShowContent;
    if n > 0 {
      AllShow(c, root, d, s, content, n - 1);
      ContentShows(c, root, d, ShowAll(c, root, d, s, content, n - 1), content[n - 1]);
    }
  }

  lemma ElementShows(c: Memory, root: bool, d: seq<Obj>, env: Env, e: ElementEvents, inner: Nodes)
    requires Starts(c, d, env, e) && SchemaForms(inner) == ContentForms(false, e.content, |e.content|)
    requires !AnyVisible(e.content, |e.content|) ==> inner == Start
    ensures Deeper(SchemaForms(ElementNodes(c, root, d, env, e, inner)), 1) == ElementForms(root, e)
  {
    hide Starts, ElementStart, ElementTail, ActualValuePlan, ContentForms, AnyVisible, SchemaForms, Deeper;
    StartShows(c, d, env, e);
    NothingFormed(1);
    NothingFormed(2);
    NoForms();
    var partial := if e.partial.Some? then [Missing(2)] else [];
    var own := [if root && e.close.model.Some? then Given(0) else Missing(0)];
    var forms := SchemaForms(inner);
    DeeperTwice(forms, 1, 1);
    DeeperAppend(partial + Deeper(forms, 1), own, 1);
    DeeperAppend(partial, Deeper(forms, 1), 1);
    OneDeeper(Missing(2), 1);
    OneDeeper(own[0], 1);
    assert partial + [] == partial;
    assert SchemaForms(ElementNodes(c, root, d, env, e, inner)) == partial + Deeper(forms, 1) + own;
  }

  lemma NoForms()
    ensures SchemaForms(Start) == []
  {
  }

  lemma StartShows(c: Memory, d: seq<Obj>, env: Env, e: ElementEvents)
    requires Starts(c, d, env, e)
    ensures SchemaForms(ElementStart(c, d, env, e)) == if e.partial.Some? then [Missing(2)] else []
  {
    hide Starts, HeadOf, PartialPlan, SchemaForms;
    if e.partial.Some? {
      PartialShows(c, HeadOf(c, d, env, e), e.partial.value);
    }
  }

  lemma PartialShows(c: Memory, pre: Nodes, e: PsviElement)
    ensures SchemaForms(PartialPlan(c, pre, e, None)) == SchemaForms(pre) + [Missing(2)]
  {
    hide PartialBody, Deeper;
    var body := PartialBody(c, e, None);
    NothingFormed(1);
    OneDeeper(Missing(0), 1);
    OneDeeper(Missing(1), 1);
    assert SchemaForms(Start.Group(PartialElementPSVI, body)) == [Missing(1)];
  }

  /**
   * In the lines for a document, schema information stands exactly where it should: one line for every element
   * and for every partial assessment, in this order and with this indent.
   */
  lemma DocumentForms(c: Memory, ids: map<Obj, string>, d: DocumentEvents)
    requires DocumentRuns(c, d)
    ensures LineForms(Render(0, ids, Expand(c, [], DocumentNodes(c, d))))
         == Deeper(ContentForms(true, d.content, |d.content|), 2)
  {
    hide LineForms, Render, Expand, ShowAll, AllRun, ContentForms, Deeper, AnyVisible, SchemaForms,
         DocumentStart;
    var f, inner := DocumentNodes(c, d), DocumentContent(c, d).nodes;
    RenderForms(0, ids, Expand(c, [], f));
    DeeperNone(SchemaForms(f));
    ExpandForms(c, [], f);
    NoForms();
    AllShow(c, true, Now(c, [], DocumentStart(d)), Shown(Start, EmptyEnv()), d.content, |d.content|);
    if !AnyVisible(d.content, |d.content|) {
      NothingShown(c, true, Now(c, [], DocumentStart(d)), Shown(Start, EmptyEnv()), d.content, |d.content|);
    }
    DocumentTreeForms(c, d, inner);
  }

  lemma DocumentTreeForms(c: Memory, d: DocumentEvents, inner: Nodes)
    requires inner == DocumentContent(c, d).nodes
    requires !AnyVisible(d.content, |d.content|) ==> inner == Start
    ensures SchemaForms(DocumentNodes(c, d)) == Deeper(SchemaForms(inner), 2)
  {
    hide DocumentContent, AnyVisible, Deeper, DocumentStart;
    StartForms(d);
    NothingFormed(1);
    NothingFormed(2);
    DeeperTwice(SchemaForms(inner), 1, 1);
    OneTreeForms(Branch(Document, Root, DocumentNodes(c, d).last.children));
  }

  lemma OneTreeForms(n: Node)
    ensures SchemaForms(More(Start, n)) == SchemaFormsNode(n)
  {
  }

  lemma StartForms(d: DocumentEvents)
    ensures SchemaForms(DocumentStart(d)) == []
  {
  }

  // -------------------------------------------------------------------------
  //  A single root
  // -------------------------------------------------------------------------

  /** The elements and partial assessments in the content. */
  function Assessments(x: Content): nat
    decreases x
  {
    if !x.Nested? then 0
    else
      1 + (if x.element.partial.Some? then 1 else 0) + AllAssessments(x.element.content, |x.element.content|)
  }

  function AllAssessments(content: seq<Content>, n: nat): nat
    requires n <= |content|
    decreases content, n
  {
    if n == 0 then 0 else AllAssessments(content, n - 1) + Assessments(content[n - 1])
  }

  predicate AllMissing(s: seq<SchemaForm>) { forall k :: 0 <= k < |s| ==> s[k].Missing? }

  /** One line each, and all of them missing but for the close of a root. */
  lemma {:induction false} ItemFormsOf(root: bool, x: Content)
    ensures var s := ItemForms(root, x);
            |s| == Assessments(x) &&
            (x.Nested? ==> AllMissing(s[..|s| - 1]) && s[|s| - 1].Given? == (root && x.element.close.model.Some?))
    decreases x
  {
    if x.Nested? {
      ContentFormsOf(x.element.content, |x.element.content|);
    }
  }

  lemma {:induction false} ContentFormsOf(content: seq<Content>, n: nat)
    requires n <= |content|
    ensures |ContentForms(false, content, n)| == AllAssessments(content, n)
    ensures AllMissing(ContentForms(false, content, n))
    decreases content, n
  {
    if n > 0 {
      ContentFormsOf(content, n - 1);
      ItemFormsOf(false, content[n - 1]);
      LastMissing(content[n - 1]);
    }
  }

  lemma LastMissing(x: Content)
    ensures x.Nested? ==> var s := ItemForms(false, x); s != [] && s[|s| - 1] == Missing(1)
  {
  }

  lemma {:induction false} OneRootForms(content: seq<Content>, k: nat, n: nat)
    requires k < |content| && n <= |content| && content[k].Nested?
    requires forall j :: 0 <= j < |content| && j != k ==> !content[j].Nested?
    ensures ContentForms(true, content, n) == if k < n then ItemForms(true, content[k]) else []
    decreases n
  {
    if n > 0 {
      OneRootForms(content, k, n - 1);
    }
  }

  /**
   * With one root element, the last schema information on the lines is the root's, at its close; it is given
   * if the parser reports a model. All others are missing: one for each other element and partial assessment.
   */
  lemma SchemaGivenOnce(c: Memory, ids: map<Obj, string>, d: DocumentEvents, k: nat)
    requires DocumentRuns(c, d)
    requires k < |d.content| && d.content[k].Nested?
    requires forall j :: 0 <= j < |d.content| && j != k ==> !d.content[j].Nested?
    ensures var s := LineForms(Render(0, ids, Expand(c, [], DocumentNodes(c, d))));
            && |s| == Assessments(d.content[k]) && |s| > 0 && AllMissing(s[..|s| - 1])
            && s[|s| - 1] == if d.content[k].element.close.model.Some? then Given(3) else Missing(3)
  {
    hide LineForms, Render, Expand, DocumentNodes, DocumentRuns, Deeper, Assessments;
    DocumentForms(c, ids, d);
    OneRootForms(d.content, k, |d.content|);
    ItemFormsOf(true, d.content[k]);
  }
}
