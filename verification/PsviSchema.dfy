/** The definitions a document asks for by itself: those of the schema models reported with its root elements. */
module PsviSchema {
  import opened Options
  import opened PsviOutput
  import opened PsviComponents
  import opened PsviPlans
  import opened PsviExpansion
  import opened PsviEvents
  import opened PsviDocument

  // -------------------------------------------------------------------------
  //  The definitions a schema model asks for
  // -------------------------------------------------------------------------

  function ItemListed(item: NamespaceItem): seq<Obj> {
    item.types + item.attributes + item.elements + item.attributeGroups + item.modelGroups + item.notations
  }

  /** The components listed by a model, without those of XML Schema itself. */
  function Listed(items: seq<NamespaceItem>, n: nat): seq<Obj>
    requires n <= |items|
  {
    if n == 0 then []
    else Listed(items, n - 1) + if items[n - 1].namespace == XML_SCHEMA_URI then [] else ItemListed(items[n - 1])
  }

  /** Each component followed by its identity constraints. */
  function WithConstraints(c: Memory, list: seq<Obj>): seq<Obj>
    decreases |list|
  {
    if list == [] then []
    else
      var last := list[|list| - 1];
      WithConstraints(c, list[..|list| - 1]) + ([last] + OwnConstraints(c, last))
  }

  lemma {:induction false} ConstraintsAppend(c: Memory, a: seq<Obj>, b: seq<Obj>)
    ensures WithConstraints(c, a + b) == WithConstraints(c, a) + WithConstraints(c, b)
    decreases |b|
  {
    if b == [] {
      assert a + b == a;
    } else {
      ConstraintsAppend(c, a, b[..|b| - 1]);
      ConstraintsStep(c, a, b);
    }
  }

  lemma ConstraintsStep(c: Memory, a: seq<Obj>, b: seq<Obj>)
    requires b != []
    requires WithConstraints(c, a + b[..|b| - 1]) == WithConstraints(c, a) + WithConstraints(c, b[..|b| - 1])
    ensures WithConstraints(c, a + b) == WithConstraints(c, a) + WithConstraints(c, b)
  {
    hide OwnConstraints, WithConstraints;
    var s, front := a + b, b[..|b| - 1];
    assert s[..|s| - 1] == a + front && s[|s| - 1] == b[|b| - 1];
    LastConstraints(c, s);
    LastConstraints(c, b);
    Reassociate(WithConstraints(c, a), WithConstraints(c, front), [b[|b| - 1]] + OwnConstraints(c, b[|b| - 1]));
  }

  lemma Reassociate(x: seq<Obj>, y: seq<Obj>, z: seq<Obj>)
    ensures (x + y) + z == x + (y + z)
  {
  }

  lemma LastConstraints(c: Memory, s: seq<Obj>)
    requires s != []
    ensures var last := s[|s| - 1];
            WithConstraints(c, s) == WithConstraints(c, s[..|s| - 1]) + ([last] + OwnConstraints(c, last))
  {
  }

  lemma {:induction false} DefinitionsFixed(c: Memory, pre: Nodes, list: seq<Obj>, n: nat)
    requires n <= |list|
    ensures Fixed(DefinitionNodes(c, pre, list, n)) == Fixed(pre) + WithConstraints(c, list[..n])
    decreases n
  {
    if n > 0 {
      DefinitionsFixed(c, pre, list, n - 1);
      DefinitionsStep(c, pre, list, n);
    }
  }

  lemma DefinitionsStep(c: Memory, pre: Nodes, list: seq<Obj>, n: nat)
    requires 0 < n <= |list|
    requires Fixed(DefinitionNodes(c, pre, list, n - 1)) == Fixed(pre) + WithConstraints(c, list[..n - 1])
    ensures Fixed(DefinitionNodes(c, pre, list, n)) == Fixed(pre) + WithConstraints(c, list[..n])
  {
    hide Contents, Quiet, CommentsFlat, Fixed, OwnConstraints;
    assert list[..n][..n - 1] == list[..n - 1] && list[..n][n - 1] == list[n - 1];
  }

  lemma AllDefinitionsFixed(c: Memory, pre: Nodes, list: seq<Obj>)
    ensures Fixed(AllDefinitions(c, pre, list)) == Fixed(pre) + WithConstraints(c, list)
  {
    DefinitionsFixed(c, pre, list, |list|);
    assert list[..|list|] == list;
  }

  lemma ComponentsFixed(c: Memory, item: NamespaceItem)
    ensures Fixed(ComponentsBody(c, item)) == WithConstraints(c, ItemListed(item))
  {
    hide AllDefinitions, WithConstraints, Fixed, Quiet, CommentsFlat;
    var typed := AllDefinitions(c, Start, item.types);
    var attributed := AllDefinitions(c, typed, item.attributes);
    var declared := AllDefinitions(c, attributed, item.elements);
    var grouped := AllDefinitions(c, declared, item.attributeGroups);
    AllDefinitionsFixed(c, Start, item.types);
    AllDefinitionsFixed(c, typed, item.attributes);
    AllDefinitionsFixed(c, attributed, item.elements);
    AllDefinitionsFixed(c, declared, item.attributeGroups);
    AllDefinitionsFixed(c, grouped, item.modelGroups);
    AllDefinitionsFixed(c, AllDefinitions(c, grouped, item.modelGroups), item.notations);
    ConstraintsAppend(c, item.types, item.attributes);
    ConstraintsAppend(c, item.types + item.attributes, item.elements);
    ConstraintsAppend(c, item.types + item.attributes + item.elements, item.attributeGroups);
    ConstraintsAppend(c, item.types + item.attributes + item.elements + item.attributeGroups, item.modelGroups);
    ConstraintsAppend(c, item.types + item.attributes + item.elements + item.attributeGroups + item.modelGroups,
                      item.notations);
    StartFixed();
  }

  lemma StartFixed()
    ensures Fixed(Start) == []
  {
  }

  lemma ItemFixed(c: Memory, item: NamespaceItem)
    ensures Fixed(NamespaceItemBody(c, item)) == WithConstraints(c, ItemListed(item))
  {
    hide ComponentsBody, WithConstraints, LocationNodes, SchemaAnnotationsPlan, Quiet, CommentsFlat;
    ComponentsFixed(c, item);
  }

  lemma ItemsFixed(c: Memory, items: seq<NamespaceItem>, n: nat)
    requires n <= |items|
    ensures Fixed(NamespaceItemNodes(c, items, n)) == WithConstraints(c, Listed(items, n))
  {
    hide NamespaceItemNodes, WithConstraints, Listed, Fixed, Quiet, CommentsFlat;
    NoItems(c, items);
    for i := 0 to n
      invariant Fixed(NamespaceItemNodes(c, items, i)) == WithConstraints(c, Listed(items, i))
    {
      ItemsStep(c, items, i + 1);
    }
  }

  lemma NoItems(c: Memory, items: seq<NamespaceItem>)
    ensures Fixed(NamespaceItemNodes(c, items, 0)) == WithConstraints(c, Listed(items, 0))
  {
  }

  lemma ItemsStep(c: Memory, items: seq<NamespaceItem>, n: nat)
    requires 0 < n <= |items|
    requires Fixed(NamespaceItemNodes(c, items, n - 1)) == WithConstraints(c, Listed(items, n - 1))
    ensures Fixed(NamespaceItemNodes(c, items, n)) == WithConstraints(c, Listed(items, n))
  {
    hide NamespaceItemBody, ItemListed, Quiet, CommentsFlat, Fixed, WithConstraints;
    ItemFixed(c, items[n - 1]);
    ConstraintsAppend(c, Listed(items, n - 1), ItemListed(items[n - 1]));
    assert Listed(items, n - 1) + [] == Listed(items, n - 1);
  }

  function ItemsOf(model: Option<seq<NamespaceItem>>): seq<NamespaceItem> {
    if model.None? then [] else model.value
  }

  lemma ModelFixed(c: Memory, pre: Nodes, model: Option<seq<NamespaceItem>>)
    ensures Fixed(SchemaInformationPlan(c, pre, model))
         == Fixed(pre) + WithConstraints(c, Listed(ItemsOf(model), |ItemsOf(model)|))
  {
    hide NamespaceItemNodes, Quiet, CommentsFlat;
    if model.Some? {
      ItemsFixed(c, model.value, |model.value|);
    }
  }

  // -------------------------------------------------------------------------
  //  The definitions of a document come from the models of its root elements
  // -------------------------------------------------------------------------

  /** The namespaces of the model shown with content; only a root element shows one. */
  function ModelItems(root: bool, x: Content): seq<NamespaceItem> {
    if root && x.Nested? then ItemsOf(x.element.close.model) else []
  }

  /** The namespaces of the models reported with the elements that stand directly in the document. */
  function RootItems(content: seq<Content>, n: nat): seq<NamespaceItem>
    requires n <= |content|
  {
    if n == 0 then []
    else RootItems(content, n - 1) + ModelItems(true, content[n - 1])
  }

  function DocumentListed(d: DocumentEvents): seq<Obj> {
    var items := RootItems(d.content, |d.content|);
    Listed(items, |items|)
  }

  lemma {:induction false} ListedAppend(a: seq<NamespaceItem>, b: seq<NamespaceItem>, n: nat)
    requires n <= |b|
    ensures Listed(a + b, |a| + n) == Listed(a, |a|) + Listed(b, n)
    decreases n
  {
    if n == 0 {
      ListedPrefix(a, b, |a|);
    } else {
      ListedAppend(a, b, n - 1);
      ListedStep(a, b, n);
    }
  }

  lemma ListedStep(a: seq<NamespaceItem>, b: seq<NamespaceItem>, n: nat)
    requires 0 < n <= |b| && Listed(a + b, |a| + n - 1) == Listed(a, |a|) + Listed(b, n - 1)
    ensures Listed(a + b, |a| + n) == Listed(a, |a|) + Listed(b, n)
  {
    hide ItemListed;
    assert (a + b)[|a| + n - 1] == b[n - 1];
  }

  lemma {:induction false} ListedPrefix(a: seq<NamespaceItem>, b: seq<NamespaceItem>, n: nat)
    requires n <= |a|
    ensures Listed(a + b, n) == Listed(a, n)
  {
    if n > 0 {
      ListedPrefix(a, b, n - 1);
    }
  }

  lemma StartsFixed(c: Memory, d: seq<Obj>, env: Env, e: ElementEvents)
    ensures Fixed(ElementStart(c, d, env, e)) == []
  {
    hide Quiet, CommentsFlat, HeadOf, Starts;
    if e.partial.Some? {
      PartialFixed(c, e.partial.value);
    }
  }

  lemma PartialFixed(c: Memory, p: PsviElement)
    ensures Fixed(PartialBody(c, p, None)) == []
  {
    hide Quiet, CommentsFlat;
    ModelFixed(c, Start, None);
  }

  lemma ElementFixed(c: Memory, root: bool, d: seq<Obj>, env: Env, e: ElementEvents, inner: Nodes)
    requires Fixed(inner) == []
    ensures Fixed(ElementNodes(c, root, d, env, e, inner))
         == if root then WithConstraints(c, Listed(ItemsOf(e.close.model), |ItemsOf(e.close.model)|)) else []
  {
    hide Quiet, CommentsFlat, ElementStart, AnyVisible, ActualValuePlan, ElementTail, WithConstraints, Listed,
         Fixed;
    var known := ElementStart(c, d, env, e);
    var level := if AnyVisible(e.content, |e.content|)
                 then known.Group(Children, ActualValuePlan(inner, e.close.actual))
                 else ActualValuePlan(known, e.close.actual).Blank(Children);
    StartsFixed(c, d, env, e);
    NothingListed(c);
    TailFixed(c, level, e.close, if root then e.close.model else None);
  }

  lemma NothingListed(c: Memory)
    ensures WithConstraints(c, Listed(ItemsOf(None), |ItemsOf(None)|)) == []
  {
  }

  lemma TailFixed(c: Memory, level: Nodes, close: PsviElement, model: Option<seq<NamespaceItem>>)
    requires Fixed(level) == []
    ensures Fixed(ElementTail(c, level, close, model)) == WithConstraints(c, Listed(ItemsOf(model), |ItemsOf(model)|))
  {
    hide Quiet, CommentsFlat, SchemaInformationPlan, ElementOutcome, ElementReferences, WithConstraints, Listed,
         Fixed;
    ModelFixed(c, level, model);
  }

  /** What is shown inside an element defines nothing by itself. */
  lemma {:induction false} InnerFixed(c: Memory, d: seq<Obj>, s: Shown, content: seq<Content>, n: nat)
    requires n <= |content|
    ensures Fixed(ShowAll(c, false, d, s, content, n).nodes) == Fixed(s.nodes)
    decreases content, n
  {
    hide ShowContent, Fixed;
    if n > 0 {
      InnerFixed(c, d, s, content, n - 1);
      ContentFixed(c, false, d, ShowAll(c, false, d, s, content, n - 1), content[n - 1]);
    }
  }

  lemma {:induction false} ContentFixed(c: Memory, root: bool, d: seq<Obj>, s: Shown, x: Content)
    ensures var items := ModelItems(root, x);
            Fixed(ShowContent(c, root, d, s, x).nodes) == Fixed(s.nodes) + WithConstraints(c, Listed(items, |items|))
    decreases x
  {
    hide ElementNodes, InsideDefined, Now, Quiet, CommentsFlat, WithConstraints, Listed;
    NothingListed(c);
    if x.Nested? {
      var e, before, env := x.element, Now(c, d, s.nodes), Entered(s.env, x.element);
      InnerFixed(c, InsideDefined(c, before, env, e), Shown(Start, env), e.content, |e.content|);
      StartFixed();
      ElementFixed(c, root, before, env, e, ShowInside(c, before, env, e).nodes);
    }
  }

  lemma {:induction false} RootsFixed(c: Memory, d: seq<Obj>, s: Shown, content: seq<Content>, n: nat)
    requires n <= |content| && Fixed(s.nodes) == []
    ensures var items := RootItems(content, n);
            Fixed(ShowAll(c, true, d, s, content, n).nodes) == WithConstraints(c, Listed(items, |items|))
    decreases n
  {
    if n > 0 {
      RootsFixed(c, d, s, content, n - 1);
      RootsStep(c, d, s, content, n);
    }
  }

  lemma RootsStep(c: Memory, d: seq<Obj>, s: Shown, content: seq<Content>, n: nat)
    requires 0 < n <= |content|
    requires var items := RootItems(content, n - 1);
             Fixed(ShowAll(c, true, d, s, content, n - 1).nodes) == WithConstraints(c, Listed(items, |items|))
    ensures var items := RootItems(content, n);
            Fixed(ShowAll(c, true, d, s, content, n).nodes) == WithConstraints(c, Listed(items, |items|))
  {
    hide ShowContent, Quiet, CommentsFlat, Fixed, WithConstraints, Listed, ItemsOf;
    ContentFixed(c, true, d, ShowAll(c, true, d, s, content, n - 1), content[n - 1]);
    var before, more := RootItems(content, n - 1), ModelItems(true, content[n - 1]);
    ListedAppend(before, more, |more|);
    ConstraintsAppend(c, Listed(before, |before|), Listed(more, |more|));
  }

  /** Elements below the root and partial assessments show no schema model, whatever the parser reports. */
  lemma DocumentFixed(c: Memory, d: DocumentEvents)
    ensures Fixed(DocumentNodes(c, d)) == WithConstraints(c, DocumentListed(d))
  {
    hide ShowAll, AnyVisible, Quiet, CommentsFlat, Fixed, WithConstraints, Listed, RootItems, Now;
    StartFixed();
    var before := Now(c, [], DocumentStart(d));
    RootsFixed(c, before, Shown(Start, EmptyEnv()), d.content, |d.content|);
    DocumentStartFixed(d);
    var children := DocumentNodes(c, d).last.children;
    OneTreeFixed(Branch(Document, Root, children));
    if !AnyVisible(d.content, |d.content|) {
      NothingShown(c, true, before, Shown(Start, EmptyEnv()), d.content, |d.content|);
    }
    assert Fixed(children) == Fixed(DocumentContent(c, d).nodes);
  }

  lemma DocumentStartFixed(d: DocumentEvents)
    ensures Fixed(DocumentStart(d)) == []
  {
  }

  lemma OneTreeFixed(n: Node)
    requires n.Branch?
    ensures Fixed(More(Start, n)) == HeadObj(n.head) + Fixed(n.children)
  {
  }
}
