/** The definitions shown describe their components: the parts that components share. */
module PsviPartsDescribed {
  import opened Options
  import opened Numerals
  import opened PsviOutput
  import opened PsviComponents
  import opened PsviPlans
  import opened PsviExpansion
  import opened PsviItems
  import opened PsviReports
  import opened PsviDescriptions
  import ReadBack = PsviReadBack
  import Reader = PsviReader

  /** One more child that may be missing. */
  function Maybe(f: Facts, tag: Tag, absent: bool, items: Items): Facts {
    if absent then f.Text(tag, "") else f.Part(tag, items)
  }

  /** A child keeps the texts of the others. */
  lemma KeepsText(f: Facts, tag: Tag, absent: bool, items: Items, x: Tag)
    requires x != tag
    ensures Maybe(f, tag, absent, items).Get(x) == f.Get(x)
  {
    if absent {} else {}
  }

  lemma KeepsTexts(f: Facts, tag: Tag, absent: bool, items: Items, a: Tag, b: Tag, x: Tag, y: Tag, z: Tag)
    requires a != tag && b != tag && x != tag && y != tag && z != tag
    ensures var g := Maybe(f, tag, absent, items);
            && g.Get(a) == f.Get(a) && g.Get(b) == f.Get(b) && g.Get(x) == f.Get(x) && g.Get(y) == f.Get(y)
            && g.Get(z) == f.Get(z)
  {
    hide Maybe, Facts.Get;
    KeepsText(f, tag, absent, items, a);
    KeepsText(f, tag, absent, items, b);
    KeepsText(f, tag, absent, items, x);
    KeepsText(f, tag, absent, items, y);
    KeepsText(f, tag, absent, items, z);
  }

  lemma KeepsPart(f: Facts, tag: Tag, absent: bool, items: Items, x: Tag)
    requires x != tag
    ensures var g := Maybe(f, tag, absent, items); g.Sub(x) == f.Sub(x) && (x in g.parts <==> x in f.parts)
  {
    if absent {} else {}
  }

  lemma FindsPart(f: Facts, tag: Tag, absent: bool, items: Items)
    requires tag !in f.parts && !tag.Annotation? && (absent ==> items == NO_ITEMS)
    ensures Maybe(f, tag, absent, items).Sub(tag) == items
  {
    if absent {} else {}
  }

  lemma KeepsParts(f: Facts, tag: Tag, absent: bool, items: Items, a: Tag, b: Tag, x: Tag, y: Tag)
    requires a != tag && b != tag && x != tag && y != tag
    ensures var g := Maybe(f, tag, absent, items);
            && g.Sub(a) == f.Sub(a) && g.Sub(b) == f.Sub(b) && g.Sub(x) == f.Sub(x) && g.Sub(y) == f.Sub(y)
            && (a in g.parts <==> a in f.parts) && (b in g.parts <==> b in f.parts)
            && (x in g.parts <==> x in f.parts) && (y in g.parts <==> y in f.parts)
  {
    hide Maybe, Facts.Sub;
    KeepsPart(f, tag, absent, items, a);
    KeepsPart(f, tag, absent, items, b);
    KeepsPart(f, tag, absent, items, x);
    KeepsPart(f, tag, absent, items, y);
  }

  lemma FactsOfItems(c: Memory, ids: Ids, d: seq<Obj>, f: Nodes)
    ensures FactsOf(View(c, ids, d, f)) == FactsIn(c, ids, d, f)
  {
  }

  lemma Nothing()
    ensures FactsOf(NO_ITEMS) == NO_FACTS && Kids(NO_ITEMS) == [] && LastReference(NO_ITEMS) == NoReference
  {
  }

  // -------------------------------------------------------------------------
  //  Attributes and elements in annotations
  // -------------------------------------------------------------------------

  lemma {:induction false} PickedMore(attrs: seq<DomAttr>, a: DomAttr, wanted: bool)
    ensures Picked(attrs + [a], wanted) == Picked(attrs, wanted) + if IsNamespaceDecl(a) == wanted then [a] else []
    decreases |attrs|
  {
    var s := attrs + [a];
    if attrs == [] {
      assert s[1..] == [];
    } else {
      assert s[1..] == attrs[1..] + [a];
      PickedMore(attrs[1..], a, wanted);
    }
  }

  lemma {:induction false} SelectPicks(attrs: seq<DomAttr>, n: nat, wanted: bool)
    requires n <= |attrs|
    ensures Select(attrs, n, wanted) == Picked(attrs[..n], wanted)
    decreases n
  {
    if n > 0 {
      SelectPicks(attrs, n - 1, wanted);
      PickedMore(attrs[..n - 1], attrs[n - 1], wanted);
      assert attrs[..n] == attrs[..n - 1] + [attrs[n - 1]];
    }
  }

  lemma DomAttrFacts(c: Memory, ids: Ids, d: seq<Obj>, a: DomAttr)
    ensures FactsIn(c, ids, d, DomAttrBody(a))
         == NO_FACTS.Text(NamespaceName, a.namespace).Text(LocalName, a.localName).Text(Prefix, a.prefix)
            .Text(NormalizedValue, a.value).Text(Specified, BoolText(a.specified)).Text(AttributeType, a.typeName)
            .Text(References, "")
  {
    hide FactsIn, Nodes.Val, Nodes.Absent, Facts.Text;
    var f1 := Start.Val(NamespaceName, a.namespace);
    var f2 := f1.Val(LocalName, a.localName);
    var f3 := f2.Val(Prefix, a.prefix);
    var f4 := f3.Val(NormalizedValue, a.value);
    var f5 := f4.Val(Specified, BoolText(a.specified));
    ViewStart(c, ids, d);
    OneVal(c, ids, d, Start, NamespaceName, a.namespace);
    OneVal(c, ids, d, f1, LocalName, a.localName);
    OneVal(c, ids, d, f2, Prefix, a.prefix);
    OneVal(c, ids, d, f3, NormalizedValue, a.value);
    OneVal(c, ids, d, f4, Specified, BoolText(a.specified));
    OneVal(c, ids, d, f5, AttributeType, a.typeName);
    OneNil(c, ids, d, f5.Val(AttributeType, a.typeName), References);
  }

  lemma DomAttrDescribed(c: Memory, ids: Ids, d: seq<Obj>, a: DomAttr)
    ensures DomAttrTold(a, Reader.Elem(Attribute, [], View(c, ids, d, DomAttrBody(a))))
  {
    hide View, FactsIn, DomAttrBody;
    FactsOfItems(c, ids, d, DomAttrBody(a));
    DomAttrFacts(c, ids, d, a);
  }

  lemma {:induction false} DomAttrsDescribed(c: Memory, ids: Ids, d: seq<Obj>, attrs: seq<DomAttr>)
    ensures DomAttrsTold(attrs, Kids(View(c, ids, d, DomAttrNodes(attrs))))
    decreases |attrs|
  {
    hide View, FactsIn, Kids, Now, DomAttrBody, DomAttrTold, Nodes.Group;
    if attrs == [] {
      ViewStart(c, ids, d);
    } else {
      var front, a := attrs[..|attrs| - 1], attrs[|attrs| - 1];
      DomAttrsDescribed(c, ids, d, front);
      OneGroup(c, ids, d, DomAttrNodes(front), Attribute, DomAttrBody(a));
      DomAttrDescribed(c, ids, Now(c, d, DomAttrNodes(front)), a);
    }
  }

  /** A group of attributes, or nothing. */
  function Group(f: Facts, tag: Tag, attrs: seq<DomAttr>, items: Items): Facts {
    if attrs == [] then f else f.Part(tag, items)
  }

  lemma AttrGroupFacts(c: Memory, ids: Ids, d: seq<Obj>, pre: Nodes, tag: Tag, attrs: seq<DomAttr>)
    returns (items: Items)
    ensures FactsIn(c, ids, d, AttrGroup(pre, tag, attrs)) == Group(FactsIn(c, ids, d, pre), tag, attrs, items)
    ensures DomAttrsTold(attrs, Kids(items)) && (attrs == [] ==> items == NO_ITEMS)
  {
    hide View, FactsIn, Kids, Now, DomAttrNodes, DomAttrTold, Nodes.Group, Nodes.Blank;
    Nothing();
    if attrs == [] {
      OneBare(c, ids, d, pre, tag);
      items := NO_ITEMS;
    } else {
      OneGroup(c, ids, d, pre, tag, DomAttrNodes(attrs));
      items := View(c, ids, Now(c, d, pre), DomAttrNodes(attrs));
      DomAttrsDescribed(c, ids, Now(c, d, pre), attrs);
    }
  }

  lemma GroupsTold(f: Facts, attrs: seq<DomAttr>, plain: seq<DomAttr>, declared: seq<DomAttr>, first: Items,
                   second: Items)
    requires plain == Picked(attrs, false) && declared == Picked(attrs, true)
    requires DomAttrsTold(plain, Kids(first)) && (plain == [] ==> first == NO_ITEMS)
    requires DomAttrsTold(declared, Kids(second)) && (declared == [] ==> second == NO_ITEMS)
    requires Attributes !in f.parts && NamespaceAttributes !in f.parts
    ensures var g := Group(Group(f, Attributes, plain, first), NamespaceAttributes, declared, second);
            && AttributesTold(attrs, g) && g == f.(parts := g.parts) && g.Sub(Children) == f.Sub(Children)
            && g.Sub(ApplicationInformation) == f.Sub(ApplicationInformation)
            && g.Sub(UserInformation) == f.Sub(UserInformation)
  {
    hide DomAttrsTold, Kids, Picked;
  }

  /** The attributes of an annotation, or of an element in it. */
  lemma DomAttributesTold(c: Memory, ids: Ids, d: seq<Obj>, pre: Nodes, attrs: seq<DomAttr>)
    requires Attributes !in FactsIn(c, ids, d, pre).parts && NamespaceAttributes !in FactsIn(c, ids, d, pre).parts
    ensures var f, g := FactsIn(c, ids, d, pre), FactsIn(c, ids, d, DomAttributes(pre, attrs));
            && AttributesTold(attrs, g) && g == f.(parts := g.parts) && g.Sub(Children) == f.Sub(Children)
            && g.Sub(ApplicationInformation) == f.Sub(ApplicationInformation)
            && g.Sub(UserInformation) == f.Sub(UserInformation)
  {
    hide View, Now, Kids, AttrGroup, Select, NamespaceIndices, AttributesTold, Group, DomAttrsTold, Nodes.Marked,
         Expand;
    var plain, declared := Select(attrs, |attrs|, false), Select(attrs, |attrs|, true);
    var one := AttrGroup(pre, Attributes, plain);
    var two := AttrGroup(one, NamespaceAttributes, declared);
    assert attrs[..|attrs|] == attrs;
    SelectPicks(attrs, |attrs|, false);
    SelectPicks(attrs, |attrs|, true);
    var first := AttrGroupFacts(c, ids, d, pre, Attributes, plain);
    var second := AttrGroupFacts(c, ids, d, one, NamespaceAttributes, declared);
    OneMark(c, ids, d, two, NamespaceIndices(attrs, |attrs|));
    GroupsTold(FactsIn(c, ids, d, pre), attrs, plain, declared, first, second);
  }

  lemma DomElementStartFacts(c: Memory, ids: Ids, d: seq<Obj>, e: DomElement) returns (items: Items)
    ensures FactsIn(c, ids, d, Start.Val(NamespaceName, e.namespace).Val(LocalName, e.localName).Val(Prefix, e.prefix)
                               .Group(Children, Start.Group(Character, Start.Val(TextContent, e.text))))
         == NO_FACTS.Text(NamespaceName, e.namespace).Text(LocalName, e.localName).Text(Prefix, e.prefix)
            .Part(Children, items)
    ensures FactsOf(FactsOf(items).Sub(Character)).Get(TextContent) == e.text
  {
    hide View, FactsIn, Now, Nodes.Val, Nodes.Group, FactsOf;
    var f1 := Start.Val(NamespaceName, e.namespace);
    var f2 := f1.Val(LocalName, e.localName);
    var f3 := f2.Val(Prefix, e.prefix);
    var text := Start.Val(TextContent, e.text);
    ViewStart(c, ids, d);
    OneVal(c, ids, d, Start, NamespaceName, e.namespace);
    OneVal(c, ids, d, f1, LocalName, e.localName);
    OneVal(c, ids, d, f2, Prefix, e.prefix);
    OneGroup(c, ids, d, f3, Children, Start.Group(Character, text));
    var d1 := Now(c, d, f3);
    items := View(c, ids, d1, Start.Group(Character, text));
    FactsOfItems(c, ids, d1, Start.Group(Character, text));
    ViewStart(c, ids, d1);
    OneGroup(c, ids, d1, Start, Character, text);
    var d2 := Now(c, d1, Start);
    FactsOfItems(c, ids, d2, text);
    OneVal(c, ids, d2, Start, TextContent, e.text);
  }

  lemma DomElementDescribed(c: Memory, ids: Ids, d: seq<Obj>, e: DomElement)
    ensures DomElementTold(e, Reader.Elem(Element, [], View(c, ids, d, DomElementBody(e))))
  {
    hide View, FactsIn, DomAttributes, AttributesTold, Nodes.Val, Nodes.Group, FactsOf;
    var pre := Start.Val(NamespaceName, e.namespace).Val(LocalName, e.localName).Val(Prefix, e.prefix)
               .Group(Children, Start.Group(Character, Start.Val(TextContent, e.text)));
    var items := DomElementStartFacts(c, ids, d, e);
    DomAttributesTold(c, ids, d, pre, e.attrs);
    FactsOfItems(c, ids, d, DomElementBody(e));
  }

  lemma {:induction false} DomElementsDescribed(c: Memory, ids: Ids, d: seq<Obj>, elems: seq<DomElement>, n: nat)
    requires n <= |elems|
    ensures DomElementsTold(elems[..n], Kids(View(c, ids, d, DomElementNodes(elems, n))))
    decreases n
  {
    hide View, FactsIn, Kids, Now, DomElementBody, DomElementTold, Nodes.Group;
    if n == 0 {
      ViewStart(c, ids, d);
    } else {
      DomElementsDescribed(c, ids, d, elems, n - 1);
      OneGroup(c, ids, d, DomElementNodes(elems, n - 1), Element, DomElementBody(elems[n - 1]));
      DomElementDescribed(c, ids, Now(c, d, DomElementNodes(elems, n - 1)), elems[n - 1]);
    }
  }

  lemma DomElementsFacts(c: Memory, ids: Ids, d: seq<Obj>, pre: Nodes, tag: Tag, elems: seq<DomElement>)
    returns (items: Items)
    ensures FactsIn(c, ids, d, DomElements(pre, tag, elems)) == Maybe(FactsIn(c, ids, d, pre), tag, elems == [], items)
    ensures DomElementsTold(elems, Kids(items)) && (elems == [] ==> items == NO_ITEMS)
  {
    hide View, FactsIn, Kids, Now, DomElementNodes, DomElementTold, Nodes.Group, Nodes.Absent;
    Nothing();
    if elems == [] {
      OneNil(c, ids, d, pre, tag);
      items := NO_ITEMS;
    } else {
      OneGroup(c, ids, d, pre, tag, DomElementNodes(elems, |elems|));
      items := View(c, ids, Now(c, d, pre), DomElementNodes(elems, |elems|));
      DomElementsDescribed(c, ids, Now(c, d, pre), elems, |elems|);
      assert elems[..|elems|] == elems;
    }
  }

  // -------------------------------------------------------------------------
  //  Annotations
  // -------------------------------------------------------------------------

  lemma InformationTold(apps: seq<DomElement>, docs: seq<DomElement>, first: Items, second: Items)
    requires (apps == [] ==> first == NO_ITEMS) && (docs == [] ==> second == NO_ITEMS)
    ensures var f := Maybe(Maybe(NO_FACTS, ApplicationInformation, apps == [], first), UserInformation, docs == [],
                           second);
            && f.Sub(ApplicationInformation) == first && f.Sub(UserInformation) == second
            && Attributes !in f.parts && NamespaceAttributes !in f.parts
  {
  }

  lemma AnnotationDescribed(c: Memory, ids: Ids, d: seq<Obj>, a: Annotation)
    requires a.Annotation?
    ensures OneAnnotationTold(a, View(c, ids, d, AnnotationBody(a)))
  {
    hide View, FactsIn, Kids, DomAttributes, DomElements, AttributesTold, DomElementsTold, Maybe, FactsOf;
    var apps := DomElements(Start, ApplicationInformation, a.appInfos);
    var docs := DomElements(apps, UserInformation, a.documentations);
    ViewStart(c, ids, d);
    var first := DomElementsFacts(c, ids, d, Start, ApplicationInformation, a.appInfos);
    var second := DomElementsFacts(c, ids, d, apps, UserInformation, a.documentations);
    InformationTold(a.appInfos, a.documentations, first, second);
    DomAttributesTold(c, ids, d, docs, a.attrs);
    FactsOfItems(c, ids, d, AnnotationBody(a));
  }

  /** More annotations. */
  function Noted(f: Facts, list: seq<Items>): Facts { f.(annotations := f.annotations + list) }

  lemma AnnotationsJoined(a: seq<Annotation>, b: seq<Annotation>, x: seq<Items>, y: seq<Items>)
    requires forall i :: 0 <= i < |a| ==> a[i].Annotation?
    requires forall i :: 0 <= i < |b| ==> b[i].Annotation?
    requires AnnotationsTold(a, x) && AnnotationsTold(b, y)
    ensures forall i :: 0 <= i < |a + b| ==> (a + b)[i].Annotation?
    ensures AnnotationsTold(a + b, x + y)
  {
    hide OneAnnotationTold;
  }

  lemma {:induction false} ChainFacts(c: Memory, ids: Ids, d: seq<Obj>, pre: Nodes, a: Annotation)
    returns (list: seq<Items>)
    ensures FactsIn(c, ids, d, AnnotationChain(pre, a)) == Noted(FactsIn(c, ids, d, pre), list)
    ensures AnnotationsTold(Chained(a), list)
    decreases a
  {
    hide View, FactsIn, Now, OneAnnotationTold, AnnotationBody, Nodes.Group;
    if a.NoAnnotation? {
      list := [];
      assert Noted(FactsIn(c, ids, d, pre), []) == FactsIn(c, ids, d, pre);
    } else {
      var one := View(c, ids, Now(c, d, pre), AnnotationBody(a));
      OneGroup(c, ids, d, pre, Tag.Annotation, AnnotationBody(a));
      AnnotationDescribed(c, ids, Now(c, d, pre), a);
      var rest := ChainFacts(c, ids, d, pre.Group(Tag.Annotation, AnnotationBody(a)), a.next);
      list := [one] + rest;
      AnnotationsJoined([a], Chained(a.next), [one], rest);
      NotedTwice(FactsIn(c, ids, d, pre), one, rest);
    }
  }

  lemma NotedTwice(f: Facts, one: Items, rest: seq<Items>)
    ensures Noted(f.Part(Tag.Annotation, one), rest) == Noted(f, [one] + rest)
  {
    assert f.annotations + [one] + rest == f.annotations + ([one] + rest);
  }

  function MaybeNoted(f: Facts, a: Annotation, list: seq<Items>): Facts {
    if a.NoAnnotation? then f.Text(Tag.Annotation, "") else Noted(f, list)
  }

  lemma AnnotationFacts(c: Memory, ids: Ids, d: seq<Obj>, pre: Nodes, a: Annotation) returns (list: seq<Items>)
    ensures FactsIn(c, ids, d, AnnotationPlan(pre, a)) == MaybeNoted(FactsIn(c, ids, d, pre), a, list)
    ensures AnnotationsTold(Chained(a), list)
  {
    hide FactsIn, AnnotationChain, OneAnnotationTold, Nodes.Absent;
    if a.NoAnnotation? {
      list := [];
      OneNil(c, ids, d, pre, Tag.Annotation);
    } else {
      list := ChainFacts(c, ids, d, pre, a);
    }
  }

  /** What is told behind facts without annotations. */
  lemma AnnotationsLast(f: Facts, a: Annotation, list: seq<Items>)
    requires f.annotations == [] && AnnotationsTold(Chained(a), list)
    ensures var g := MaybeNoted(f, a, list);
            && AnnotationsTold(Chained(a), g.annotations) && g.parts == f.parts && g.refs == f.refs
            && g.texts == if a.NoAnnotation? then f.texts[Tag.Annotation := ""] else f.texts
  {
    hide OneAnnotationTold;
    assert [] + list == list;
  }

  lemma {:induction false} AllChainedMore(list: seq<Annotation>, a: Annotation)
    ensures AllChained(list + [a]) == AllChained(list) + Chained(a)
    decreases |list|
  {
    var s := list + [a];
    if list == [] {
      assert s[1..] == [];
    } else {
      assert s[1..] == list[1..] + [a];
      AllChainedMore(list[1..], a);
    }
  }

  lemma {:induction false} AnnotationListDescribed(c: Memory, ids: Ids, d: seq<Obj>, list: seq<Annotation>, n: nat)
    requires n <= |list|
    ensures AnnotationsTold(AllChained(list[..n]), FactsIn(c, ids, d, AnnotationNodes(list, n)).annotations)
    decreases n
  {
    hide FactsIn, AnnotationPlan, OneAnnotationTold;
    if n == 0 {
      ViewStart(c, ids, d);
    } else {
      AnnotationListDescribed(c, ids, d, list, n - 1);
      var more := AnnotationFacts(c, ids, d, AnnotationNodes(list, n - 1), list[n - 1]);
      AllChainedMore(list[..n - 1], list[n - 1]);
      assert list[..n] == list[..n - 1] + [list[n - 1]];
      AnnotationsJoined(AllChained(list[..n - 1]), Chained(list[n - 1]),
                        FactsIn(c, ids, d, AnnotationNodes(list, n - 1)).annotations, more);
      MoreNoted(FactsIn(c, ids, d, AnnotationNodes(list, n - 1)), list[n - 1], more);
    }
  }

  lemma MoreNoted(f: Facts, a: Annotation, list: seq<Items>)
    requires a.NoAnnotation? ==> list == []
    ensures MaybeNoted(f, a, list).annotations == f.annotations + list
  {
    assert f.annotations + [] == f.annotations;
  }

  lemma AnnotationListFacts(c: Memory, ids: Ids, d: seq<Obj>, pre: Nodes, list: Option<seq<Annotation>>)
    returns (items: Items)
    ensures FactsIn(c, ids, d, AnnotationsPlan(pre, list))
            == Maybe(FactsIn(c, ids, d, pre), Annotations, list.None?, items)
    ensures AnnotationListTold(list, items) && (list.None? ==> items == NO_ITEMS)
  {
    hide View, FactsIn, Now, AnnotationNodes, AnnotationsTold, Nodes.Group, Nodes.Absent;
    Nothing();
    if list.None? {
      OneNil(c, ids, d, pre, Annotations);
      items := NO_ITEMS;
      NoneTold();
    } else {
      var d1 := Now(c, d, pre);
      OneGroup(c, ids, d, pre, Annotations, AnnotationNodes(list.value, |list.value|));
      items := View(c, ids, d1, AnnotationNodes(list.value, |list.value|));
      FactsOfItems(c, ids, d1, AnnotationNodes(list.value, |list.value|));
      AnnotationListDescribed(c, ids, d1, list.value, |list.value|);
      assert list.value[..|list.value|] == list.value;
    }
  }

  lemma NoneTold()
    ensures AnnotationsTold([], [])
  {
  }

  // -------------------------------------------------------------------------
  //  Value constraints, scopes and wildcards
  // -------------------------------------------------------------------------

  lemma ConstraintFacts(c: Memory, ids: Ids, d: seq<Obj>, pre: Nodes, v: ValueConstraint) returns (items: Items)
    ensures FactsIn(c, ids, d, ValueConstraintPlan(pre, v))
         == Maybe(FactsIn(c, ids, d, pre), Tag.ValueConstraint, v.Unconstrained?, items)
    ensures ConstraintTold(v, items) && (v.Unconstrained? ==> items == NO_ITEMS)
  {
    hide View, FactsIn, Now, Nodes.Val, Nodes.Group, Nodes.Absent, FactsOf;
    if v.Unconstrained? {
      OneNil(c, ids, d, pre, Tag.ValueConstraint);
      items := NO_ITEMS;
    } else {
      var d1, body := Now(c, d, pre), ConstraintValueBody(v.kind, v.value);
      OneGroup(c, ids, d, pre, Tag.ValueConstraint, body);
      items := View(c, ids, d1, body);
      FactsOfItems(c, ids, d1, body);
      OneVal(c, ids, d1, Start, Variety, v.kind);
      OneVal(c, ids, d1, Start.Val(Variety, v.kind), FacetValue, v.value);
    }
  }

  function Scoped(f: Facts, scope: ScopeKind, items: Items): Facts {
    match scope
    case ScopeAbsent => f.Text(Scope, "")
    case ScopeLocal => f.Part(Scope, items)
    case ScopeGlobal => f.Text(Scope, "global")
  }

  lemma ScopeFacts(c: Memory, ids: Ids, d: seq<Obj>, pre: Nodes, enclosing: Option<Obj>, scope: ScopeKind)
    returns (items: Items)
    ensures FactsIn(c, ids, d, ScopePlan(pre, enclosing, scope)) == Scoped(FactsIn(c, ids, d, pre), scope, items)
    ensures FactsOf(items).RefAt(ComplexTypeDefinition) == DeclNamed(ids, ComplexTypeDefinition, enclosing)
  {
    hide View, FactsIn, Now, Nodes.Val, Nodes.Group, Nodes.Absent, Nodes.Ref, FactsOf;
    var d1, body := Now(c, d, pre), Start.Ref(ComplexTypeDefinition, enclosing);
    items := View(c, ids, d1, body);
    FactsOfItems(c, ids, d1, body);
    ViewStart(c, ids, d1);
    ReadBack.RefFacts(c, ids, d1, Start, ComplexTypeDefinition, enclosing);
    match scope
    case ScopeAbsent => OneNil(c, ids, d, pre, Scope);
    case ScopeLocal => OneGroup(c, ids, d, pre, Scope, body);
    case ScopeGlobal => OneVal(c, ids, d, pre, Scope, "global");
  }

  lemma {:induction false} MoreSpaces(values: seq<string>, v: string)
    ensures WithSpaces(values + [v]) == WithSpaces(values) + v + " "
    decreases |values|
  {
    var s := values + [v];
    if values == [] {
      assert s[1..] == [];
    } else {
      assert s[1..] == values[1..] + [v];
      MoreSpaces(values[1..], v);
    }
  }

  lemma {:induction false} SpacedText(values: seq<string>, n: nat)
    requires n <= |values|
    ensures Spaced(values, n) == WithSpaces(values[..n])
    decreases n
  {
    if n > 0 {
      SpacedText(values, n - 1);
      MoreSpaces(values[..n - 1], values[n - 1]);
      assert values[..n] == values[..n - 1] + [values[n - 1]];
    }
  }

  lemma ListFacts(c: Memory, ids: Ids, d: seq<Obj>, pre: Nodes, tag: Tag, values: Option<seq<string>>)
    ensures FactsIn(c, ids, d, pre.List(tag, values)) == FactsIn(c, ids, d, pre).Text(tag, ListText(values))
  {
    hide FactsIn, Nodes.Val, WithSpaces, Spaced;
    if values.None? {
      OneNil(c, ids, d, pre, tag);
    } else {
      SpacedText(values.value, |values.value|);
      assert values.value[..|values.value|] == values.value;
      OneText(c, ids, d, pre, tag, Spaced(values.value, |values.value|));
    }
  }

  lemma NamespacesDescribed(c: Memory, ids: Ids, d: seq<Obj>, k: NamespaceConstraint)
    ensures NamespacesTold(k, FactsOf(View(c, ids, d, ConstraintBody(k))))
  {
    hide View, FactsIn, Nodes.Val, Nodes.Absent, Nodes.List, ListText;
    FactsOfItems(c, ids, d, ConstraintBody(k));
    OneVal(c, ids, d, Start, Variety, "any");
    OneVal(c, ids, d, Start, Variety, "not");
    OneNil(c, ids, d, Start, Variety);
    match k
    case AnyNamespace => OneNil(c, ids, d, Start.Val(Variety, "any"), Namespaces);
    case DerivationList(namespaces) => ListFacts(c, ids, d, Start.Absent(Variety), Namespaces, namespaces);
    case NotNamespace(namespaces) => ListFacts(c, ids, d, Start.Val(Variety, "not"), Namespaces, namespaces);
  }

  lemma WildcardBodyFacts(c: Memory, ids: Ids, d: seq<Obj>, w: Wildcard) returns (namespaces: Items, list: seq<Items>)
    requires w.Wildcard?
    ensures FactsIn(c, ids, d, WildcardBody(w))
         == MaybeNoted(NO_FACTS.Part(Tag.NamespaceConstraint, namespaces).Text(ProcessContents, w.processContents),
                       w.annotation, list)
    ensures NamespacesTold(w.constraint, FactsOf(namespaces)) && AnnotationsTold(Chained(w.annotation), list)
  {
    hide View, FactsIn, Now, ConstraintBody, AnnotationPlan, Nodes.Val, Nodes.Group, AnnotationsTold, MaybeNoted,
         FactsOf;
    var f1 := Start.Group(Tag.NamespaceConstraint, ConstraintBody(w.constraint));
    ViewStart(c, ids, d);
    OneGroup(c, ids, d, Start, Tag.NamespaceConstraint, ConstraintBody(w.constraint));
    namespaces := View(c, ids, Now(c, d, Start), ConstraintBody(w.constraint));
    NamespacesDescribed(c, ids, Now(c, d, Start), w.constraint);
    OneVal(c, ids, d, f1, ProcessContents, w.processContents);
    list := AnnotationFacts(c, ids, d, f1.Val(ProcessContents, w.processContents), w.annotation);
  }

  lemma WildcardDescribed(c: Memory, ids: Ids, d: seq<Obj>, w: Wildcard)
    requires w.Wildcard?
    ensures WildcardTold(w, View(c, ids, d, WildcardBody(w)))
  {
    hide View, FactsIn, WildcardBody, AnnotationsTold, NamespacesTold, MaybeNoted, FactsOf;
    var namespaces, list := WildcardBodyFacts(c, ids, d, w);
    FactsOfItems(c, ids, d, WildcardBody(w));
    AnnotationsLast(NO_FACTS.Part(Tag.NamespaceConstraint, namespaces).Text(ProcessContents, w.processContents),
                    w.annotation, list);
  }

  lemma WildcardFacts(c: Memory, ids: Ids, d: seq<Obj>, pre: Nodes, w: Wildcard) returns (items: Items)
    ensures FactsIn(c, ids, d, WildcardPlan(pre, w))
            == Maybe(FactsIn(c, ids, d, pre), Tag.Wildcard, w.NoWildcard?, items)
    ensures WildcardTold(w, items) && (w.NoWildcard? ==> items == NO_ITEMS)
  {
    hide View, FactsIn, Now, WildcardBody, Nodes.Group, Nodes.Absent, FactsOf;
    if w.NoWildcard? {
      OneNil(c, ids, d, pre, Tag.Wildcard);
      items := NO_ITEMS;
    } else {
      OneGroup(c, ids, d, pre, Tag.Wildcard, WildcardBody(w));
      items := View(c, ids, Now(c, d, pre), WildcardBody(w));
      WildcardDescribed(c, ids, Now(c, d, pre), w);
    }
  }

  lemma AttributeWildcardFacts(c: Memory, ids: Ids, d: seq<Obj>, pre: Nodes, w: Wildcard) returns (items: Items)
    ensures FactsIn(c, ids, d, AttributeWildcardPlan(pre, w))
         == Maybe(FactsIn(c, ids, d, pre), AttributeWildcard, w.NoWildcard?, items)
    ensures WildcardTold(w, FactsOf(items).Sub(Tag.Wildcard)) && (w.NoWildcard? ==> items == NO_ITEMS)
  {
    hide View, FactsIn, Now, WildcardPlan, Nodes.Group, Nodes.Absent, FactsOf, WildcardTold;
    Nothing();
    if w.NoWildcard? {
      OneNil(c, ids, d, pre, AttributeWildcard);
      items := NO_ITEMS;
      NoWildcardTold(w);
    } else {
      var d1 := Now(c, d, pre);
      OneGroup(c, ids, d, pre, AttributeWildcard, WildcardPlan(Start, w));
      items := View(c, ids, d1, WildcardPlan(Start, w));
      FactsOfItems(c, ids, d1, WildcardPlan(Start, w));
      ViewStart(c, ids, d1);
      var inner := WildcardFacts(c, ids, d1, Start, w);
    }
  }

  lemma NoWildcardTold(w: Wildcard)
    requires w.NoWildcard?
    ensures WildcardTold(w, NO_ITEMS)
  {
  }

  // -------------------------------------------------------------------------
  //  Declarations in place
  // -------------------------------------------------------------------------

  /** A declaration in place, defined there or referred to, or missing. */
  function Declared(f: Facts, tag: Tag, o: Option<Obj>, id: string, items: Option<Items>): Facts {
    if o.None? then f.Text(tag, "") else (if items.None? then f else f.Part(tag, items.value)).Named(tag, id)
  }

  lemma DeclFacts(c: Memory, ids: Ids, d: seq<Obj>, pre: Nodes, tag: Tag, o: Option<Obj>) returns (items: Option<Items>)
    requires o.Some? ==> TagOf(c, o.value) == tag
    ensures FactsIn(c, ids, d, DeclHere(pre, tag, o))
         == Declared(FactsIn(c, ids, d, pre), tag, o, if o.None? then "" else IdOf(ids, o.value), items)
  {
    hide View, FactsIn, Now, Nodes.Here, Nodes.Absent, TagOf, Contents, IsLocal;
    if o.None? {
      OneNil(c, ids, d, pre, tag);
      items := None;
    } else {
      var d1 := Now(c, d, pre);
      OneHere(c, ids, d, pre, o.value);
      items := if IsLocal(c, o.value) && o.value !in d1 then Some(View(c, ids, d1 + [o.value], Contents(c, o.value)))
               else None;
    }
  }

  /** What is told of the use of an attribute, from its facts. */
  lemma UseFound(ids: Ids, u: AttributeUse, items: Option<Items>, value: Items)
    requires u.constraint.Unconstrained? ==> value == NO_ITEMS
    ensures var id := if u.declaration.None? then "" else IdOf(ids, u.declaration.value);
            var f := Maybe(Declared(NO_FACTS.Text(Required, BoolText(u.required)), AttributeDeclaration, u.declaration,
                                    id, items), Tag.ValueConstraint, u.constraint.Unconstrained?, value);
            && f.Get(Required) == YesNo(u.required)
            && f.RefAt(AttributeDeclaration) == DeclNamed(ids, AttributeDeclaration, u.declaration)
            && f.Sub(Tag.ValueConstraint) == value
  {
  }

  lemma AttributeUseDescribed(c: Memory, ids: Ids, d: seq<Obj>, u: AttributeUse)
    requires AttributeLink(c, u.declaration)
    ensures AttributeUseTold(ids, u, Reader.Elem(Tag.AttributeUse, [], View(c, ids, d, AttributeUseBody(u))))
  {
    hide View, FactsIn, DeclHere, ValueConstraintPlan, Nodes.Val, ConstraintTold, FactsOf, Maybe, Declared, Facts.Text,
         Facts.Get, Facts.RefAt, Facts.Sub, BoolText, YesNo;
    var f1 := Start.Val(Required, BoolText(u.required));
    ViewStart(c, ids, d);
    OneVal(c, ids, d, Start, Required, BoolText(u.required));
    var items := DeclFacts(c, ids, d, f1, AttributeDeclaration, u.declaration);
    var value := ConstraintFacts(c, ids, d, DeclHere(f1, AttributeDeclaration, u.declaration), u.constraint);
    FactsOfItems(c, ids, d, AttributeUseBody(u));
    UseFound(ids, u, items, value);
  }

  lemma {:induction false} UsesDescribed(c: Memory, ids: Ids, d: seq<Obj>, uses: seq<AttributeUse>, n: nat)
    requires n <= |uses| && UsesLinked(c, Some(uses))
    ensures UsesTold(ids, Some(uses[..n]), Kids(View(c, ids, d, AttributeUseNodes(uses, n))))
    decreases n
  {
    hide View, FactsIn, Kids, Now, AttributeUseBody, AttributeUseTold, Nodes.Group;
    if n == 0 {
      ViewStart(c, ids, d);
    } else {
      UsesDescribed(c, ids, d, uses, n - 1);
      OneGroup(c, ids, d, AttributeUseNodes(uses, n - 1), Tag.AttributeUse, AttributeUseBody(uses[n - 1]));
      AttributeUseDescribed(c, ids, Now(c, d, AttributeUseNodes(uses, n - 1)), uses[n - 1]);
    }
  }

  lemma UsesFacts(c: Memory, ids: Ids, d: seq<Obj>, pre: Nodes, uses: Option<seq<AttributeUse>>) returns (items: Items)
    requires UsesLinked(c, uses)
    ensures FactsIn(c, ids, d, AttributeUsesPlan(pre, uses))
         == Maybe(FactsIn(c, ids, d, pre), Tag.AttributeUses, uses.None?, items)
    ensures UsesTold(ids, uses, Kids(items)) && (uses.None? ==> items == NO_ITEMS)
  {
    hide View, FactsIn, Kids, Now, AttributeUseNodes, AttributeUseTold, Nodes.Group, Nodes.Absent;
    Nothing();
    if uses.None? {
      OneNil(c, ids, d, pre, Tag.AttributeUses);
      items := NO_ITEMS;
    } else {
      var list := uses.value;
      OneGroup(c, ids, d, pre, Tag.AttributeUses, AttributeUseNodes(list, |list|));
      items := View(c, ids, Now(c, d, pre), AttributeUseNodes(list, |list|));
      UsesDescribed(c, ids, Now(c, d, pre), list, |list|);
      assert list[..|list|] == list && Some(list) == uses;
    }
  }

  // -------------------------------------------------------------------------
  //  Particles
  // -------------------------------------------------------------------------

  lemma ParticleBodyFacts(c: Memory, ids: Ids, d: seq<Obj>, p: Particle) returns (d1: seq<Obj>)
    requires p.Particle?
    ensures FactsIn(c, ids, d, ParticleBody(p))
         == NO_FACTS.Text(MinOccurs, Decimal(p.minOccurs))
            .Text(MaxOccurs, if p.maxOccurs.None? then "unbounded" else Decimal(p.maxOccurs.value))
            .Part(Tag.Term, View(c, ids, d1, TermBody(p.term)))
  {
    hide View, FactsIn, Now, TermBody, Nodes.Val, Nodes.Group, Decimal;
    var f1 := Start.Int(MinOccurs, p.minOccurs);
    var f2 := MaxOccursPlan(f1, p.maxOccurs);
    ViewStart(c, ids, d);
    OneText(c, ids, d, Start, MinOccurs, Decimal(p.minOccurs));
    if p.maxOccurs.None? {
      OneVal(c, ids, d, f1, MaxOccurs, "unbounded");
    } else {
      OneText(c, ids, d, f1, MaxOccurs, Decimal(p.maxOccurs.value));
    }
    OneGroup(c, ids, d, f2, Tag.Term, TermBody(p.term));
    d1 := Now(c, d, f2);
  }

  lemma {:induction false} ParticleDescribed(c: Memory, ids: Ids, d: seq<Obj>, p: Particle)
    requires p.Particle? && ParticleLinked(c, p)
    ensures ParticleTold(ids, p, View(c, ids, d, ParticleBody(p)))
    decreases p, 0
  {
    hide View, FactsIn, ParticleBody, TermBody, Decimal, TermTold, FactsOf;
    var d1 := ParticleBodyFacts(c, ids, d, p);
    FactsOfItems(c, ids, d, ParticleBody(p));
    TermDescribed(c, ids, d1, p.term);
  }

  lemma {:induction false} TermDescribed(c: Memory, ids: Ids, d: seq<Obj>, t: Term)
    requires TermLinked(c, t)
    ensures TermTold(ids, t, FactsOf(View(c, ids, d, TermBody(t))))
    decreases t
  {
    hide View, FactsIn, DeclHere, ModelGroupPlan, WildcardPlan, FactsOf, GroupTold, WildcardTold;
    ViewStart(c, ids, d);
    FactsOfItems(c, ids, d, TermBody(t));
    match t
    case ElementTerm(o) =>
      var items := DeclFacts(c, ids, d, Start, ElementDeclaration, o);
    case GroupTerm(g) =>
      var items := GroupFacts(c, ids, d, Start, g);
      MaybeSub(Tag.ModelGroup, g.NoGroup?, items);
    case WildcardTerm(w) =>
      var items := WildcardFacts(c, ids, d, Start, w);
      MaybeSub(Tag.Wildcard, w.NoWildcard?, items);
    case EmptyTerm =>
  }

  predicate TermLinked(c: Memory, t: Term) {
    match t
    case ElementTerm(o) => ElementLink(c, o)
    case GroupTerm(g) => GroupLinked(c, g)
    case _ => true
  }

  lemma MaybeSub(tag: Tag, absent: bool, items: Items)
    requires !tag.Annotation? && (absent ==> items == NO_ITEMS)
    ensures Maybe(NO_FACTS, tag, absent, items).Sub(tag) == items
  {
  }

  lemma {:induction false} GroupFacts(c: Memory, ids: Ids, d: seq<Obj>, pre: Nodes, g: ModelGroup)
    returns (items: Items)
    requires GroupLinked(c, g)
    ensures FactsIn(c, ids, d, ModelGroupPlan(pre, g))
         == Maybe(FactsIn(c, ids, d, pre), Tag.ModelGroup, g.NoGroup?, items)
    ensures GroupTold(ids, g, items) && (g.NoGroup? ==> items == NO_ITEMS)
    decreases g, 2
  {
    hide View, FactsIn, Now, ModelGroupBody, Nodes.Group, Nodes.Absent, FactsOf, InGroup, AnnotationsTold;
    if g.NoGroup? {
      OneNil(c, ids, d, pre, Tag.ModelGroup);
      items := NO_ITEMS;
    } else {
      var d1 := Now(c, d, pre);
      OneGroup(c, ids, d, pre, Tag.ModelGroup, ModelGroupBody(g));
      items := View(c, ids, d1, ModelGroupBody(g));
      GroupDescribed(c, ids, d1, g);
    }
  }

  lemma {:induction false} GroupDescribed(c: Memory, ids: Ids, d: seq<Obj>, g: ModelGroup)
    requires g.ModelGroup? && GroupLinked(c, g)
    ensures GroupTold(ids, g, View(c, ids, d, ModelGroupBody(g)))
    decreases g, 1
  {
    hide View, FactsIn, Now, Kids, ParticleNodes, AnnotationPlan, Nodes.Val, Nodes.Group, FactsOf, InGroup,
         AnnotationsTold, MaybeNoted;
    var f1 := Start.Val(Compositor, g.compositor);
    var f2 := f1.Group(Particles, ParticleNodes(g, |g.particles|));
    ViewStart(c, ids, d);
    OneVal(c, ids, d, Start, Compositor, g.compositor);
    OneGroup(c, ids, d, f1, Particles, ParticleNodes(g, |g.particles|));
    var kids := View(c, ids, Now(c, d, f1), ParticleNodes(g, |g.particles|));
    ParticlesDescribed(c, ids, Now(c, d, f1), g, |g.particles|);
    var list := AnnotationFacts(c, ids, d, f2, g.annotation);
    AnnotationsLast(NO_FACTS.Text(Compositor, g.compositor).Part(Particles, kids), g.annotation, list);
    FactsOfItems(c, ids, d, ModelGroupBody(g));
  }

  lemma {:induction false} ParticlesDescribed(c: Memory, ids: Ids, d: seq<Obj>, g: ModelGroup, n: nat)
    requires g.ModelGroup? && GroupLinked(c, g) && n <= |g.particles|
    ensures var kids := Kids(View(c, ids, d, ParticleNodes(g, n)));
            |kids| == n && forall i :: 0 <= i < n ==> InGroup(ids, g.particles[i], kids[i])
    decreases g, 0, n
  {
    hide View, FactsIn, Now, Kids, ParticlePlan, InGroup, ParticleLinked;
    if n == 0 {
      ViewStart(c, ids, d);
    } else {
      ParticlesDescribed(c, ids, d, g, n - 1);
      var item := OneParticle(c, ids, d, ParticleNodes(g, n - 1), g.particles[n - 1]);
    }
  }

  lemma {:induction false} OneParticle(c: Memory, ids: Ids, d: seq<Obj>, pre: Nodes, p: Particle) returns (item: Item)
    requires ParticleLinked(c, p)
    ensures Kids(View(c, ids, d, ParticlePlan(pre, p))) == Kids(View(c, ids, d, pre)) + [item] && InGroup(ids, p, item)
    decreases p, 1
  {
    hide View, FactsIn, Now, Kids, ParticleBody, Nodes.Group, Nodes.Absent, ParticleTold, NilAttrs;
    if p.NoParticle? {
      item := Reader.EmptyElem(Tag.Particle, NilAttrs());
      OneNil(c, ids, d, pre, Tag.Particle);
    } else {
      var d1 := Now(c, d, pre);
      item := Reader.Elem(Tag.Particle, [], View(c, ids, d1, ParticleBody(p)));
      OneGroup(c, ids, d, pre, Tag.Particle, ParticleBody(p));
      ParticleDescribed(c, ids, d1, p);
    }
  }

  lemma ParticleFacts(c: Memory, ids: Ids, d: seq<Obj>, pre: Nodes, p: Particle) returns (items: Items)
    requires ParticleLinked(c, p)
    ensures FactsIn(c, ids, d, ParticlePlan(pre, p))
            == Maybe(FactsIn(c, ids, d, pre), Tag.Particle, p.NoParticle?, items)
    ensures ParticleTold(ids, p, items) && (p.NoParticle? ==> items == NO_ITEMS)
  {
    hide View, FactsIn, Now, ParticleBody, Nodes.Group, Nodes.Absent, FactsOf;
    if p.NoParticle? {
      OneNil(c, ids, d, pre, Tag.Particle);
      items := NO_ITEMS;
    } else {
      OneGroup(c, ids, d, pre, Tag.Particle, ParticleBody(p));
      items := View(c, ids, Now(c, d, pre), ParticleBody(p));
      ParticleDescribed(c, ids, Now(c, d, pre), p);
    }
  }
}
