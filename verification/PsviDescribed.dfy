/** Every definition on the lines describes its component. */
module PsviDescribed {
  import opened Options
  import opened PsviOutput
  import opened PsviComponents
  import opened PsviPlans
  import opened PsviExpansion
  import opened PsviItems
  import opened PsviReports
  import opened PsviDescriptions
  import opened PsviPartsDescribed
  import ReadBack = PsviReadBack
  import Reader = PsviReader

  // -------------------------------------------------------------------------
  //  Facets
  // -------------------------------------------------------------------------

  /** A value and whether it is fixed. */
  function FacetHead(value: string, fixed: bool): Facts {
    NO_FACTS.Text(FacetValue, value).Text(FacetFixed, BoolText(fixed))
  }

  lemma FacetFound(value: string, fixed: bool, texts: map<Tag, string>)
    requires var f := FacetHead(value, fixed); texts == f.texts || texts == f.texts[Tag.Annotation := ""]
    ensures FacetValue in texts && FacetFixed in texts && texts[FacetValue] == value
            && texts[FacetFixed] == YesNo(fixed)
    ensures FacetHead(value, fixed).annotations == []
  {
  }

  lemma FacetHeadFacts(c: Memory, ids: Ids, d: seq<Obj>, value: string, fixed: bool)
    ensures FactsIn(c, ids, d, Start.Val(FacetValue, value).Val(FacetFixed, BoolText(fixed))) == FacetHead(value, fixed)
  {
    hide View, FactsIn, Nodes.Val, BoolText, Facts.Text;
    ViewStart(c, ids, d);
    OneVal(c, ids, d, Start, FacetValue, value);
    OneVal(c, ids, d, Start.Val(FacetValue, value), FacetFixed, BoolText(fixed));
  }

  lemma FacetDescribed(c: Memory, ids: Ids, d: seq<Obj>, x: Facet)
    ensures FacetTold(x, Reader.Elem(FacetOf(x.kind), [], View(c, ids, d, FacetBody(x))))
  {
    hide View, FactsIn, AnnotationPlan, Nodes.Val, FactsOf, AnnotationsTold, MaybeNoted, FacetHead, BoolText, YesNo;
    FacetHeadFacts(c, ids, d, x.value, x.fixed);
    var list := AnnotationFacts(c, ids, d, Start.Val(FacetValue, x.value).Val(FacetFixed, BoolText(x.fixed)),
                                x.annotation);
    FacetFound(x.value, x.fixed, FacetHead(x.value, x.fixed).texts);
    AnnotationsLast(FacetHead(x.value, x.fixed), x.annotation, list);
    FacetFound(x.value, x.fixed, MaybeNoted(FacetHead(x.value, x.fixed), x.annotation, list).texts);
    FactsOfItems(c, ids, d, FacetBody(x));
  }

  lemma FacetAdded(facets: seq<Facet>, kids: seq<Item>, x: Facet, item: Item)
    requires FacetsTold(facets, [], kids) && FacetTold(x, item)
    ensures FacetsTold(facets + [x], [], kids + [item])
  {
    hide FacetTold, MultiFacetTold;
  }

  lemma NoFacets()
    ensures FacetsTold([], [], [])
  {
  }

  lemma OneFacet(c: Memory, ids: Ids, d: seq<Obj>, pre: Nodes, facets: seq<Facet>, x: Facet)
    requires FacetsTold(facets, [], Kids(View(c, ids, d, pre)))
    ensures FacetsTold(facets + [x], [], Kids(View(c, ids, d, pre.Group(FacetOf(x.kind), FacetBody(x)))))
  {
    hide View, Kids, Now, FacetBody, FacetTold, FacetsTold, Nodes.Group;
    FacetItem(c, ids, d, pre, x.kind, FacetBody(x));
    FacetDescribed(c, ids, Now(c, d, pre), x);
    FacetAdded(facets, Kids(View(c, ids, d, pre)), x,
               Reader.Elem(FacetOf(x.kind), [], View(c, ids, Now(c, d, pre), FacetBody(x))));
  }

  lemma {:induction false} FacetsDescribed(c: Memory, ids: Ids, d: seq<Obj>, facets: seq<Facet>, n: nat)
    requires n <= |facets|
    ensures FacetsTold(facets[..n], [], Kids(View(c, ids, d, FacetNodes(facets, n))))
    decreases n
  {
    hide View, Kids, FacetBody, FacetsTold, Nodes.Group;
    if n == 0 {
      ViewStart(c, ids, d);
      NoFacets();
    } else {
      var x, pre := facets[n - 1], FacetNodes(facets, n - 1);
      FacetsDescribed(c, ids, d, facets, n - 1);
      OneFacet(c, ids, d, pre, facets[..n - 1], x);
      assert facets[..n] == facets[..n - 1] + [x];
    }
  }

  lemma FacetItem(c: Memory, ids: Ids, d: seq<Obj>, pre: Nodes, kind: string, body: Nodes)
    ensures Kids(View(c, ids, d, pre.Group(FacetOf(kind), body)))
         == Kids(View(c, ids, d, pre)) + [Reader.Elem(FacetOf(kind), [], View(c, ids, Now(c, d, pre), body))]
  {
    hide View, FactsIn, Kids, Now, Nodes.Group;
    OneGroup(c, ids, d, pre, FacetOf(kind), body);
  }

  lemma TextLine(c: Memory, ids: Ids, d: seq<Obj>, f: Nodes, n: Node)
    requires n.Text? || n.Nil?
    ensures View(c, ids, d, More(f, n))
         == Reader.Items.More(View(c, ids, d, f), if n.Text? then Reader.TextElem(n.tag, n.text)
                                                  else Reader.EmptyElem(n.tag, NilAttrs()))
  {
    hide View, Now, NilAttrs;
    ViewMore(c, ids, d, f, n);
  }

  /** One more line with a value. */
  lemma ValueLine(c: Memory, ids: Ids, d: seq<Obj>, f: Nodes, tag: Tag, text: string)
    ensures ValuesIn(View(c, ids, d, f.Val(tag, text)))
         == ValuesIn(View(c, ids, d, f)) + if tag.FacetValue? then [text] else []
  {
    hide View, NilAttrs;
    TextLine(c, ids, d, f, f.Val(tag, text).last);
  }

  lemma {:induction false} ValuesDescribed(c: Memory, ids: Ids, d: seq<Obj>, values: seq<string>, n: nat)
    requires n <= |values|
    ensures ValuesIn(View(c, ids, d, ValueNodes(values, n))) == values[..n]
    ensures FactsIn(c, ids, d, ValueNodes(values, n)).parts == map[]
    decreases n
  {
    hide View, FactsIn, ValuesIn, Nodes.Val;
    ViewStart(c, ids, d);
    if n == 0 {
      NoValues();
    } else {
      ValuesDescribed(c, ids, d, values, n - 1);
      ValueLine(c, ids, d, ValueNodes(values, n - 1), FacetValue, values[n - 1]);
      OneVal(c, ids, d, ValueNodes(values, n - 1), FacetValue, values[n - 1]);
      assert values[..n] == values[..n - 1] + [values[n - 1]];
    }
  }

  lemma NoValues()
    ensures ValuesIn(NO_ITEMS) == []
  {
  }

  lemma GroupNoValue(c: Memory, ids: Ids, d: seq<Obj>, f: Nodes, children: Nodes)
    ensures ValuesIn(View(c, ids, d, f.Group(Annotations, children))) == ValuesIn(View(c, ids, d, f))
  {
    hide View, Now;
    GroupItem(c, ids, d, f, Annotations, children);
  }

  lemma AnnotationsNoValue(c: Memory, ids: Ids, d: seq<Obj>, f: Nodes, list: Option<seq<Annotation>>)
    ensures ValuesIn(View(c, ids, d, AnnotationsPlan(f, list))) == ValuesIn(View(c, ids, d, f))
  {
    hide View, ValuesIn, AnnotationNodes, Nodes.Group;
    if list.None? {
      ValueLine(c, ids, d, f, Annotations, "");
      assert ValuesIn(View(c, ids, d, f)) + [] == ValuesIn(View(c, ids, d, f));
    } else {
      GroupNoValue(c, ids, d, f, AnnotationNodes(list.value, |list.value|));
    }
  }

  lemma MultiFacetValues(c: Memory, ids: Ids, d: seq<Obj>, x: MultiFacet)
    ensures ValuesIn(View(c, ids, d, MultiFacetBody(x))) == x.values
  {
    hide View, FactsIn, ValueNodes, AnnotationsPlan, Nodes.Val, ValuesIn, BoolText;
    var f1 := ValueNodes(x.values, |x.values|);
    ValuesDescribed(c, ids, d, x.values, |x.values|);
    assert x.values[..|x.values|] == x.values;
    ValueLine(c, ids, d, f1, FacetFixed, BoolText(x.fixed));
    assert x.values + [] == x.values;
    AnnotationsNoValue(c, ids, d, f1.Val(FacetFixed, BoolText(x.fixed)), x.annotations);
  }

  lemma MultiFacetFound(f: Facts, x: MultiFacet, items: Items)
    requires f.parts == map[] && (x.annotations.None? ==> items == NO_ITEMS)
    ensures var g := Maybe(f.Text(FacetFixed, BoolText(x.fixed)), Annotations, x.annotations.None?, items);
            g.Get(FacetFixed) == YesNo(x.fixed) && g.Sub(Annotations) == items
  {
  }

  lemma MultiFacetDescribed(c: Memory, ids: Ids, d: seq<Obj>, x: MultiFacet)
    ensures MultiFacetTold(x, Reader.Elem(FacetOf(x.kind), [], View(c, ids, d, MultiFacetBody(x))))
  {
    hide View, FactsIn, ValueNodes, AnnotationsPlan, Nodes.Val, FactsOf, AnnotationListTold, ValuesIn, BoolText, YesNo,
         Facts.Text, Facts.Get, Facts.Sub, Maybe;
    var f1 := ValueNodes(x.values, |x.values|);
    MultiFacetValues(c, ids, d, x);
    ValuesDescribed(c, ids, d, x.values, |x.values|);
    OneVal(c, ids, d, f1, FacetFixed, BoolText(x.fixed));
    var items := AnnotationListFacts(c, ids, d, f1.Val(FacetFixed, BoolText(x.fixed)), x.annotations);
    MultiFacetFound(FactsIn(c, ids, d, f1), x, items);
    FactsOfItems(c, ids, d, MultiFacetBody(x));
  }

  lemma MultiFacetAdded(facets: seq<Facet>, multi: seq<MultiFacet>, kids: seq<Item>, x: MultiFacet, item: Item)
    requires FacetsTold(facets, multi, kids) && MultiFacetTold(x, item)
    ensures FacetsTold(facets, multi + [x], kids + [item])
  {
    hide FacetTold, MultiFacetTold;
  }

  lemma OneMultiFacet(c: Memory, ids: Ids, d: seq<Obj>, pre: Nodes, facets: seq<Facet>, multi: seq<MultiFacet>,
                      x: MultiFacet)
    requires FacetsTold(facets, multi, Kids(View(c, ids, d, pre)))
    ensures FacetsTold(facets, multi + [x], Kids(View(c, ids, d, pre.Group(FacetOf(x.kind), MultiFacetBody(x)))))
  {
    hide View, Kids, Now, MultiFacetBody, MultiFacetTold, FacetsTold, Nodes.Group;
    FacetItem(c, ids, d, pre, x.kind, MultiFacetBody(x));
    MultiFacetDescribed(c, ids, Now(c, d, pre), x);
    MultiFacetAdded(facets, multi, Kids(View(c, ids, d, pre)), x,
                    Reader.Elem(FacetOf(x.kind), [], View(c, ids, Now(c, d, pre), MultiFacetBody(x))));
  }

  lemma {:induction false} MultiFacetsDescribed(c: Memory, ids: Ids, d: seq<Obj>, pre: Nodes, facets: seq<Facet>,
                                                multi: seq<MultiFacet>, n: nat)
    requires n <= |multi| && FacetsTold(facets, [], Kids(View(c, ids, d, pre)))
    ensures FacetsTold(facets, multi[..n], Kids(View(c, ids, d, MultiFacetNodes(pre, multi, n))))
    decreases n
  {
    hide View, Kids, MultiFacetBody, FacetsTold, Nodes.Group;
    if n > 0 {
      MultiFacetsDescribed(c, ids, d, pre, facets, multi, n - 1);
      OneMultiFacet(c, ids, d, MultiFacetNodes(pre, multi, n - 1), facets, multi[..n - 1], multi[n - 1]);
      assert multi[..n] == multi[..n - 1] + [multi[n - 1]];
    } else {
      assert multi[..0] == [];
    }
  }

  lemma SinglesDescribed(c: Memory, ids: Ids, d: seq<Obj>, facets: Option<seq<Facet>>)
    ensures FacetsTold(ListOf(facets), [], Kids(View(c, ids, d, SingleFacets(facets))))
  {
    hide View, FactsIn, Kids, FacetNodes, FacetTold;
    if facets.None? {
      ViewStart(c, ids, d);
    } else {
      FacetsDescribed(c, ids, d, facets.value, |facets.value|);
      assert facets.value[..|facets.value|] == facets.value;
    }
  }

  lemma AllFacetsDescribed(c: Memory, ids: Ids, d: seq<Obj>, facets: Option<seq<Facet>>, multi: Option<seq<MultiFacet>>)
    ensures FacetsTold(ListOf(facets), ListOf(multi),
                       Kids(View(c, ids, d, MultiFacetsPlan(SingleFacets(facets), multi))))
  {
    hide View, FactsIn, Kids, FacetsTold, SingleFacets, MultiFacetNodes;
    SinglesDescribed(c, ids, d, facets);
    if multi.Some? {
      MultiFacetsDescribed(c, ids, d, SingleFacets(facets), ListOf(facets), multi.value, |multi.value|);
      assert multi.value[..|multi.value|] == multi.value;
    }
  }

  lemma FacetsFacts(c: Memory, ids: Ids, d: seq<Obj>, pre: Nodes, facets: Option<seq<Facet>>,
                    multi: Option<seq<MultiFacet>>)
    returns (items: Items)
    ensures FactsIn(c, ids, d, FacetsPlan(pre, facets, multi))
         == Maybe(FactsIn(c, ids, d, pre), Facets, facets.None? && multi.None?, items)
    ensures FacetsTold(ListOf(facets), ListOf(multi), Kids(items))
            && (facets.None? && multi.None? ==> items == NO_ITEMS)
  {
    hide View, FactsIn, Kids, Now, MultiFacetsPlan, SingleFacets, Nodes.Group, Nodes.Absent;
    Nothing();
    if facets.None? && multi.None? {
      OneNil(c, ids, d, pre, Facets);
      items := NO_ITEMS;
    } else {
      var body := MultiFacetsPlan(SingleFacets(facets), multi);
      OneGroup(c, ids, d, pre, Facets, body);
      items := View(c, ids, Now(c, d, pre), body);
      AllFacetsDescribed(c, ids, Now(c, d, pre), facets, multi);
    }
  }

  lemma OneFundamental(c: Memory, ids: Ids, d: seq<Obj>, pre: Nodes, tag: Tag, text: string) returns (items: Items)
    ensures FactsIn(c, ids, d, pre.Group(tag, Start.Val(FacetValue, text))) == FactsIn(c, ids, d, pre).Part(tag, items)
    ensures FactsOf(items).Get(FacetValue) == text
  {
    hide View, FactsIn, Now, Nodes.Val, Nodes.Group, FactsOf;
    var d1 := Now(c, d, pre);
    OneGroup(c, ids, d, pre, tag, Start.Val(FacetValue, text));
    items := View(c, ids, d1, Start.Val(FacetValue, text));
    FactsOfItems(c, ids, d1, Start.Val(FacetValue, text));
    OneVal(c, ids, d1, Start, FacetValue, text);
  }

  lemma FourParts(f: Facts, ordered: Items, bounded: Items, finite: Items, numeric: Items)
    ensures var g := f.Part(Ordered, ordered).Part(Bounded, bounded).Part(Cardinality, finite).Part(Numeric, numeric);
            && g.Sub(Ordered) == ordered && g.Sub(Bounded) == bounded && g.Sub(Cardinality) == finite
            && g.Sub(Numeric) == numeric
  {
  }

  lemma FundamentalFacts(c: Memory, ids: Ids, d: seq<Obj>, pre: Nodes, x: SimpleType) returns (items: Items)
    ensures FactsIn(c, ids, d, FundamentalFacetsPlan(pre, x.ordered, x.bounded, x.finite, x.numeric))
         == FactsIn(c, ids, d, pre).Part(FundamentalFacets, items)
    ensures FundamentalTold(x, FactsOf(items))
  {
    hide View, FactsIn, Now, Nodes.Val, Nodes.Group, FactsOf, Facts.Part, Facts.Sub, Facts.Get;
    var d1 := Now(c, d, pre);
    var f1 := Start.Group(Ordered, Start.Val(FacetValue, x.ordered));
    var f2 := f1.Group(Bounded, Start.Val(FacetValue, BoolText(x.bounded)));
    var f3 := f2.Group(Cardinality, Start.Val(FacetValue, BoolText(x.finite)));
    var body := f3.Group(Numeric, Start.Val(FacetValue, BoolText(x.numeric)));
    OneGroup(c, ids, d, pre, FundamentalFacets, body);
    items := View(c, ids, d1, body);
    FactsOfItems(c, ids, d1, body);
    ViewStart(c, ids, d1);
    var ordered := OneFundamental(c, ids, d1, Start, Ordered, x.ordered);
    var bounded := OneFundamental(c, ids, d1, f1, Bounded, BoolText(x.bounded));
    var finite := OneFundamental(c, ids, d1, f2, Cardinality, BoolText(x.finite));
    var numeric := OneFundamental(c, ids, d1, f3, Numeric, BoolText(x.numeric));
    FourParts(NO_FACTS, ordered, bounded, finite, numeric);
  }

  // -------------------------------------------------------------------------
  //  Lists of types, fields and constraints
  // -------------------------------------------------------------------------

  lemma TypeFacts(c: Memory, ids: Ids, d: seq<Obj>, pre: Nodes, enclose: Tag, o: Option<Obj>) returns (items: Items)
    requires TypeLink(c, o)
    ensures FactsIn(c, ids, d, TypeHere(pre, enclose, o)) == Maybe(FactsIn(c, ids, d, pre), enclose, o.None?, items)
    ensures LastReference(items) == TypeNamed(c, ids, o) && (o.None? ==> items == NO_ITEMS)
  {
    hide View, FactsIn, Now, TypeHere, FactsOf, Kids;
    Nothing();
    ReadBack.TypeHereFacts(c, ids, d, pre, enclose, o);
    items := if o.None? then NO_ITEMS else View(c, ids, Now(c, d, pre), Start.Here(o.value));
  }

  lemma DeclRefFacts(c: Memory, ids: Ids, d: seq<Obj>, pre: Nodes, enclose: Tag, tag: Tag, o: Option<Obj>)
    returns (items: Items)
    ensures FactsIn(c, ids, d, DeclRef(pre, enclose, tag, o)) == Maybe(FactsIn(c, ids, d, pre), enclose, o.None?, items)
    ensures LastReference(items) == DeclNamed(ids, tag, o) && (o.None? ==> items == NO_ITEMS)
  {
    hide View, FactsIn, Now, DeclRef, FactsOf, Kids;
    Nothing();
    ReadBack.DeclRefFacts(c, ids, d, pre, enclose, tag, o);
    items := if o.None? then NO_ITEMS else View(c, ids, Now(c, d, pre), Start.Ref(tag, o));
  }

  lemma OneMember(c: Memory, ids: Ids, d: seq<Obj>, pre: Nodes, o: Obj) returns (item: Item)
    requires IsType(c, o)
    ensures Kids(View(c, ids, d, TypeHere(pre, MemberTypeDefinition, Some(o)))) == Kids(View(c, ids, d, pre)) + [item]
    ensures MemberTold(c, ids, o, item)
  {
    hide View, FactsIn, Now, Kids, Nodes.Group, Nodes.Here;
    var d1 := Now(c, d, pre);
    OneGroup(c, ids, d, pre, MemberTypeDefinition, Start.Here(o));
    ReadBack.TypeHereFacts(c, ids, d, pre, MemberTypeDefinition, Some(o));
    item := Reader.Elem(MemberTypeDefinition, [], View(c, ids, d1, Start.Here(o)));
  }

  lemma {:induction false} MembersDescribed(c: Memory, ids: Ids, d: seq<Obj>, members: seq<Obj>, n: nat)
    requires n <= |members| && MembersLinked(c, Some(members))
    ensures MembersTold(c, ids, members[..n], Kids(View(c, ids, d, MemberTypeNodes(members, n))))
    decreases n
  {
    hide View, FactsIn, Kids, TypeHere, MemberTold;
    if n == 0 {
      ViewStart(c, ids, d);
    } else {
      MembersDescribed(c, ids, d, members, n - 1);
      var item := OneMember(c, ids, d, MemberTypeNodes(members, n - 1), members[n - 1]);
    }
  }

  lemma MembersFacts(c: Memory, ids: Ids, d: seq<Obj>, pre: Nodes, members: Option<seq<Obj>>) returns (items: Items)
    requires MembersLinked(c, members)
    ensures FactsIn(c, ids, d, MemberTypesPlan(pre, members))
         == Maybe(FactsIn(c, ids, d, pre), MemberTypeDefinitions, members.None?, items)
    ensures MembersTold(c, ids, ListOf(members), Kids(items)) && (members.None? ==> items == NO_ITEMS)
  {
    hide View, FactsIn, Kids, Now, MemberTypeNodes, MemberTold, Nodes.Group, Nodes.Absent;
    Nothing();
    if members.None? {
      OneNil(c, ids, d, pre, MemberTypeDefinitions);
      items := NO_ITEMS;
    } else {
      var list := members.value;
      OneGroup(c, ids, d, pre, MemberTypeDefinitions, MemberTypeNodes(list, |list|));
      items := View(c, ids, Now(c, d, pre), MemberTypeNodes(list, |list|));
      MembersDescribed(c, ids, Now(c, d, pre), list, |list|);
      assert list[..|list|] == list && Some(list) == members;
    }
  }

  lemma XPathFacts(c: Memory, ids: Ids, d: seq<Obj>, pre: Nodes, path: string) returns (items: Items)
    ensures FactsIn(c, ids, d, XPathPlan(pre, path)) == FactsIn(c, ids, d, pre).Part(XPath, items)
    ensures Kids(View(c, ids, d, XPathPlan(pre, path))) == Kids(View(c, ids, d, pre)) + [Reader.Elem(XPath, [], items)]
    ensures FactsOf(items).Get(XPath) == path
  {
    hide View, FactsIn, Now, Kids, Nodes.Val, Nodes.Group, FactsOf;
    var d1 := Now(c, d, pre);
    OneGroup(c, ids, d, pre, XPath, Start.Val(XPath, path));
    items := View(c, ids, d1, Start.Val(XPath, path));
    FactsOfItems(c, ids, d1, Start.Val(XPath, path));
    OneVal(c, ids, d1, Start, XPath, path);
  }

  lemma {:induction false} FieldsDescribed(c: Memory, ids: Ids, d: seq<Obj>, fields: seq<string>, n: nat)
    requires n <= |fields|
    ensures FieldsTold(fields[..n], Kids(View(c, ids, d, FieldNodes(fields, n))))
    decreases n
  {
    hide View, FactsIn, Kids, XPathPlan, FactsOf;
    if n == 0 {
      ViewStart(c, ids, d);
    } else {
      FieldsDescribed(c, ids, d, fields, n - 1);
      var items := XPathFacts(c, ids, d, FieldNodes(fields, n - 1), fields[n - 1]);
    }
  }

  lemma {:induction false} ConstraintsDescribed(c: Memory, ids: Ids, d: seq<Obj>, list: seq<Obj>, n: nat)
    requires n <= |list|
    ensures ConstraintsTold(ids, list[..n], Kids(View(c, ids, d, IdConstraintNodes(c, list, n))))
    decreases n
  {
    hide View, FactsIn, Kids, Now, IdConstraintContents, Nodes.Defined;
    if n == 0 {
      ViewStart(c, ids, d);
    } else {
      ConstraintsDescribed(c, ids, d, list, n - 1);
      OneDefinition(c, ids, d, IdConstraintNodes(c, list, n - 1), IdentityConstraintDefinition, list[n - 1],
                    IdConstraintContents(c, list[n - 1]));
    }
  }

  lemma ConstraintListFacts(c: Memory, ids: Ids, d: seq<Obj>, pre: Nodes, list: Option<seq<Obj>>) returns (items: Items)
    ensures FactsIn(c, ids, d, IdConstraintsPlan(c, pre, list))
         == Maybe(FactsIn(c, ids, d, pre), IdentityConstraintDefinitions, list.None?, items)
    ensures ConstraintsTold(ids, ListOf(list), Kids(items)) && (list.None? ==> items == NO_ITEMS)
  {
    hide View, FactsIn, Kids, Now, IdConstraintNodes, Nodes.Group, Nodes.Absent;
    Nothing();
    if list.None? {
      OneNil(c, ids, d, pre, IdentityConstraintDefinitions);
      items := NO_ITEMS;
    } else {
      OneGroup(c, ids, d, pre, IdentityConstraintDefinitions, IdConstraintNodes(c, list.value, |list.value|));
      items := View(c, ids, Now(c, d, pre), IdConstraintNodes(c, list.value, |list.value|));
      ConstraintsDescribed(c, ids, Now(c, d, pre), list.value, |list.value|);
      assert list.value[..|list.value|] == list.value;
    }
  }

  // -------------------------------------------------------------------------
  //  Types
  // -------------------------------------------------------------------------

  function Titled(name: string, namespace: string): Facts { NO_FACTS.Text(Name, name).Text(TargetNamespace, namespace) }

  lemma NameFacts(c: Memory, ids: Ids, d: seq<Obj>, name: string, namespace: string)
    ensures FactsIn(c, ids, d, Start.Val(Name, name).Val(TargetNamespace, namespace)) == Titled(name, namespace)
    ensures FactsIn(c, ids, d, Start.Absent(Name).Val(TargetNamespace, namespace)) == Titled("", namespace)
  {
    hide View, FactsIn, Nodes.Val, Nodes.Absent, Facts.Text;
    ViewStart(c, ids, d);
    OneVal(c, ids, d, Start, Name, name);
    OneNil(c, ids, d, Start, Name);
    OneVal(c, ids, d, Start.Val(Name, name), TargetNamespace, namespace);
    OneVal(c, ids, d, Start.Absent(Name), TargetNamespace, namespace);
  }

  lemma TypeNameFacts(c: Memory, ids: Ids, d: seq<Obj>, anonymous: bool, name: string, namespace: string)
    ensures FactsIn(c, ids, d, NameAndTarget(anonymous, name, namespace))
            == Titled(if anonymous then "" else name, namespace)
  {
    hide FactsIn, Nodes.Val, Nodes.Absent, Titled;
    NameFacts(c, ids, d, name, namespace);
  }

  function ComplexHead(x: ComplexType, base: Items, uses: Items, wildcard: Items): Facts {
    var f := Maybe(Titled(if x.anonymous then "" else x.name, x.namespace), BaseTypeDefinition, x.base.None?, base)
             .Text(DerivationMethod, x.derivation).Text(Final, x.final).Text(Abstract, BoolText(x.isAbstract));
    Maybe(Maybe(f, Tag.AttributeUses, x.attributeUses.None?, uses), AttributeWildcard, x.attributeWildcard.NoWildcard?,
          wildcard)
  }

  function ComplexFacts(head: Facts, x: ComplexType, content: Items, annotations: Items): Facts {
    Maybe(head.Part(ContentType, content).Text(ProhibitedSubstitutions, x.prohibited), Annotations, x.annotations.None?,
          annotations)
  }

  lemma ComplexHeadFacts(c: Memory, ids: Ids, d: seq<Obj>, x: ComplexType)
    returns (base: Items, uses: Items, wildcard: Items)
    requires ComplexTypeLinked(c, x)
    ensures FactsIn(c, ids, d, ComplexTypeHead(x)) == ComplexHead(x, base, uses, wildcard)
    ensures LastReference(base) == TypeNamed(c, ids, x.base) && (x.base.None? ==> base == NO_ITEMS)
    ensures UsesTold(ids, x.attributeUses, Kids(uses)) && (x.attributeUses.None? ==> uses == NO_ITEMS)
    ensures WildcardTold(x.attributeWildcard, FactsOf(wildcard).Sub(Tag.Wildcard))
    ensures x.attributeWildcard.NoWildcard? ==> wildcard == NO_ITEMS
  {
    hide View, FactsIn, Kids, NameAndTarget, TypeHere, AttributeUsesPlan, AttributeWildcardPlan, Nodes.Val, UsesTold,
         WildcardTold, FactsOf, Facts.Text, Facts.Sub, Maybe, Titled, BoolText, ParticleLinked, UsesLinked;
    var f0 := NameAndTarget(x.anonymous, x.name, x.namespace);
    var f1 := TypeHere(f0, BaseTypeDefinition, x.base);
    var f2 := f1.Val(DerivationMethod, x.derivation);
    var f3 := f2.Val(Final, x.final);
    var f4 := f3.Val(Abstract, BoolText(x.isAbstract));
    TypeNameFacts(c, ids, d, x.anonymous, x.name, x.namespace);
    base := TypeFacts(c, ids, d, f0, BaseTypeDefinition, x.base);
    OneVal(c, ids, d, f1, DerivationMethod, x.derivation);
    OneVal(c, ids, d, f2, Final, x.final);
    OneVal(c, ids, d, f3, Abstract, BoolText(x.isAbstract));
    uses := UsesFacts(c, ids, d, f4, x.attributeUses);
    wildcard := AttributeWildcardFacts(c, ids, d, AttributeUsesPlan(f4, x.attributeUses), x.attributeWildcard);
  }

  lemma ContentTypeDescribed(c: Memory, ids: Ids, d: seq<Obj>, x: ComplexType)
    requires ComplexTypeLinked(c, x)
    ensures ContentTypeTold(ids, x, FactsOf(View(c, ids, d, ContentTypeBody(x))))
  {
    hide View, FactsIn, DeclHere, ParticlePlan, Nodes.Val, ParticleTold, FactsOf, UsesLinked, ParticleLinked, Maybe,
         Declared, Facts.Text, Facts.Get, Facts.Sub, Facts.RefAt;
    var f1 := Start.Val(Variety, x.variety);
    ViewStart(c, ids, d);
    OneVal(c, ids, d, Start, Variety, x.variety);
    SimpleTag(c, x.simpleType);
    var items := DeclFacts(c, ids, d, f1, SimpleTypeDefinition, x.simpleType);
    var particle := ParticleFacts(c, ids, d, DeclHere(f1, SimpleTypeDefinition, x.simpleType), x.particle);
    ContentTypeFound(ids, x, items, particle);
    FactsOfItems(c, ids, d, ContentTypeBody(x));
  }

  lemma SimpleTag(c: Memory, o: Option<Obj>)
    requires SimpleLink(c, o)
    ensures o.Some? ==> TagOf(c, o.value) == SimpleTypeDefinition
  {
  }

  lemma ContentTypeFound(ids: Ids, x: ComplexType, items: Option<Items>, particle: Items)
    requires x.particle.NoParticle? ==> particle == NO_ITEMS
    ensures var id := if x.simpleType.None? then "" else IdOf(ids, x.simpleType.value);
            var f := Maybe(Declared(NO_FACTS.Text(Variety, x.variety), SimpleTypeDefinition, x.simpleType, id, items),
                           Tag.Particle, x.particle.NoParticle?, particle);
            && f.Get(Variety) == x.variety && f.Sub(Tag.Particle) == particle
            && f.RefAt(SimpleTypeDefinition) == DeclNamed(ids, SimpleTypeDefinition, x.simpleType)
  {
  }

  lemma ComplexBodyFacts(c: Memory, ids: Ids, d: seq<Obj>, x: ComplexType, head: Facts)
    returns (content: Items, annotations: Items)
    requires ComplexTypeLinked(c, x) && FactsIn(c, ids, d, ComplexTypeHead(x)) == head
    ensures FactsIn(c, ids, d, ComplexTypeBody(x)) == ComplexFacts(head, x, content, annotations)
    ensures ContentTypeTold(ids, x, FactsOf(content))
    ensures AnnotationListTold(x.annotations, annotations) && (x.annotations.None? ==> annotations == NO_ITEMS)
  {
    hide View, FactsIn, Now, ComplexTypeHead, ContentTypeBody, AnnotationsPlan, Nodes.Val, Nodes.Group, FactsOf,
         AnnotationListTold, ContentTypeTold, ComplexTypeLinked, Maybe, Facts.Text, Facts.Part;
    var f0 := ComplexTypeHead(x);
    var f1 := f0.Group(ContentType, ContentTypeBody(x));
    OneGroup(c, ids, d, f0, ContentType, ContentTypeBody(x));
    content := View(c, ids, Now(c, d, f0), ContentTypeBody(x));
    ContentTypeDescribed(c, ids, Now(c, d, f0), x);
    OneVal(c, ids, d, f1, ProhibitedSubstitutions, x.prohibited);
    annotations := AnnotationListFacts(c, ids, d, f1.Val(ProhibitedSubstitutions, x.prohibited), x.annotations);
  }

  lemma ComplexHeadFound(x: ComplexType, base: Items, uses: Items, wildcard: Items)
    requires (x.base.None? ==> base == NO_ITEMS) && (x.attributeUses.None? ==> uses == NO_ITEMS)
    requires x.attributeWildcard.NoWildcard? ==> wildcard == NO_ITEMS
    ensures var f := ComplexHead(x, base, uses, wildcard);
            && f.Sub(BaseTypeDefinition) == base && f.Sub(Tag.AttributeUses) == uses
            && f.Sub(AttributeWildcard) == wildcard && ContentType !in f.parts && Annotations !in f.parts
  {
    hide Maybe, Titled, Facts.Sub;
    var none := x.attributeWildcard.NoWildcard?;
    var f0 := Titled(if x.anonymous then "" else x.name, x.namespace);
    var f1 := Maybe(f0, BaseTypeDefinition, x.base.None?, base);
    var f2 := f1.Text(DerivationMethod, x.derivation).Text(Final, x.final).Text(Abstract, BoolText(x.isAbstract));
    var f3 := Maybe(f2, Tag.AttributeUses, x.attributeUses.None?, uses);
    TitleFound(if x.anonymous then "" else x.name, x.namespace);
    FindsPart(f0, BaseTypeDefinition, x.base.None?, base);
    KeepsParts(f0, BaseTypeDefinition, x.base.None?, base, Tag.AttributeUses, AttributeWildcard, ContentType,
               Annotations);
    TextsKeepParts(f1, x);
    FindsPart(f2, Tag.AttributeUses, x.attributeUses.None?, uses);
    KeepsParts(f2, Tag.AttributeUses, x.attributeUses.None?, uses, BaseTypeDefinition, AttributeWildcard, ContentType,
               Annotations);
    FindsPart(f3, AttributeWildcard, none, wildcard);
    KeepsParts(f3, AttributeWildcard, none, wildcard, BaseTypeDefinition, Tag.AttributeUses, ContentType, Annotations);
  }

  lemma TextsKeepParts(f: Facts, x: ComplexType)
    ensures var g := f.Text(DerivationMethod, x.derivation).Text(Final, x.final).Text(Abstract, BoolText(x.isAbstract));
            g.parts == f.parts && forall tag: Tag :: g.Sub(tag) == f.Sub(tag)
  {
  }

  lemma ContentFound(f: Facts, content: Items, prohibited: string)
    ensures var g := f.Part(ContentType, content).Text(ProhibitedSubstitutions, prohibited);
            && g.Sub(ContentType) == content && g.Sub(BaseTypeDefinition) == f.Sub(BaseTypeDefinition)
            && g.Sub(Tag.AttributeUses) == f.Sub(Tag.AttributeUses)
            && g.Sub(AttributeWildcard) == f.Sub(AttributeWildcard)
            && (Annotations in g.parts <==> Annotations in f.parts)
  {
  }

  lemma ComplexFound(f: Facts, x: ComplexType, content: Items, annotations: Items)
    requires ContentType !in f.parts && Annotations !in f.parts && (x.annotations.None? ==> annotations == NO_ITEMS)
    ensures var g := ComplexFacts(f, x, content, annotations);
            && g.Sub(ContentType) == content && g.Sub(Annotations) == annotations
            && g.Sub(BaseTypeDefinition) == f.Sub(BaseTypeDefinition)
            && g.Sub(Tag.AttributeUses) == f.Sub(Tag.AttributeUses)
            && g.Sub(AttributeWildcard) == f.Sub(AttributeWildcard)
  {
    hide Maybe, Facts.Sub, Facts.Part, Facts.Text;
    var f1 := f.Part(ContentType, content).Text(ProhibitedSubstitutions, x.prohibited);
    ContentFound(f, content, x.prohibited);
    FindsPart(f1, Annotations, x.annotations.None?, annotations);
    KeepsParts(f1, Annotations, x.annotations.None?, annotations, ContentType, BaseTypeDefinition, Tag.AttributeUses,
               AttributeWildcard);
  }

  lemma ComplexHeadTexts(x: ComplexType, base: Items, uses: Items, wildcard: Items)
    ensures var f := ComplexHead(x, base, uses, wildcard);
            && f.Get(Name) == (if x.anonymous then "" else x.name) && f.Get(TargetNamespace) == x.namespace
            && f.Get(DerivationMethod) == x.derivation && f.Get(Final) == x.final
            && f.Get(Abstract) == YesNo(x.isAbstract)
  {
    hide Titled, Maybe, Facts.Text, Facts.Get, BoolText, YesNo;
    var name := if x.anonymous then "" else x.name;
    var f0 := Titled(name, x.namespace);
    var f1 := Maybe(f0, BaseTypeDefinition, x.base.None?, base);
    var f2 := f1.Text(DerivationMethod, x.derivation).Text(Final, x.final).Text(Abstract, BoolText(x.isAbstract));
    TitleFound(name, x.namespace);
    KeepsTexts(f0, BaseTypeDefinition, x.base.None?, base, Name, TargetNamespace, Name, Name, Name);
    ComplexNext(f1, x);
    KeepsTexts(f2, Tag.AttributeUses, x.attributeUses.None?, uses, Name, TargetNamespace, DerivationMethod, Final,
               Abstract);
    KeepsTexts(Maybe(f2, Tag.AttributeUses, x.attributeUses.None?, uses), AttributeWildcard,
               x.attributeWildcard.NoWildcard?,
               wildcard, Name, TargetNamespace, DerivationMethod, Final, Abstract);
  }

  lemma TitleFound(name: string, namespace: string)
    ensures var f := Titled(name, namespace);
            f.Get(Name) == name && f.Get(TargetNamespace) == namespace && f.parts == map[]
  {
  }

  lemma ComplexNext(f: Facts, x: ComplexType)
    ensures var g := f.Text(DerivationMethod, x.derivation).Text(Final, x.final).Text(Abstract, BoolText(x.isAbstract));
            && g.Get(DerivationMethod) == x.derivation && g.Get(Final) == x.final
            && g.Get(Abstract) == YesNo(x.isAbstract)
            && g.Get(Name) == f.Get(Name) && g.Get(TargetNamespace) == f.Get(TargetNamespace)
  {
  }

  lemma ComplexTexts(head: Facts, x: ComplexType, content: Items, annotations: Items)
    ensures var f := ComplexFacts(head, x, content, annotations);
            && f.Get(Name) == head.Get(Name) && f.Get(TargetNamespace) == head.Get(TargetNamespace)
            && f.Get(DerivationMethod) == head.Get(DerivationMethod) && f.Get(Final) == head.Get(Final)
            && f.Get(Abstract) == head.Get(Abstract) && f.Get(ProhibitedSubstitutions) == x.prohibited
  {
    if x.annotations.None? {} else {}
  }

  lemma ComplexTypeDescribed(c: Memory, ids: Ids, d: seq<Obj>, x: ComplexType)
    requires ComplexTypeLinked(c, x)
    ensures ComplexTypeTold(c, ids, x, View(c, ids, d, ComplexTypeBody(x)))
  {
    hide View, FactsIn, Kids, ComplexTypeBody, ComplexTypeHead, FactsOf, AnnotationListTold, ContentTypeTold, UsesTold,
         WildcardTold, ComplexTypeLinked, ComplexFacts, ComplexHead, Facts.Get, Facts.Sub, TypeNamed, YesNo;
    var base, uses, wildcard := ComplexHeadFacts(c, ids, d, x);
    var content, annotations := ComplexBodyFacts(c, ids, d, x, ComplexHead(x, base, uses, wildcard));
    ComplexHeadFound(x, base, uses, wildcard);
    ComplexFound(ComplexHead(x, base, uses, wildcard), x, content, annotations);
    ComplexHeadTexts(x, base, uses, wildcard);
    ComplexTexts(ComplexHead(x, base, uses, wildcard), x, content, annotations);
    FactsOfItems(c, ids, d, ComplexTypeBody(x));
  }

  function SimpleHead(x: SimpleType, base: Items, primitive: Items): Facts {
    Maybe(Maybe(Titled(if x.anonymous then "" else x.name, x.namespace), BaseTypeDefinition, x.base.None?, base),
          PrimitiveTypeDefinition, x.primitive.None?, primitive)
  }

  function SimpleFacets(head: Facts, x: SimpleType, facets: Items, fundamental: Items): Facts {
    Maybe(head, Facets, x.facets.None? && x.multiFacets.None?, facets).Part(FundamentalFacets, fundamental)
    .Text(Final, x.final).Text(Variety, x.variety)
  }

  function SimpleFacts(f: Facts, x: SimpleType, item: Items, members: Items, annotations: Items): Facts {
    Maybe(Maybe(Maybe(f, ItemTypeDefinition, x.itemType.None?, item), MemberTypeDefinitions, x.memberTypes.None?,
                members),
          Annotations, x.annotations.None?, annotations)
  }

  lemma SimpleHeadFacts(c: Memory, ids: Ids, d: seq<Obj>, x: SimpleType) returns (base: Items, primitive: Items)
    requires SimpleTypeLinked(c, x)
    ensures FactsIn(c, ids, d, SimpleTypeHead(x)) == SimpleHead(x, base, primitive)
    ensures LastReference(base) == TypeNamed(c, ids, x.base) && (x.base.None? ==> base == NO_ITEMS)
    ensures LastReference(primitive) == TypeNamed(c, ids, x.primitive) && (x.primitive.None? ==> primitive == NO_ITEMS)
  {
    hide View, FactsIn, NameAndTarget, TypeHere, Maybe, Titled, TypeNamed, MembersLinked;
    var f0 := NameAndTarget(x.anonymous, x.name, x.namespace);
    TypeNameFacts(c, ids, d, x.anonymous, x.name, x.namespace);
    base := TypeFacts(c, ids, d, f0, BaseTypeDefinition, x.base);
    primitive := TypeFacts(c, ids, d, TypeHere(f0, BaseTypeDefinition, x.base), PrimitiveTypeDefinition, x.primitive);
  }

  lemma SimpleFacetFacts(c: Memory, ids: Ids, d: seq<Obj>, x: SimpleType, head: Facts)
    returns (facets: Items, fundamental: Items)
    requires FactsIn(c, ids, d, SimpleTypeHead(x)) == head
    ensures FactsIn(c, ids, d, SimpleTypeFacets(x)) == SimpleFacets(head, x, facets, fundamental)
    ensures FacetsTold(ListOf(x.facets), ListOf(x.multiFacets), Kids(facets))
    ensures x.facets.None? && x.multiFacets.None? ==> facets == NO_ITEMS
    ensures FundamentalTold(x, FactsOf(fundamental))
  {
    hide View, FactsIn, Kids, SimpleTypeHead, FacetsPlan, FundamentalFacetsPlan, Nodes.Val, FactsOf, FacetsTold,
         FundamentalTold, Maybe, Facts.Text, Facts.Part;
    var f1 := FacetsPlan(SimpleTypeHead(x), x.facets, x.multiFacets);
    var f2 := FundamentalFacetsPlan(f1, x.ordered, x.bounded, x.finite, x.numeric);
    facets := FacetsFacts(c, ids, d, SimpleTypeHead(x), x.facets, x.multiFacets);
    fundamental := FundamentalFacts(c, ids, d, f1, x);
    OneVal(c, ids, d, f2, Final, x.final);
    OneVal(c, ids, d, f2.Val(Final, x.final), Variety, x.variety);
  }

  lemma SimpleBodyFacts(c: Memory, ids: Ids, d: seq<Obj>, x: SimpleType, f: Facts)
    returns (item: Items, members: Items, annotations: Items)
    requires SimpleTypeLinked(c, x) && FactsIn(c, ids, d, SimpleTypeFacets(x)) == f
    ensures FactsIn(c, ids, d, SimpleTypeBody(x)) == SimpleFacts(f, x, item, members, annotations)
    ensures LastReference(item) == TypeNamed(c, ids, x.itemType) && (x.itemType.None? ==> item == NO_ITEMS)
    ensures MembersTold(c, ids, ListOf(x.memberTypes), Kids(members)) && (x.memberTypes.None? ==> members == NO_ITEMS)
    ensures AnnotationListTold(x.annotations, annotations) && (x.annotations.None? ==> annotations == NO_ITEMS)
  {
    hide View, FactsIn, Kids, SimpleTypeFacets, TypeHere, MemberTypesPlan, AnnotationsPlan, MembersTold,
         AnnotationListTold, Maybe, TypeNamed, MembersLinked;
    var f1 := TypeHere(SimpleTypeFacets(x), ItemTypeDefinition, x.itemType);
    item := TypeFacts(c, ids, d, SimpleTypeFacets(x), ItemTypeDefinition, x.itemType);
    members := MembersFacts(c, ids, d, f1, x.memberTypes);
    annotations := AnnotationListFacts(c, ids, d, MemberTypesPlan(f1, x.memberTypes), x.annotations);
  }

  lemma SimpleHeadTexts(x: SimpleType, base: Items, primitive: Items, facets: Items, fundamental: Items)
    ensures var f := SimpleFacets(SimpleHead(x, base, primitive), x, facets, fundamental);
            && f.Get(Name) == (if x.anonymous then "" else x.name) && f.Get(TargetNamespace) == x.namespace
            && f.Get(Final) == x.final && f.Get(Variety) == x.variety
  {
    hide Titled, Maybe, Facts.Text, Facts.Part, Facts.Get;
    var name, none := if x.anonymous then "" else x.name, x.facets.None? && x.multiFacets.None?;
    var f0 := Titled(name, x.namespace);
    var f1 := Maybe(f0, BaseTypeDefinition, x.base.None?, base);
    var f2 := Maybe(f1, PrimitiveTypeDefinition, x.primitive.None?, primitive);
    TitleFound(name, x.namespace);
    KeepsTexts(f0, BaseTypeDefinition, x.base.None?, base, Name, TargetNamespace, Name, Name, Name);
    KeepsTexts(f1, PrimitiveTypeDefinition, x.primitive.None?, primitive, Name, TargetNamespace, Name, Name, Name);
    KeepsTexts(f2, Facets, none, facets, Name, TargetNamespace, Name, Name, Name);
    SimpleNext(Maybe(f2, Facets, none, facets), x, fundamental);
  }

  lemma SimpleNext(f: Facts, x: SimpleType, fundamental: Items)
    ensures var g := f.Part(FundamentalFacets, fundamental).Text(Final, x.final).Text(Variety, x.variety);
            && g.Get(Name) == f.Get(Name) && g.Get(TargetNamespace) == f.Get(TargetNamespace)
            && g.Get(Final) == x.final && g.Get(Variety) == x.variety
  {
  }

  /** Nothing is told yet of the parts behind the primitive type. */
  predicate BehindOpen(f: Facts) {
    && Facets !in f.parts && ItemTypeDefinition !in f.parts && MemberTypeDefinitions !in f.parts
    && Annotations !in f.parts
  }

  lemma SimpleHeadFound(x: SimpleType, base: Items, primitive: Items)
    requires (x.base.None? ==> base == NO_ITEMS) && (x.primitive.None? ==> primitive == NO_ITEMS)
    ensures var f := SimpleHead(x, base, primitive);
            f.Sub(BaseTypeDefinition) == base && f.Sub(PrimitiveTypeDefinition) == primitive && BehindOpen(f)
  {
    hide Maybe, Titled, Facts.Sub;
    var f0 := Titled(if x.anonymous then "" else x.name, x.namespace);
    var f1 := Maybe(f0, BaseTypeDefinition, x.base.None?, base);
    TitleFound(if x.anonymous then "" else x.name, x.namespace);
    FindsPart(f0, BaseTypeDefinition, x.base.None?, base);
    KeepsParts(f0, BaseTypeDefinition, x.base.None?, base, Facets, ItemTypeDefinition, MemberTypeDefinitions,
               Annotations);
    KeepsPart(f0, BaseTypeDefinition, x.base.None?, base, PrimitiveTypeDefinition);
    FindsPart(f1, PrimitiveTypeDefinition, x.primitive.None?, primitive);
    KeepsParts(f1, PrimitiveTypeDefinition, x.primitive.None?, primitive, Facets, ItemTypeDefinition,
               MemberTypeDefinitions, Annotations);
    KeepsPart(f1, PrimitiveTypeDefinition, x.primitive.None?, primitive, BaseTypeDefinition);
  }

  lemma FundamentalKept(f: Facts, x: SimpleType, fundamental: Items)
    ensures var g := f.Part(FundamentalFacets, fundamental).Text(Final, x.final).Text(Variety, x.variety);
            && g.Sub(FundamentalFacets) == fundamental && g.Sub(Facets) == f.Sub(Facets)
            && g.Sub(BaseTypeDefinition) == f.Sub(BaseTypeDefinition)
            && g.Sub(PrimitiveTypeDefinition) == f.Sub(PrimitiveTypeDefinition)
            && (ItemTypeDefinition in g.parts <==> ItemTypeDefinition in f.parts)
            && (MemberTypeDefinitions in g.parts <==> MemberTypeDefinitions in f.parts)
            && (Annotations in g.parts <==> Annotations in f.parts)
  {
  }

  lemma SimpleFacetsFound(f: Facts, x: SimpleType, facets: Items, fundamental: Items)
    requires BehindOpen(f) && (x.facets.None? && x.multiFacets.None? ==> facets == NO_ITEMS)
    ensures var g := SimpleFacets(f, x, facets, fundamental);
            && g.Sub(Facets) == facets && g.Sub(FundamentalFacets) == fundamental
            && g.Sub(BaseTypeDefinition) == f.Sub(BaseTypeDefinition)
            && g.Sub(PrimitiveTypeDefinition) == f.Sub(PrimitiveTypeDefinition)
            && ItemTypeDefinition !in g.parts && MemberTypeDefinitions !in g.parts && Annotations !in g.parts
  {
    hide Maybe, Facts.Sub, Facts.Part, Facts.Text;
    var none := x.facets.None? && x.multiFacets.None?;
    FindsPart(f, Facets, none, facets);
    KeepsParts(f, Facets, none, facets, BaseTypeDefinition, PrimitiveTypeDefinition, ItemTypeDefinition,
               MemberTypeDefinitions);
    KeepsPart(f, Facets, none, facets, Annotations);
    FundamentalKept(Maybe(f, Facets, none, facets), x, fundamental);
  }

  lemma SimpleFound(f: Facts, x: SimpleType, item: Items, members: Items, annotations: Items)
    requires ItemTypeDefinition !in f.parts && MemberTypeDefinitions !in f.parts && Annotations !in f.parts
    requires (x.itemType.None? ==> item == NO_ITEMS) && (x.memberTypes.None? ==> members == NO_ITEMS)
    requires x.annotations.None? ==> annotations == NO_ITEMS
    ensures var g := SimpleFacts(f, x, item, members, annotations);
            && g.Sub(ItemTypeDefinition) == item && g.Sub(MemberTypeDefinitions) == members
            && g.Sub(Annotations) == annotations
  {
    hide Maybe, Facts.Sub;
    var f1 := Maybe(f, ItemTypeDefinition, x.itemType.None?, item);
    var f2 := Maybe(f1, MemberTypeDefinitions, x.memberTypes.None?, members);
    FindsPart(f, ItemTypeDefinition, x.itemType.None?, item);
    KeepsPart(f, ItemTypeDefinition, x.itemType.None?, item, MemberTypeDefinitions);
    KeepsPart(f, ItemTypeDefinition, x.itemType.None?, item, Annotations);
    FindsPart(f1, MemberTypeDefinitions, x.memberTypes.None?, members);
    KeepsPart(f1, MemberTypeDefinitions, x.memberTypes.None?, members, ItemTypeDefinition);
    KeepsPart(f1, MemberTypeDefinitions, x.memberTypes.None?, members, Annotations);
    FindsPart(f2, Annotations, x.annotations.None?, annotations);
    KeepsPart(f2, Annotations, x.annotations.None?, annotations, ItemTypeDefinition);
    KeepsPart(f2, Annotations, x.annotations.None?, annotations, MemberTypeDefinitions);
  }

  lemma SimplePartsKept(f: Facts, x: SimpleType, item: Items, members: Items, annotations: Items)
    ensures var g := SimpleFacts(f, x, item, members, annotations);
            && g.Sub(BaseTypeDefinition) == f.Sub(BaseTypeDefinition)
            && g.Sub(PrimitiveTypeDefinition) == f.Sub(PrimitiveTypeDefinition) && g.Sub(Facets) == f.Sub(Facets)
            && g.Sub(FundamentalFacets) == f.Sub(FundamentalFacets)
  {
    hide Maybe, Facts.Sub;
    var f1 := Maybe(f, ItemTypeDefinition, x.itemType.None?, item);
    var f2 := Maybe(f1, MemberTypeDefinitions, x.memberTypes.None?, members);
    KeepsParts(f, ItemTypeDefinition, x.itemType.None?, item, BaseTypeDefinition, PrimitiveTypeDefinition, Facets,
               FundamentalFacets);
    KeepsParts(f1, MemberTypeDefinitions, x.memberTypes.None?, members, BaseTypeDefinition, PrimitiveTypeDefinition,
               Facets, FundamentalFacets);
    KeepsParts(f2, Annotations, x.annotations.None?, annotations, BaseTypeDefinition, PrimitiveTypeDefinition, Facets,
               FundamentalFacets);
  }

  lemma SimpleTexts(f: Facts, x: SimpleType, item: Items, members: Items, annotations: Items)
    ensures var g := SimpleFacts(f, x, item, members, annotations);
            && g.Get(Name) == f.Get(Name) && g.Get(TargetNamespace) == f.Get(TargetNamespace)
            && g.Get(Final) == f.Get(Final) && g.Get(Variety) == f.Get(Variety)
  {
    hide Maybe, Facts.Get;
    var f1 := Maybe(f, ItemTypeDefinition, x.itemType.None?, item);
    var f2 := Maybe(f1, MemberTypeDefinitions, x.memberTypes.None?, members);
    KeepsTexts(f, ItemTypeDefinition, x.itemType.None?, item, Name, TargetNamespace, Final, Variety, Variety);
    KeepsTexts(f1, MemberTypeDefinitions, x.memberTypes.None?, members, Name, TargetNamespace, Final, Variety, Variety);
    KeepsTexts(f2, Annotations, x.annotations.None?, annotations, Name, TargetNamespace, Final, Variety, Variety);
  }

  lemma SimpleTypeDescribed(c: Memory, ids: Ids, d: seq<Obj>, x: SimpleType)
    requires SimpleTypeLinked(c, x)
    ensures SimpleTypeTold(c, ids, x, View(c, ids, d, SimpleTypeBody(x)))
  {
    hide View, FactsIn, Kids, SimpleTypeBody, SimpleTypeFacets, SimpleTypeHead, FactsOf, AnnotationListTold, FacetsTold,
         FundamentalTold, MembersTold, SimpleTypeLinked, SimpleHead, SimpleFacets, SimpleFacts, Facts.Get, Facts.Sub,
         TypeNamed;
    var base, primitive := SimpleHeadFacts(c, ids, d, x);
    var facets, fundamental := SimpleFacetFacts(c, ids, d, x, SimpleHead(x, base, primitive));
    var f := SimpleFacets(SimpleHead(x, base, primitive), x, facets, fundamental);
    var item, members, annotations := SimpleBodyFacts(c, ids, d, x, f);
    SimpleHeadTexts(x, base, primitive, facets, fundamental);
    SimpleHeadFound(x, base, primitive);
    SimpleFacetsFound(SimpleHead(x, base, primitive), x, facets, fundamental);
    SimpleFound(f, x, item, members, annotations);
    SimplePartsKept(f, x, item, members, annotations);
    SimpleTexts(f, x, item, members, annotations);
    FactsOfItems(c, ids, d, SimpleTypeBody(x));
  }

  // -------------------------------------------------------------------------
  //  Declarations
  // -------------------------------------------------------------------------

  /** Scope and value constraint of a declaration. */
  function Bounds(f: Facts, scope: ScopeKind, around: Items, v: ValueConstraint, value: Items): Facts {
    Maybe(Scoped(f, scope, around), Tag.ValueConstraint, v.Unconstrained?, value)
  }

  lemma BoundsFacts(c: Memory, ids: Ids, d: seq<Obj>, pre: Nodes, enclosing: Option<Obj>, scope: ScopeKind,
                    v: ValueConstraint) returns (around: Items, value: Items)
    ensures FactsIn(c, ids, d, ValueConstraintPlan(ScopePlan(pre, enclosing, scope), v))
         == Bounds(FactsIn(c, ids, d, pre), scope, around, v, value)
    ensures FactsOf(around).RefAt(ComplexTypeDefinition) == DeclNamed(ids, ComplexTypeDefinition, enclosing)
    ensures ConstraintTold(v, value) && (v.Unconstrained? ==> value == NO_ITEMS)
  {
    hide View, FactsIn, ScopePlan, ValueConstraintPlan, FactsOf, Facts.RefAt, DeclNamed, ConstraintTold, Maybe, Scoped;
    around := ScopeFacts(c, ids, d, pre, enclosing, scope);
    value := ConstraintFacts(c, ids, d, ScopePlan(pre, enclosing, scope), v);
  }

  /** A name, a type and nothing more. */
  predicate OnlyTyped(f: Facts) {
    f.annotations == [] && f.parts.Keys <= {TypeDefinition}
  }

  lemma ScopedFound(ids: Ids, f: Facts, enclosing: Option<Obj>, scope: ScopeKind, around: Items)
    requires OnlyTyped(f)
    requires FactsOf(around).RefAt(ComplexTypeDefinition) == DeclNamed(ids, ComplexTypeDefinition, enclosing)
    ensures var g := Scoped(f, scope, around);
            && ScopeTold(ids, enclosing, scope, g) && g.Get(Name) == f.Get(Name)
            && g.Get(TargetNamespace) == f.Get(TargetNamespace) && g.Sub(TypeDefinition) == f.Sub(TypeDefinition)
            && g.annotations == [] && g.parts.Keys <= {TypeDefinition, Scope}
  {
    hide FactsOf, Facts.RefAt, DeclNamed;
    match scope
    case ScopeAbsent =>
    case ScopeLocal =>
    case ScopeGlobal =>
  }

  lemma BoundsFound(ids: Ids, f: Facts, enclosing: Option<Obj>, scope: ScopeKind, around: Items, v: ValueConstraint,
                    value: Items)
    requires OnlyTyped(f) && (v.Unconstrained? ==> value == NO_ITEMS)
    requires FactsOf(around).RefAt(ComplexTypeDefinition) == DeclNamed(ids, ComplexTypeDefinition, enclosing)
    ensures var g := Bounds(f, scope, around, v, value);
            && ScopeTold(ids, enclosing, scope, g) && g.Get(Name) == f.Get(Name)
            && g.Get(TargetNamespace) == f.Get(TargetNamespace) && g.Sub(TypeDefinition) == f.Sub(TypeDefinition)
            && g.Sub(Tag.ValueConstraint) == value && g.annotations == []
            && g.parts.Keys <= {TypeDefinition, Scope, Tag.ValueConstraint}
  {
    hide FactsOf, Facts.RefAt, DeclNamed, Scoped, OnlyTyped;
    ScopedFound(ids, f, enclosing, scope, around);
    if v.Unconstrained? {} else {}
  }

  function ElementRest(f: Facts, x: ElementDecl, keys: Items, affiliation: Items, list: seq<Items>): Facts {
    MaybeNoted(Maybe(Maybe(f.Text(Nillable, BoolText(x.nillable)), IdentityConstraintDefinitions,
                           x.identityConstraints.None?, keys),
                     SubstitutionGroupAffiliation, x.affiliation.None?, affiliation)
               .Text(SubstitutionGroupExclusions, x.exclusions).Text(DisallowedSubstitutions, x.disallowed)
               .Text(Abstract, BoolText(x.isAbstract)), x.annotation, list)
  }

  lemma ElementHeadFacts(c: Memory, ids: Ids, d: seq<Obj>, x: ElementDecl)
    returns (typed: Items, around: Items, value: Items)
    requires ElementLinked(c, x)
    ensures FactsIn(c, ids, d, ElementDeclHead(x))
         == Bounds(Maybe(Titled(x.name, x.namespace), TypeDefinition, x.typeDefinition.None?, typed), x.scope, around,
                   x.constraint, value).Text(Nillable, BoolText(x.nillable))
    ensures LastReference(typed) == TypeNamed(c, ids, x.typeDefinition)
            && (x.typeDefinition.None? ==> typed == NO_ITEMS)
    ensures FactsOf(around).RefAt(ComplexTypeDefinition) == DeclNamed(ids, ComplexTypeDefinition, x.enclosing)
    ensures ConstraintTold(x.constraint, value) && (x.constraint.Unconstrained? ==> value == NO_ITEMS)
  {
    hide View, FactsIn, TypeHere, ScopePlan, ValueConstraintPlan, Nodes.Val, FactsOf, Facts.RefAt, Facts.Text,
         DeclNamed, TypeNamed, ConstraintTold, Maybe, Titled, Bounds, BoolText, ConstraintsLinked;
    var f0 := Start.Val(Name, x.name).Val(TargetNamespace, x.namespace);
    var f1 := TypeHere(f0, TypeDefinition, x.typeDefinition);
    NameFacts(c, ids, d, x.name, x.namespace);
    typed := TypeFacts(c, ids, d, f0, TypeDefinition, x.typeDefinition);
    around, value := BoundsFacts(c, ids, d, f1, x.enclosing, x.scope, x.constraint);
    OneVal(c, ids, d, ValueConstraintPlan(ScopePlan(f1, x.enclosing, x.scope), x.constraint), Nillable,
           BoolText(x.nillable));
  }

  lemma ElementBodyFacts(c: Memory, ids: Ids, d: seq<Obj>, x: ElementDecl, f: Facts)
    returns (keys: Items, affiliation: Items, list: seq<Items>)
    requires FactsIn(c, ids, d, ElementDeclHead(x)) == f.Text(Nillable, BoolText(x.nillable))
    ensures FactsIn(c, ids, d, ElementDeclBody(c, x)) == ElementRest(f, x, keys, affiliation, list)
    ensures ConstraintsTold(ids, ListOf(x.identityConstraints), Kids(keys))
    ensures x.identityConstraints.None? ==> keys == NO_ITEMS
    ensures LastReference(affiliation) == DeclNamed(ids, ElementDeclaration, x.affiliation)
    ensures x.affiliation.None? ==> affiliation == NO_ITEMS
    ensures AnnotationsTold(Chained(x.annotation), list)
  {
    hide View, FactsIn, Kids, ElementDeclHead, IdConstraintsPlan, DeclRef, AnnotationPlan, Nodes.Val, Facts.Text,
         DeclNamed, AnnotationsTold, ConstraintsTold, Maybe, MaybeNoted, BoolText;
    var f1 := IdConstraintsPlan(c, ElementDeclHead(x), x.identityConstraints);
    var f2 := DeclRef(f1, SubstitutionGroupAffiliation, ElementDeclaration, x.affiliation);
    var f3 := f2.Val(SubstitutionGroupExclusions, x.exclusions);
    var f4 := f3.Val(DisallowedSubstitutions, x.disallowed);
    keys := ConstraintListFacts(c, ids, d, ElementDeclHead(x), x.identityConstraints);
    affiliation := DeclRefFacts(c, ids, d, f1, SubstitutionGroupAffiliation, ElementDeclaration, x.affiliation);
    OneVal(c, ids, d, f2, SubstitutionGroupExclusions, x.exclusions);
    OneVal(c, ids, d, f3, DisallowedSubstitutions, x.disallowed);
    OneVal(c, ids, d, f4, Abstract, BoolText(x.isAbstract));
    list := AnnotationFacts(c, ids, d, f4.Val(Abstract, BoolText(x.isAbstract)), x.annotation);
  }

  /** The facts about an element declaration in front of its annotation. */
  function ElementProperties(f: Facts, x: ElementDecl, keys: Items, affiliation: Items): Facts {
    Maybe(Maybe(f.Text(Nillable, BoolText(x.nillable)), IdentityConstraintDefinitions, x.identityConstraints.None?,
                keys),
          SubstitutionGroupAffiliation, x.affiliation.None?, affiliation)
  }

  lemma ElementPropertiesFound(f: Facts, x: ElementDecl, keys: Items, affiliation: Items)
    requires f.annotations == [] && f.parts.Keys <= {TypeDefinition, Scope, Tag.ValueConstraint}
    requires (x.identityConstraints.None? ==> keys == NO_ITEMS) && (x.affiliation.None? ==> affiliation == NO_ITEMS)
    ensures var g := ElementProperties(f, x, keys, affiliation);
            && g.Sub(IdentityConstraintDefinitions) == keys && g.Sub(SubstitutionGroupAffiliation) == affiliation
            && g.Sub(TypeDefinition) == f.Sub(TypeDefinition)
            && g.Sub(Tag.ValueConstraint) == f.Sub(Tag.ValueConstraint)
            && (Scope in g.parts <==> Scope in f.parts) && g.Sub(Scope) == f.Sub(Scope) && g.annotations == []
  {
    if x.identityConstraints.None? {} else {}
    if x.affiliation.None? {} else {}
  }

  lemma ElementPropertyTexts(f: Facts, x: ElementDecl, keys: Items, affiliation: Items)
    ensures var g := ElementProperties(f, x, keys, affiliation);
            && g.Get(Nillable) == YesNo(x.nillable) && g.Get(Name) == f.Get(Name)
            && g.Get(TargetNamespace) == f.Get(TargetNamespace) && g.Get(Scope) == f.Get(Scope)
  {
    hide Maybe, Facts.Text, Facts.Get, BoolText, YesNo;
    var f1 := f.Text(Nillable, BoolText(x.nillable));
    NillableNext(f, x.nillable);
    KeepsTexts(f1, IdentityConstraintDefinitions, x.identityConstraints.None?, keys, Nillable, Name, TargetNamespace,
               Scope, Scope);
    KeepsTexts(Maybe(f1, IdentityConstraintDefinitions, x.identityConstraints.None?, keys),
               SubstitutionGroupAffiliation,
               x.affiliation.None?, affiliation, Nillable, Name, TargetNamespace, Scope, Scope);
  }

  lemma NillableNext(f: Facts, nillable: bool)
    ensures var g := f.Text(Nillable, BoolText(nillable));
            && g.Get(Nillable) == YesNo(nillable) && g.Get(Name) == f.Get(Name)
            && g.Get(TargetNamespace) == f.Get(TargetNamespace) && g.Get(Scope) == f.Get(Scope)
  {
  }

  /** The last three texts and the annotation. */
  lemma ElementLastFound(f: Facts, x: ElementDecl, list: seq<Items>)
    requires f.annotations == [] && AnnotationsTold(Chained(x.annotation), list)
    ensures var g := MaybeNoted(f.Text(SubstitutionGroupExclusions, x.exclusions)
                                .Text(DisallowedSubstitutions, x.disallowed).Text(Abstract, BoolText(x.isAbstract)),
                                x.annotation, list);
            && g.Get(SubstitutionGroupExclusions) == x.exclusions && g.Get(DisallowedSubstitutions) == x.disallowed
            && g.Get(Abstract) == YesNo(x.isAbstract) && AnnotationsTold(Chained(x.annotation), g.annotations)
            && g.parts == f.parts && g.refs == f.refs && g.Get(Nillable) == f.Get(Nillable)
            && g.Get(Name) == f.Get(Name)
            && g.Get(TargetNamespace) == f.Get(TargetNamespace) && g.Get(Scope) == f.Get(Scope)
  {
    hide AnnotationsTold;
    var before := f.Text(SubstitutionGroupExclusions, x.exclusions).Text(DisallowedSubstitutions, x.disallowed)
                  .Text(Abstract, BoolText(x.isAbstract));
    AnnotationsLast(before, x.annotation, list);
    if x.annotation.NoAnnotation? {} else {}
  }

  lemma ScopeKept(ids: Ids, f: Facts, g: Facts, enclosing: Option<Obj>, scope: ScopeKind)
    requires ScopeTold(ids, enclosing, scope, f) && g.Get(Scope) == f.Get(Scope)
    requires (Scope in g.parts <==> Scope in f.parts) && g.Sub(Scope) == f.Sub(Scope)
    ensures ScopeTold(ids, enclosing, scope, g)
  {
    hide FactsOf, Facts.RefAt, DeclNamed;
  }

  lemma ElementDescribed(c: Memory, ids: Ids, d: seq<Obj>, x: ElementDecl)
    requires ElementLinked(c, x)
    ensures ElementTold(c, ids, x, View(c, ids, d, ElementDeclBody(c, x)))
  {
    hide View, FactsIn, Kids, ElementDeclBody, ElementDeclHead, FactsOf, AnnotationsTold, ConstraintTold,
         ConstraintsTold, ScopeTold, ElementLinked, Bounds, ElementProperties, Maybe, MaybeNoted, Titled, Facts.Get,
         Facts.Sub, Facts.Text, Facts.RefAt, TypeNamed, DeclNamed, BoolText, YesNo, OnlyTyped;
    var typed, around, value := ElementHeadFacts(c, ids, d, x);
    var f0 := Maybe(Titled(x.name, x.namespace), TypeDefinition, x.typeDefinition.None?, typed);
    var f := Bounds(f0, x.scope, around, x.constraint, value);
    var keys, affiliation, list := ElementBodyFacts(c, ids, d, x, f);
    var g := ElementProperties(f, x, keys, affiliation);
    var told := ElementRest(f, x, keys, affiliation, list);
    TypedFound(x.name, x.namespace, x.typeDefinition.None?, typed);
    BoundsFound(ids, f0, x.enclosing, x.scope, around, x.constraint, value);
    ElementPropertiesFound(f, x, keys, affiliation);
    ElementPropertyTexts(f, x, keys, affiliation);
    RestIs(f, x, keys, affiliation, list);
    ElementLastFound(g, x, list);
    SamePartsSame(g, told);
    ScopeKept(ids, f, told, x.enclosing, x.scope);
    FactsOfItems(c, ids, d, ElementDeclBody(c, x));
  }

  lemma RestIs(f: Facts, x: ElementDecl, keys: Items, affiliation: Items, list: seq<Items>)
    ensures ElementRest(f, x, keys, affiliation, list)
         == MaybeNoted(ElementProperties(f, x, keys, affiliation).Text(SubstitutionGroupExclusions, x.exclusions)
                       .Text(DisallowedSubstitutions, x.disallowed).Text(Abstract, BoolText(x.isAbstract)),
                       x.annotation, list)
  {
    hide Maybe, MaybeNoted, Facts.Text;
  }

  lemma SamePartsSame(f: Facts, g: Facts)
    requires g.parts == f.parts
    ensures forall x: Tag :: g.Sub(x) == f.Sub(x)
  {
  }

  lemma TypedFound(name: string, namespace: string, absent: bool, typed: Items)
    requires absent ==> typed == NO_ITEMS
    ensures var f := Maybe(Titled(name, namespace), TypeDefinition, absent, typed);
            && f.Get(Name) == name && f.Get(TargetNamespace) == namespace && f.Sub(TypeDefinition) == typed
            && OnlyTyped(f)
  {
    if absent {} else {}
  }

  lemma AttributeFacts(c: Memory, ids: Ids, d: seq<Obj>, x: AttributeDecl)
    returns (typed: Items, around: Items, value: Items, list: seq<Items>)
    requires SimpleLink(c, x.typeDefinition)
    ensures FactsIn(c, ids, d, AttributeDeclBody(x))
         == MaybeNoted(Bounds(Titled(x.name, x.namespace).Part(TypeDefinition, typed), x.scope, around, x.constraint,
                              value),
                       x.annotation, list)
    ensures FactsOf(typed).RefAt(SimpleTypeDefinition) == DeclNamed(ids, SimpleTypeDefinition, x.typeDefinition)
    ensures FactsOf(around).RefAt(ComplexTypeDefinition) == DeclNamed(ids, ComplexTypeDefinition, x.enclosing)
    ensures ConstraintTold(x.constraint, value) && (x.constraint.Unconstrained? ==> value == NO_ITEMS)
    ensures AnnotationsTold(Chained(x.annotation), list)
  {
    hide View, FactsIn, Now, DeclHere, ScopePlan, ValueConstraintPlan, AnnotationPlan, Nodes.Val, Nodes.Group, FactsOf,
         Facts.RefAt, Facts.Text, Facts.Part, DeclNamed, ConstraintTold, AnnotationsTold, Maybe, MaybeNoted, Titled,
         Bounds;
    var f0 := Start.Val(Name, x.name).Val(TargetNamespace, x.namespace);
    var body := DeclHere(Start, SimpleTypeDefinition, x.typeDefinition);
    var f1 := f0.Group(TypeDefinition, body);
    var f2 := ValueConstraintPlan(ScopePlan(f1, x.enclosing, x.scope), x.constraint);
    NameFacts(c, ids, d, x.name, x.namespace);
    OneGroup(c, ids, d, f0, TypeDefinition, body);
    typed := View(c, ids, Now(c, d, f0), body);
    SimpleDeclDescribed(c, ids, Now(c, d, f0), x.typeDefinition);
    around, value := BoundsFacts(c, ids, d, f1, x.enclosing, x.scope, x.constraint);
    list := AnnotationFacts(c, ids, d, f2, x.annotation);
  }

  lemma SimpleDeclDescribed(c: Memory, ids: Ids, d: seq<Obj>, o: Option<Obj>)
    requires SimpleLink(c, o)
    ensures FactsOf(View(c, ids, d, DeclHere(Start, SimpleTypeDefinition, o))).RefAt(SimpleTypeDefinition)
         == DeclNamed(ids, SimpleTypeDefinition, o)
  {
    hide View, FactsIn, DeclHere, FactsOf;
    SimpleTag(c, o);
    ViewStart(c, ids, d);
    var items := DeclFacts(c, ids, d, Start, SimpleTypeDefinition, o);
    FactsOfItems(c, ids, d, DeclHere(Start, SimpleTypeDefinition, o));
  }

  lemma AttributeDescribed(c: Memory, ids: Ids, d: seq<Obj>, x: AttributeDecl)
    requires SimpleLink(c, x.typeDefinition)
    ensures AttributeTold(ids, x, View(c, ids, d, AttributeDeclBody(x)))
  {
    hide View, FactsIn, AttributeDeclBody, FactsOf, AnnotationsTold, ConstraintTold, ScopeTold, SimpleLink, Bounds,
         Maybe, MaybeNoted, Titled, Facts.Get, Facts.Sub, Facts.RefAt, DeclNamed, OnlyTyped;
    var typed, around, value, list := AttributeFacts(c, ids, d, x);
    var f0 := Titled(x.name, x.namespace).Part(TypeDefinition, typed);
    var f := Bounds(f0, x.scope, around, x.constraint, value);
    var told := MaybeNoted(f, x.annotation, list);
    TypedFound(x.name, x.namespace, false, typed);
    PartIs(Titled(x.name, x.namespace), TypeDefinition, typed);
    BoundsFound(ids, f0, x.enclosing, x.scope, around, x.constraint, value);
    NotedFound(f, x.annotation, list);
    SamePartsSame(f, told);
    ScopeKept(ids, f, told, x.enclosing, x.scope);
    FactsOfItems(c, ids, d, AttributeDeclBody(x));
  }

  lemma PartIs(f: Facts, tag: Tag, items: Items)
    ensures Maybe(f, tag, false, items) == f.Part(tag, items)
  {
  }

  /** An annotation changes no other text. */
  lemma NotedFound(f: Facts, a: Annotation, list: seq<Items>)
    requires f.annotations == [] && AnnotationsTold(Chained(a), list)
    ensures var g := MaybeNoted(f, a, list);
            && AnnotationsTold(Chained(a), g.annotations) && g.parts == f.parts && g.refs == f.refs
            && g.Get(Name) == f.Get(Name) && g.Get(TargetNamespace) == f.Get(TargetNamespace)
            && g.Get(Scope) == f.Get(Scope) && g.Get(SystemIdentifier) == f.Get(SystemIdentifier)
            && g.Get(PublicIdentifier) == f.Get(PublicIdentifier)
  {
    hide AnnotationsTold;
    AnnotationsLast(f, a, list);
    if a.NoAnnotation? {} else {}
  }

  // -------------------------------------------------------------------------
  //  Groups, notations and identity constraints
  // -------------------------------------------------------------------------

  function GroupSections(x: AttributeGroup, uses: Items, wildcard: Items): Facts {
    Maybe(Maybe(Titled(x.name, x.namespace), Tag.AttributeUses, x.attributeUses.None?, uses), AttributeWildcard,
          x.attributeWildcard.NoWildcard?, wildcard)
  }

  lemma AttributeGroupFacts(c: Memory, ids: Ids, d: seq<Obj>, x: AttributeGroup)
    returns (uses: Items, wildcard: Items, list: seq<Items>)
    requires UsesLinked(c, x.attributeUses)
    ensures FactsIn(c, ids, d, AttributeGroupBody(x))
            == MaybeNoted(GroupSections(x, uses, wildcard), x.annotation, list)
    ensures UsesTold(ids, x.attributeUses, Kids(uses)) && (x.attributeUses.None? ==> uses == NO_ITEMS)
    ensures WildcardTold(x.attributeWildcard, FactsOf(wildcard).Sub(Tag.Wildcard))
    ensures x.attributeWildcard.NoWildcard? ==> wildcard == NO_ITEMS
    ensures AnnotationsTold(Chained(x.annotation), list)
  {
    hide View, FactsIn, Kids, AttributeUsesPlan, AttributeWildcardPlan, AnnotationPlan, Nodes.Val, FactsOf, UsesTold,
         WildcardTold, AnnotationsTold, UsesLinked, Maybe, MaybeNoted, Titled, Facts.Sub;
    var f0 := Start.Val(Name, x.name).Val(TargetNamespace, x.namespace);
    var f1 := AttributeUsesPlan(f0, x.attributeUses);
    NameFacts(c, ids, d, x.name, x.namespace);
    uses := UsesFacts(c, ids, d, f0, x.attributeUses);
    wildcard := AttributeWildcardFacts(c, ids, d, f1, x.attributeWildcard);
    list := AnnotationFacts(c, ids, d, AttributeWildcardPlan(f1, x.attributeWildcard), x.annotation);
  }

  lemma GroupSectionsFound(x: AttributeGroup, uses: Items, wildcard: Items)
    requires (x.attributeUses.None? ==> uses == NO_ITEMS) && (x.attributeWildcard.NoWildcard? ==> wildcard == NO_ITEMS)
    ensures var f := GroupSections(x, uses, wildcard);
            && f.Sub(Tag.AttributeUses) == uses && f.Sub(AttributeWildcard) == wildcard && f.annotations == []
            && f.Get(Name) == x.name && f.Get(TargetNamespace) == x.namespace
  {
    if x.attributeUses.None? {} else {}
    if x.attributeWildcard.NoWildcard? {} else {}
  }

  lemma AttributeGroupDescribed(c: Memory, ids: Ids, d: seq<Obj>, x: AttributeGroup)
    requires UsesLinked(c, x.attributeUses)
    ensures AttributeGroupTold(ids, x, View(c, ids, d, AttributeGroupBody(x)))
  {
    hide View, FactsIn, Kids, AttributeGroupBody, FactsOf, UsesTold, WildcardTold, AnnotationsTold, UsesLinked,
         GroupSections, MaybeNoted, Facts.Get, Facts.Sub;
    var uses, wildcard, list := AttributeGroupFacts(c, ids, d, x);
    var f := GroupSections(x, uses, wildcard);
    GroupSectionsFound(x, uses, wildcard);
    NotedFound(f, x.annotation, list);
    SamePartsSame(f, MaybeNoted(f, x.annotation, list));
    FactsOfItems(c, ids, d, AttributeGroupBody(x));
  }

  lemma GroupSectionFound(name: string, namespace: string, absent: bool, items: Items)
    requires absent ==> items == NO_ITEMS
    ensures var f := Maybe(Titled(name, namespace), Tag.ModelGroup, absent, items);
            && f.Get(Name) == name && f.Get(TargetNamespace) == namespace && f.Sub(Tag.ModelGroup) == items
            && f.annotations == []
  {
    if absent {} else {}
  }

  lemma ModelGroupDefDescribed(c: Memory, ids: Ids, d: seq<Obj>, x: ModelGroupDef)
    requires GroupLinked(c, x.group)
    ensures ModelGroupDefTold(ids, x, View(c, ids, d, ModelGroupDefBody(x)))
  {
    hide View, FactsIn, ModelGroupPlan, AnnotationPlan, Nodes.Val, FactsOf, GroupTold, AnnotationsTold, GroupLinked,
         Maybe, MaybeNoted, Titled, Facts.Get, Facts.Sub;
    var f0 := Start.Val(Name, x.name).Val(TargetNamespace, x.namespace);
    NameFacts(c, ids, d, x.name, x.namespace);
    var items := GroupFacts(c, ids, d, f0, x.group);
    var list := AnnotationFacts(c, ids, d, ModelGroupPlan(f0, x.group), x.annotation);
    var f := Maybe(Titled(x.name, x.namespace), Tag.ModelGroup, x.group.NoGroup?, items);
    GroupSectionFound(x.name, x.namespace, x.group.NoGroup?, items);
    NotedFound(f, x.annotation, list);
    SamePartsSame(f, MaybeNoted(f, x.annotation, list));
    FactsOfItems(c, ids, d, ModelGroupDefBody(x));
  }

  lemma NotationTextsFound(x: NotationDecl)
    ensures var f := Titled(x.name, x.namespace).Text(SystemIdentifier, x.systemId).Text(PublicIdentifier, x.publicId);
            && f.Get(Name) == x.name && f.Get(TargetNamespace) == x.namespace && f.Get(SystemIdentifier) == x.systemId
            && f.Get(PublicIdentifier) == x.publicId && f.annotations == []
  {
  }

  lemma NotationDescribed(c: Memory, ids: Ids, d: seq<Obj>, x: NotationDecl)
    ensures NotationTold(x, View(c, ids, d, NotationDeclBody(x)))
  {
    hide View, FactsIn, AnnotationPlan, Nodes.Val, FactsOf, AnnotationsTold, MaybeNoted, Titled, Facts.Get, Facts.Text;
    var f0 := Start.Val(Name, x.name).Val(TargetNamespace, x.namespace);
    var f1 := f0.Val(SystemIdentifier, x.systemId);
    NameFacts(c, ids, d, x.name, x.namespace);
    OneVal(c, ids, d, f0, SystemIdentifier, x.systemId);
    OneVal(c, ids, d, f1, PublicIdentifier, x.publicId);
    var list := AnnotationFacts(c, ids, d, f1.Val(PublicIdentifier, x.publicId), x.annotation);
    NotationTextsFound(x);
    NotedFound(Titled(x.name, x.namespace).Text(SystemIdentifier, x.systemId).Text(PublicIdentifier, x.publicId),
               x.annotation, list);
    FactsOfItems(c, ids, d, NotationDeclBody(x));
  }

  /** A reference, or the nil form. */
  function MaybeNamed(f: Facts, tag: Tag, o: Option<Obj>, id: string): Facts {
    if o.None? then f.Text(tag, "") else f.Named(tag, id)
  }

  function KeyFacts(x: IdConstraint, selector: Items, fields: Items, id: string, annotations: Items): Facts {
    Maybe(MaybeNamed(Titled(x.name, x.namespace).Text(IdentityConstraintCategory, x.category).Part(Selector, selector)
                     .Part(Fields, fields), ReferencedKey, x.refKey, id),
          Annotations, x.annotations.None?, annotations)
  }

  lemma SelectorFacts(c: Memory, ids: Ids, d: seq<Obj>, pre: Nodes, path: string) returns (items: Items)
    ensures FactsIn(c, ids, d, SelectorPlan(pre, path)) == FactsIn(c, ids, d, pre).Part(Selector, items)
    ensures FactsOf(FactsOf(items).Sub(XPath)).Get(XPath) == path
  {
    hide View, FactsIn, Now, XPathPlan, Nodes.Group, FactsOf;
    var d1 := Now(c, d, pre);
    OneGroup(c, ids, d, pre, Selector, XPathPlan(Start, path));
    items := View(c, ids, d1, XPathPlan(Start, path));
    FactsOfItems(c, ids, d1, XPathPlan(Start, path));
    ViewStart(c, ids, d1);
    var inner := XPathFacts(c, ids, d1, Start, path);
  }

  lemma FieldsFacts(c: Memory, ids: Ids, d: seq<Obj>, pre: Nodes, fields: seq<string>) returns (items: Items)
    ensures FactsIn(c, ids, d, FieldsPlan(pre, fields)) == FactsIn(c, ids, d, pre).Part(Fields, items)
    ensures FieldsTold(fields, Kids(items))
  {
    hide View, FactsIn, Now, Kids, FieldNodes, Nodes.Group, FieldTold;
    OneGroup(c, ids, d, pre, Fields, FieldNodes(fields, |fields|));
    items := View(c, ids, Now(c, d, pre), FieldNodes(fields, |fields|));
    FieldsDescribed(c, ids, Now(c, d, pre), fields, |fields|);
    assert fields[..|fields|] == fields;
  }

  lemma IdConstraintFacts(c: Memory, ids: Ids, d: seq<Obj>, x: IdConstraint)
    returns (selector: Items, fields: Items, annotations: Items)
    ensures var id := if x.refKey.None? then "" else IdOf(ids, x.refKey.value);
            FactsIn(c, ids, d, IdConstraintBody(x)) == KeyFacts(x, selector, fields, id, annotations)
    ensures FactsOf(FactsOf(selector).Sub(XPath)).Get(XPath) == x.selector && FieldsTold(x.fields, Kids(fields))
    ensures AnnotationListTold(x.annotations, annotations) && (x.annotations.None? ==> annotations == NO_ITEMS)
  {
    hide View, FactsIn, Kids, SelectorPlan, FieldsPlan, AnnotationsPlan, Nodes.Val, Nodes.Ref, FactsOf, FieldsTold,
         AnnotationListTold, Maybe, Titled, Facts.Get, Facts.Sub, Facts.Text, Facts.Part, Facts.Named;
    var f0 := Start.Val(Name, x.name).Val(TargetNamespace, x.namespace);
    var f1 := IdConstraintHead(x);
    var f2 := SelectorPlan(f1, x.selector);
    var f3 := FieldsPlan(f2, x.fields);
    NameFacts(c, ids, d, x.name, x.namespace);
    OneVal(c, ids, d, f0, IdentityConstraintCategory, x.category);
    selector := SelectorFacts(c, ids, d, f1, x.selector);
    fields := FieldsFacts(c, ids, d, f2, x.fields);
    ReadBack.RefFacts(c, ids, d, f3, ReferencedKey, x.refKey);
    annotations := AnnotationListFacts(c, ids, d, f3.Ref(ReferencedKey, x.refKey), x.annotations);
  }

  lemma KeyHeadFound(x: IdConstraint, selector: Items, fields: Items)
    ensures var f := Titled(x.name, x.namespace).Text(IdentityConstraintCategory, x.category).Part(Selector, selector)
                     .Part(Fields, fields);
            && f.Get(Name) == x.name && f.Get(TargetNamespace) == x.namespace
            && f.Get(IdentityConstraintCategory) == x.category && f.Sub(Selector) == selector && f.Sub(Fields) == fields
            && Annotations !in f.parts && f.refs == map[]
  {
  }

  lemma KeyLastFound(ids: Ids, f: Facts, x: IdConstraint, annotations: Items)
    requires Annotations !in f.parts && f.refs == map[] && (x.annotations.None? ==> annotations == NO_ITEMS)
    ensures var id := if x.refKey.None? then "" else IdOf(ids, x.refKey.value);
            var g := Maybe(MaybeNamed(f, ReferencedKey, x.refKey, id), Annotations, x.annotations.None?, annotations);
            && g.RefAt(ReferencedKey) == DeclNamed(ids, ReferencedKey, x.refKey) && g.Sub(Annotations) == annotations
            && g.Get(Name) == f.Get(Name) && g.Get(TargetNamespace) == f.Get(TargetNamespace)
            && g.Get(IdentityConstraintCategory) == f.Get(IdentityConstraintCategory)
            && g.Sub(Selector) == f.Sub(Selector) && g.Sub(Fields) == f.Sub(Fields)
  {
    if x.refKey.None? {} else {}
    if x.annotations.None? {} else {}
  }

  lemma IdConstraintDescribed(c: Memory, ids: Ids, d: seq<Obj>, x: IdConstraint)
    ensures IdConstraintTold(ids, x, View(c, ids, d, IdConstraintBody(x)))
  {
    hide View, FactsIn, Kids, IdConstraintBody, FactsOf, FieldsTold, AnnotationListTold, Maybe, MaybeNamed, Titled,
         Facts.Get, Facts.Sub, Facts.Text, Facts.Part, Facts.RefAt, DeclNamed;
    var selector, fields, annotations := IdConstraintFacts(c, ids, d, x);
    KeyHeadFound(x, selector, fields);
    KeyLastFound(ids, Titled(x.name, x.namespace).Text(IdentityConstraintCategory, x.category).Part(Selector, selector)
                      .Part(Fields, fields), x, annotations);
    FactsOfItems(c, ids, d, IdConstraintBody(x));
  }

  // -------------------------------------------------------------------------
  //  All components
  // -------------------------------------------------------------------------

  /** Whatever was defined before: the contents of a component describe it. */
  lemma ContentsDescribe(c: Graph, ids: Ids, d: seq<Obj>, o: Obj)
    requires o in c
    ensures Describes(c, ids, c[o], TagOf(c, o), View(c, ids, d, Contents(c, o)))
  {
    hide View, ComplexTypeBody, SimpleTypeBody, ElementDeclBody, AttributeDeclBody, AttributeGroupBody,
         ModelGroupDefBody, NotationDeclBody, IdConstraintBody, ComplexTypeTold, SimpleTypeTold, ElementTold,
         AttributeTold, AttributeGroupTold, ModelGroupDefTold, NotationTold, IdConstraintTold, ComplexTypeLinked,
         SimpleTypeLinked, ElementLinked, GroupLinked, UsesLinked;
    assert Linked(c, c[o]);
    match c[o]
    case OfComplexType(x) => ComplexTypeDescribed(c, ids, d, x);
    case OfSimpleType(x) => SimpleTypeDescribed(c, ids, d, x);
    case OfElement(x) => ElementDescribed(c, ids, d, x);
    case OfAttribute(x) => AttributeDescribed(c, ids, d, x);
    case OfAttributeGroup(x) => AttributeGroupDescribed(c, ids, d, x);
    case OfModelGroup(x) => ModelGroupDefDescribed(c, ids, d, x);
    case OfNotation(x) => NotationDescribed(c, ids, d, x);
    case OfConstraint(x) => IdConstraintDescribed(c, ids, d, x);
  }

  // -------------------------------------------------------------------------
  //  Schema models
  // -------------------------------------------------------------------------

  lemma TagOfKind(c: Memory, o: Obj)
    requires o in c
    ensures TagOf(c, o) == KindTag(c[o])
  {
  }

  lemma DefinitionAdded(c: Memory, ids: Ids, list: seq<Obj>, kids: seq<Item>, o: Obj, item: Item)
    requires DefinitionsTold(c, ids, list, kids) && o in c
    requires ReferenceOf(item) == Reference(KindTag(c[o]), IdOf(ids, o))
    ensures DefinitionsTold(c, ids, list + [o], kids + [item])
  {
    hide ReferenceOf, KindTag;
  }

  lemma DefinitionNamed(ids: Ids, tag: Tag, o: Obj, items: Items)
    ensures ReferenceOf(Reader.Elem(tag, IdAttrs(ids, o), items)) == Reference(tag, IdOf(ids, o))
  {
  }

  lemma OneDescribed(c: Memory, ids: Ids, d: seq<Obj>, pre: Nodes, list: seq<Obj>, o: Obj)
    requires o in c && DefinitionsTold(c, ids, list, Kids(View(c, ids, d, pre)))
    ensures DefinitionsTold(c, ids, list + [o], Kids(View(c, ids, d, pre.Defined(TagOf(c, o), o, Contents(c, o)))))
  {
    hide View, Kids, Now, Contents, Nodes.Defined, TagOf, KindTag, DefinitionsTold, IdAttrs, ReferenceOf;
    OneDefinition(c, ids, d, pre, TagOf(c, o), o, Contents(c, o));
    TagOfKind(c, o);
    var items := View(c, ids, Now(c, d, pre) + [o], Contents(c, o));
    DefinitionNamed(ids, TagOf(c, o), o, items);
    DefinitionAdded(c, ids, list, Kids(View(c, ids, d, pre)), o, Reader.Elem(TagOf(c, o), IdAttrs(ids, o), items));
  }

  lemma DefinitionsNext(c: Memory, pre: Nodes, list: seq<Obj>, n: nat)
    requires n <= |list|
    ensures DefinitionNodes(c, pre, list, n)
         == if n == 0 then pre
            else
              var o := list[n - 1];
              DefinitionNodes(c, pre, list, n - 1).Defined(TagOf(c, o), o, Contents(c, o))
  {
    hide Contents, Nodes.Defined, TagOf;
  }

  lemma {:induction false} DefinitionsDescribed(c: Memory, ids: Ids, d: seq<Obj>, pre: Nodes, before: seq<Obj>,
                                                list: seq<Obj>, n: nat)
    requires n <= |list| && (forall i :: 0 <= i < |list| ==> list[i] in c)
    requires DefinitionsTold(c, ids, before, Kids(View(c, ids, d, pre)))
    ensures DefinitionsTold(c, ids, before + list[..n], Kids(View(c, ids, d, DefinitionNodes(c, pre, list, n))))
    decreases n
  {
    hide View, Kids, Contents, Nodes.Defined, TagOf, DefinitionsTold, DefinitionNodes;
    DefinitionsNext(c, pre, list, n);
    if n == 0 {
      assert before + list[..0] == before;
    } else {
      DefinitionsDescribed(c, ids, d, pre, before, list, n - 1);
      OneDescribed(c, ids, d, DefinitionNodes(c, pre, list, n - 1), before + list[..n - 1], list[n - 1]);
      assert before + list[..n] == before + list[..n - 1] + [list[n - 1]];
    }
  }

  lemma AllDescribed(c: Memory, ids: Ids, d: seq<Obj>, pre: Nodes, before: seq<Obj>, list: seq<Obj>)
    requires forall i :: 0 <= i < |list| ==> list[i] in c
    requires DefinitionsTold(c, ids, before, Kids(View(c, ids, d, pre)))
    ensures DefinitionsTold(c, ids, before + list, Kids(View(c, ids, d, AllDefinitions(c, pre, list))))
  {
    hide View, Kids, DefinitionNodes, DefinitionsTold;
    DefinitionsDescribed(c, ids, d, pre, before, list, |list|);
    assert list[..|list|] == list;
  }

  lemma ComponentsDescribed(c: Memory, ids: Ids, d: seq<Obj>, x: NamespaceItem)
    requires ItemLinked(c, x)
    ensures DefinitionsTold(c, ids,
                            x.types + x.attributes + x.elements + x.attributeGroups + x.modelGroups + x.notations,
                            Kids(View(c, ids, d, ComponentsBody(c, x))))
  {
    hide View, Kids, AllDefinitions, DefinitionsTold;
    var typed := AllDefinitions(c, Start, x.types);
    var attributed := AllDefinitions(c, typed, x.attributes);
    var declared := AllDefinitions(c, attributed, x.elements);
    var grouped := AllDefinitions(c, declared, x.attributeGroups);
    var modelled := AllDefinitions(c, grouped, x.modelGroups);
    NoneDefined(c, ids, d);
    AllDescribed(c, ids, d, Start, [], x.types);
    assert [] + x.types == x.types;
    AllDescribed(c, ids, d, typed, x.types, x.attributes);
    AllDescribed(c, ids, d, attributed, x.types + x.attributes, x.elements);
    AllDescribed(c, ids, d, declared, x.types + x.attributes + x.elements, x.attributeGroups);
    AllDescribed(c, ids, d, grouped, x.types + x.attributes + x.elements + x.attributeGroups, x.modelGroups);
    AllDescribed(c, ids, d, modelled, x.types + x.attributes + x.elements + x.attributeGroups + x.modelGroups,
                 x.notations);
  }

  lemma NoneDefined(c: Memory, ids: Ids, d: seq<Obj>)
    ensures DefinitionsTold(c, ids, [], Kids(View(c, ids, d, Start)))
  {
    hide View;
    ViewStart(c, ids, d);
  }

  lemma LocationDescribed(c: Memory, ids: Ids, d: seq<Obj>, location: string)
    ensures LocationTold(location, Reader.Elem(SchemaDocument, [],
                                               View(c, ids, d, Start.Val(DocumentLocation, location)
                                                               .Absent(PsvDocument))))
  {
    hide View, FactsIn, Nodes.Val, Nodes.Absent;
    var f1 := Start.Val(DocumentLocation, location);
    OneVal(c, ids, d, Start, DocumentLocation, location);
    OneNil(c, ids, d, f1, PsvDocument);
    FactsOfItems(c, ids, d, f1.Absent(PsvDocument));
  }

  lemma LocationAdded(locations: seq<string>, kids: seq<Item>, location: string, item: Item)
    requires LocationsTold(locations, kids) && LocationTold(location, item)
    ensures LocationsTold(locations + [location], kids + [item])
  {
    hide LocationTold;
  }

  lemma OneLocation(c: Memory, ids: Ids, d: seq<Obj>, pre: Nodes, locations: seq<string>, location: string)
    requires LocationsTold(locations, Kids(View(c, ids, d, pre)))
    ensures var body := Start.Val(DocumentLocation, location).Absent(PsvDocument);
            LocationsTold(locations + [location], Kids(View(c, ids, d, pre.Group(SchemaDocument, body))))
  {
    hide View, FactsIn, Kids, Now, LocationTold, LocationsTold, Nodes.Val, Nodes.Absent, Nodes.Group;
    var body := Start.Val(DocumentLocation, location).Absent(PsvDocument);
    OneGroup(c, ids, d, pre, SchemaDocument, body);
    LocationDescribed(c, ids, Now(c, d, pre), location);
    LocationAdded(locations, Kids(View(c, ids, d, pre)), location,
                  Reader.Elem(SchemaDocument, [], View(c, ids, Now(c, d, pre), body)));
  }

  lemma {:induction false} LocationsDescribed(c: Memory, ids: Ids, d: seq<Obj>, locations: seq<string>, n: nat)
    requires n <= |locations|
    ensures LocationsTold(locations[..n], Kids(View(c, ids, d, LocationNodes(locations, n))))
    decreases n
  {
    hide View, Kids, LocationsTold, Nodes.Val, Nodes.Absent, Nodes.Group;
    if n == 0 {
      ViewStart(c, ids, d);
      NoLocations();
    } else {
      LocationsDescribed(c, ids, d, locations, n - 1);
      OneLocation(c, ids, d, LocationNodes(locations, n - 1), locations[..n - 1], locations[n - 1]);
      assert locations[..n] == locations[..n - 1] + [locations[n - 1]];
    }
  }

  lemma NoLocations()
    ensures LocationsTold([], [])
  {
  }

  lemma SchemaAnnotationFacts(c: Memory, ids: Ids, d: seq<Obj>, pre: Nodes, list: Option<seq<Annotation>>)
    returns (items: Items)
    ensures FactsIn(c, ids, d, SchemaAnnotationsPlan(pre, list))
         == Maybe(FactsIn(c, ids, d, pre), SchemaAnnotations, list.None? || list.value == [], items)
    ensures AnnotationListTold(list, items) && (list.None? || list.value == [] ==> items == NO_ITEMS)
  {
    hide View, FactsIn, Now, AnnotationNodes, AnnotationsTold, Nodes.Group, Nodes.Absent;
    Nothing();
    if list.None? || list.value == [] {
      OneNil(c, ids, d, pre, SchemaAnnotations);
      items := NO_ITEMS;
      NoneTold();
    } else {
      var d1 := Now(c, d, pre);
      OneGroup(c, ids, d, pre, SchemaAnnotations, AnnotationNodes(list.value, |list.value|));
      items := View(c, ids, d1, AnnotationNodes(list.value, |list.value|));
      FactsOfItems(c, ids, d1, AnnotationNodes(list.value, |list.value|));
      AnnotationListDescribed(c, ids, d1, list.value, |list.value|);
      assert list.value[..|list.value|] == list.value;
    }
  }

  function NamespaceFacts(namespace: string, components: Items, documents: Items, absent: bool,
                          annotations: Items): Facts {
    Maybe(NO_FACTS.Text(SchemaNamespace, namespace).Part(SchemaComponents, components).Part(SchemaDocuments, documents),
          SchemaAnnotations, absent, annotations)
  }

  lemma NamespaceFound(namespace: string, components: Items, documents: Items, absent: bool, annotations: Items)
    requires absent ==> annotations == NO_ITEMS
    ensures var f := NamespaceFacts(namespace, components, documents, absent, annotations);
            && f.Get(SchemaNamespace) == namespace && f.Sub(SchemaComponents) == components
            && f.Sub(SchemaDocuments) == documents && f.Sub(SchemaAnnotations) == annotations
  {
    if absent {} else {}
  }

  lemma NamespaceBodyFacts(c: Memory, ids: Ids, d: seq<Obj>, x: NamespaceItem)
    returns (components: Items, documents: Items, annotations: Items)
    requires ItemLinked(c, x)
    ensures var none := x.annotations.None? || x.annotations.value == [];
            && FactsIn(c, ids, d, NamespaceItemBody(c, x))
               == NamespaceFacts(x.namespace, components, documents, none, annotations)
            && (none ==> annotations == NO_ITEMS)
    ensures DefinitionsTold(c, ids,
                            x.types + x.attributes + x.elements + x.attributeGroups + x.modelGroups + x.notations,
                            Kids(components))
    ensures LocationsTold(x.locations, Kids(documents)) && AnnotationListTold(x.annotations, annotations)
  {
    hide View, FactsIn, Kids, Now, ComponentsBody, LocationNodes, SchemaAnnotationsPlan, Nodes.Val, Nodes.Group,
         DefinitionsTold, LocationsTold, AnnotationListTold, Maybe, Facts.Text, Facts.Part, ItemLinked;
    var f1 := Start.Val(SchemaNamespace, x.namespace);
    var f2 := f1.Group(SchemaComponents, ComponentsBody(c, x));
    var f3 := f2.Group(SchemaDocuments, LocationNodes(x.locations, |x.locations|));
    ViewStart(c, ids, d);
    OneVal(c, ids, d, Start, SchemaNamespace, x.namespace);
    OneGroup(c, ids, d, f1, SchemaComponents, ComponentsBody(c, x));
    components := View(c, ids, Now(c, d, f1), ComponentsBody(c, x));
    ComponentsDescribed(c, ids, Now(c, d, f1), x);
    OneGroup(c, ids, d, f2, SchemaDocuments, LocationNodes(x.locations, |x.locations|));
    documents := View(c, ids, Now(c, d, f2), LocationNodes(x.locations, |x.locations|));
    LocationsDescribed(c, ids, Now(c, d, f2), x.locations, |x.locations|);
    assert x.locations[..|x.locations|] == x.locations;
    annotations := SchemaAnnotationFacts(c, ids, d, f3, x.annotations);
  }

  lemma NamespaceDescribed(c: Memory, ids: Ids, d: seq<Obj>, x: NamespaceItem)
    requires ItemLinked(c, x)
    ensures NamespaceTold(c, ids, x,
                          Reader.Elem(NamespaceSchemaInformation, [], View(c, ids, d, NamespaceItemBody(c, x))))
  {
    hide View, FactsIn, Kids, NamespaceItemBody, FactsOf, DefinitionsTold, LocationsTold, AnnotationListTold,
         ItemLinked, NamespaceFacts, Facts.Get, Facts.Sub;
    var components, documents, annotations := NamespaceBodyFacts(c, ids, d, x);
    NamespaceFound(x.namespace, components, documents, x.annotations.None? || x.annotations.value == [], annotations);
    FactsOfItems(c, ids, d, NamespaceItemBody(c, x));
  }

  lemma {:induction false} ForeignMore(items: seq<NamespaceItem>, x: NamespaceItem)
    ensures Foreign(items + [x]) == Foreign(items) + if x.namespace == XML_SCHEMA_URI then [] else [x]
    decreases |items|
  {
    var s := items + [x];
    if items == [] {
      assert s[1..] == [];
    } else {
      assert s[1..] == items[1..] + [x];
      ForeignMore(items[1..], x);
    }
  }

  lemma SchemaAdded(c: Memory, ids: Ids, items: seq<NamespaceItem>, kids: seq<Item>, x: NamespaceItem, item: Item)
    requires SchemaTold(c, ids, items, kids)
    requires x.namespace != XML_SCHEMA_URI ==> NamespaceTold(c, ids, x, item)
    ensures SchemaTold(c, ids, items + [x], if x.namespace == XML_SCHEMA_URI then kids else kids + [item])
  {
    hide NamespaceTold, Foreign;
    ForeignMore(items, x);
    assert Foreign(items) + [] == Foreign(items);
    if x.namespace == XML_SCHEMA_URI {} else {}
  }

  lemma {:induction false} SchemaDescribed(c: Memory, ids: Ids, d: seq<Obj>, items: seq<NamespaceItem>, n: nat)
    requires n <= |items| && forall i :: 0 <= i < |items| ==> ItemLinked(c, items[i])
    ensures SchemaTold(c, ids, items[..n], Kids(View(c, ids, d, NamespaceItemNodes(c, items, n))))
    decreases n
  {
    hide View, FactsIn, Kids, Now, NamespaceItemBody, NamespaceTold, ItemLinked, Nodes.Group, SchemaTold;
    if n == 0 {
      ViewStart(c, ids, d);
      NoSchemaTold(c, ids);
    } else {
      var x, front := items[n - 1], NamespaceItemNodes(c, items, n - 1);
      var d1 := Now(c, d, front);
      SchemaDescribed(c, ids, d, items, n - 1);
      assert items[..n] == items[..n - 1] + [x];
      OneGroup(c, ids, d, front, NamespaceSchemaInformation, NamespaceItemBody(c, x));
      NamespaceDescribed(c, ids, d1, x);
      SchemaAdded(c, ids, items[..n - 1], Kids(View(c, ids, d, front)), x,
                  Reader.Elem(NamespaceSchemaInformation, [], View(c, ids, d1, NamespaceItemBody(c, x))));
    }
  }

  lemma NoSchemaTold(c: Memory, ids: Ids)
    ensures SchemaTold(c, ids, [], [])
  {
  }
}
