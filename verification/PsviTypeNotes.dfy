/**
 * What showing a simple type in place does to the places noted: a fold over the parts of the type in the order in
 * which they are printed, which is proved of the walk over its trees.
 */
module PsviTypeNotes {
  import opened Options
  import opened PsviOutput
  import opened PsviComponents
  import opened PsviPlans
  import opened PsviUses
  import opened PsviExpansion
  import opened PsviPlaces

  /** What matters for the places noted: the objects defined and the places themselves. */
  datatype Notebook = Notebook(defined: seq<Obj>, notes: seq<nat>)

  /** The notebook after the trees f. */
  function After(c: Memory, b: Notebook, f: Nodes): Notebook {
    Notebook(Now(c, b.defined, f), NotesIn(Expand(c, b.defined, f), b.notes))
  }

  function AfterNode(c: Memory, b: Notebook, n: Node): Notebook {
    var s := Step(c, b.defined, n);
    Notebook(b.defined + FixedNode(s), NotesInNode(s, b.notes))
  }

  // -------------------------------------------------------------------------
  //  The parts of a type
  // -------------------------------------------------------------------------

  /** The annotation printed last for a. */
  function LastOf(a: Annotation): (r: Annotation)
    requires a.Annotation?
    ensures r.Annotation?
  {
    if a.next.NoAnnotation? then a else LastOf(a.next)
  }

  function PlacesOf(a: Annotation): seq<nat>
    requires a.Annotation?
  {
    NamespaceIndices(LastOf(a).attrs, |LastOf(a).attrs|)
  }

  /** An annotation that is there replaces the places noted before. */
  function AfterAnnotation(b: Notebook, a: Annotation): Notebook {
    if a.NoAnnotation? then b else b.(notes := PlacesOf(a))
  }

  /** The last of the first n annotations that is there. */
  function LastAmong(list: seq<Annotation>, n: nat): Annotation
    requires n <= |list|
  {
    if n == 0 then NoAnnotation
    else if list[n - 1].Annotation? then list[n - 1]
    else LastAmong(list, n - 1)
  }

  function LastIn(list: Option<seq<Annotation>>): Annotation {
    if list.None? then NoAnnotation else LastAmong(list.value, |list.value|)
  }

  function LastOfFacets(facets: seq<Facet>, n: nat): Annotation
    requires n <= |facets|
  {
    if n == 0 then NoAnnotation
    else if facets[n - 1].annotation.Annotation? then facets[n - 1].annotation
    else LastOfFacets(facets, n - 1)
  }

  function LastOfMultiFacets(facets: seq<MultiFacet>, n: nat): Annotation
    requires n <= |facets|
  {
    if n == 0 then NoAnnotation
    else if LastIn(facets[n - 1].annotations).Annotation? then LastIn(facets[n - 1].annotations)
    else LastOfMultiFacets(facets, n - 1)
  }

  /** The facets with one value come first. */
  function LastOfBoth(facets: Option<seq<Facet>>, multi: Option<seq<MultiFacet>>): Annotation {
    var late := if multi.None? then NoAnnotation else LastOfMultiFacets(multi.value, |multi.value|);
    if late.Annotation? || facets.None? then late else LastOfFacets(facets.value, |facets.value|)
  }

  lemma FewerUndefined(c: Memory, d: seq<Obj>, e: seq<Obj>)
    requires d <= e
    ensures Undefined(c, e) <= Undefined(c, d)
  {
  }

  /**
   * A type shown in place: an anonymous type that is not defined yet is defined, and its parts are shown; any
   * other type is referred to. For complex types, which are no member types, the walk is left as it is.
   */
  function AfterType(c: Memory, b: Notebook, o: Obj): (r: Notebook)
    ensures b.defined <= r.defined
    decreases Undefined(c, b.defined), 0
  {
    if !IsLocal(c, o) || o in b.defined then b
    else
      UndefinedAfter(c, b.defined, o);
      assert o in Undefined(c, b.defined);
      var inside := b.(defined := b.defined + [o]);
      if IsSimple(c, o) then AfterSimple(c, inside, c[o].simpleType) else After(c, inside, Contents(c, o))
  }

  function AfterOption(c: Memory, b: Notebook, o: Option<Obj>): (r: Notebook)
    ensures b.defined <= r.defined
    decreases Undefined(c, b.defined), 1
  {
    if o.None? then b else AfterType(c, b, o.value)
  }

  function AfterTypes(c: Memory, b: Notebook, types: seq<Obj>, n: nat): (r: Notebook)
    requires n <= |types|
    ensures b.defined <= r.defined
    decreases Undefined(c, b.defined), 2, n
  {
    if n == 0 then b
    else
      var before := AfterTypes(c, b, types, n - 1);
      FewerUndefined(c, b.defined, before.defined);
      AfterType(c, before, types[n - 1])
  }

  /** Base type, primitive type, facets, item type, member types, and the type's own annotations. */
  function AfterSimple(c: Memory, b: Notebook, x: SimpleType): (r: Notebook)
    ensures b.defined <= r.defined
    decreases Undefined(c, b.defined), 5
  {
    AfterAnnotation(AfterParts(c, b, x), LastIn(x.annotations))
  }

  function AfterParts(c: Memory, b: Notebook, x: SimpleType): (r: Notebook)
    ensures b.defined <= r.defined
    decreases Undefined(c, b.defined), 4
  {
    var b3 := AfterItem(c, b, x);
    FewerUndefined(c, b.defined, b3.defined);
    if x.memberTypes.None? then b3 else AfterTypes(c, b3, x.memberTypes.value, |x.memberTypes.value|)
  }

  function AfterItem(c: Memory, b: Notebook, x: SimpleType): (r: Notebook)
    ensures b.defined <= r.defined
    decreases Undefined(c, b.defined), 3
  {
    var b2 := AfterFacets(c, b, x);
    FewerUndefined(c, b.defined, b2.defined);
    AfterOption(c, b2, x.itemType)
  }

  function AfterFacets(c: Memory, b: Notebook, x: SimpleType): (r: Notebook)
    ensures b.defined <= r.defined
    decreases Undefined(c, b.defined), 2
  {
    var b1 := AfterOption(c, b, x.base);
    FewerUndefined(c, b.defined, b1.defined);
    AfterAnnotation(AfterOption(c, b1, x.primitive), LastOfBoth(x.facets, x.multiFacets))
  }

  // -------------------------------------------------------------------------
  //  Steps of the walk
  // -------------------------------------------------------------------------

  lemma AfterStart(c: Memory, b: Notebook)
    ensures After(c, b, Start) == b
  {
    assert Expand(c, b.defined, Start) == Start && b.defined + [] == b.defined;
  }

  lemma AfterMore(c: Memory, b: Notebook, f: Nodes, n: Node)
    ensures After(c, b, More(f, n)) == AfterNode(c, After(c, b, f), n)
  {
    hide Expand, Step, Fixed, FixedNode, NotesInNode;
    ExpandMore(c, b.defined, f, n);
    var e := Expand(c, b.defined, f);
    BothFixed(e, Step(c, b.defined + Fixed(e), n), b.defined);
  }

  lemma BothFixed(f: Nodes, n: Node, d: seq<Obj>)
    ensures d + Fixed(More(f, n)) == d + Fixed(f) + FixedNode(n)
  {
  }

  lemma AfterGroup(c: Memory, b: Notebook, f: Nodes, tag: Tag, children: Nodes)
    ensures After(c, b, f.Group(tag, children)) == After(c, After(c, b, f), children)
  {
    hide After, AfterNode;
    AfterMore(c, b, f, Branch(tag, Plain, children));
    AfterBranch(c, After(c, b, f), tag, children);
  }

  lemma AfterBranch(c: Memory, b: Notebook, tag: Tag, children: Nodes)
    ensures AfterNode(c, b, Branch(tag, Plain, children)) == After(c, b, children)
  {
    assert b.defined + [] == b.defined;
    var f := Expand(c, b.defined, children);
    assert [] + Fixed(f) == Fixed(f);
  }

  lemma AfterRemark(c: Memory, b: Notebook, f: Nodes, children: Nodes)
    ensures After(c, b, f.Noted(children)) == After(c, After(c, b, f), children)
  {
    AfterMore(c, b, f, Remark(children));
  }

  lemma AfterLine(c: Memory, b: Notebook, f: Nodes, n: Node)
    requires n.Nil? || n.Bare? || n.Text? || n.Link?
    ensures After(c, b, More(f, n)) == After(c, b, f)
  {
    AfterMore(c, b, f, n);
    var d := Now(c, b.defined, f);
    assert d + [] == d;
  }

  lemma AfterVal(c: Memory, b: Notebook, f: Nodes, tag: Tag, text: string)
    ensures After(c, b, f.Val(tag, text)) == After(c, b, f)
  {
    AfterLine(c, b, f, f.Val(tag, text).last);
  }

  // -------------------------------------------------------------------------
  //  Annotations define nothing
  // -------------------------------------------------------------------------

  lemma {:induction false} NoComponentsNow(c: Memory, d: seq<Obj>, f: Nodes)
    requires NoComponents(f)
    ensures Expand(c, d, f) == f && Fixed(f) == []
    decreases f
  {
    assert d + [] == d;
    if f.More? {
      NoComponentsNow(c, d, f.front);
      assert NoComponentIn(f.last);
      if f.last.Branch? || f.last.Remark? {
        NoComponentsNow(c, d, f.last.children);
      }
    }
  }

  lemma BodyAfter(c: Memory, b: Notebook, a: Annotation)
    requires a.Annotation?
    ensures After(c, b, AnnotationBody(a)) == b.(notes := NamespaceIndices(a.attrs, |a.attrs|))
  {
    hide After, AnnotationBody, NotesIn, Now, NoComponents;
    AnnotationNone(a);
    AfterNothing(c, b, AnnotationBody(a));
    LastMark(a);
  }

  lemma AfterNothing(c: Memory, b: Notebook, f: Nodes)
    requires NoComponents(f)
    ensures After(c, b, f) == b.(notes := NotesIn(f, b.notes))
  {
    hide Expand, Fixed, NotesIn, NoComponents;
    NoComponentsNow(c, b.defined, f);
    assert b.defined + [] == b.defined;
  }

  lemma LastMark(a: Annotation)
    requires a.Annotation?
    ensures forall before :: NotesIn(AnnotationBody(a), before) == NamespaceIndices(a.attrs, |a.attrs|)
  {
    hide DomElements, AttrGroup, NamespaceIndices;
  }

  lemma {:induction false} ChainAfter(c: Memory, b: Notebook, pre: Nodes, a: Annotation)
    requires a.Annotation?
    ensures After(c, b, AnnotationChain(pre, a)) == AfterAnnotation(After(c, b, pre), a)
    decreases a
  {
    hide After, AnnotationBody;
    var f := pre.Group(Tag.Annotation, AnnotationBody(a));
    AfterGroup(c, b, pre, Tag.Annotation, AnnotationBody(a));
    BodyAfter(c, After(c, b, pre), a);
    if a.next.NoAnnotation? {
      assert AnnotationChain(f, a.next) == f;
    } else {
      ChainAfter(c, b, f, a.next);
    }
  }

  lemma AnnotationAfter(c: Memory, b: Notebook, pre: Nodes, a: Annotation)
    ensures After(c, b, AnnotationPlan(pre, a)) == AfterAnnotation(After(c, b, pre), a)
  {
    hide After, AnnotationChain;
    if a.NoAnnotation? {
      AfterLine(c, b, pre, Node.Nil(Tag.Annotation));
    } else {
      ChainAfter(c, b, pre, a);
    }
  }

  lemma {:induction false} AnnotationListAfter(c: Memory, b: Notebook, list: seq<Annotation>, n: nat)
    requires n <= |list|
    ensures After(c, b, AnnotationNodes(list, n)) == AfterAnnotation(b, LastAmong(list, n))
    decreases n
  {
    hide After, AnnotationPlan, PlacesOf;
    if n == 0 {
      AfterStart(c, b);
    } else {
      AnnotationListAfter(c, b, list, n - 1);
      AnnotationAfter(c, b, AnnotationNodes(list, n - 1), list[n - 1]);
    }
  }

  lemma AnnotationsAfter(c: Memory, b: Notebook, pre: Nodes, list: Option<seq<Annotation>>)
    ensures After(c, b, AnnotationsPlan(pre, list)) == AfterAnnotation(After(c, b, pre), LastIn(list))
  {
    hide After, AnnotationNodes, LastAmong, PlacesOf;
    if list.None? {
      AfterLine(c, b, pre, Node.Nil(Annotations));
    } else {
      AfterGroup(c, b, pre, Annotations, AnnotationNodes(list.value, |list.value|));
      AnnotationListAfter(c, After(c, b, pre), list.value, |list.value|);
    }
  }

  // -------------------------------------------------------------------------
  //  Facets
  // -------------------------------------------------------------------------

  lemma {:induction false} FacetListAfter(c: Memory, b: Notebook, facets: seq<Facet>, n: nat)
    requires n <= |facets|
    ensures After(c, b, FacetNodes(facets, n)) == AfterAnnotation(b, LastOfFacets(facets, n))
    decreases n
  {
    hide After, FacetBody, PlacesOf;
    if n == 0 {
      AfterStart(c, b);
    } else {
      FacetListAfter(c, b, facets, n - 1);
      AfterGroup(c, b, FacetNodes(facets, n - 1), FacetOf(facets[n - 1].kind), FacetBody(facets[n - 1]));
      FacetAfter(c, AfterAnnotation(b, LastOfFacets(facets, n - 1)), facets[n - 1]);
    }
  }

  lemma FacetAfter(c: Memory, b: Notebook, f: Facet)
    ensures After(c, b, FacetBody(f)) == AfterAnnotation(b, f.annotation)
  {
    hide After, AnnotationPlan, Nodes.Val;
    var one := Start.Val(FacetValue, f.value);
    AfterStart(c, b);
    AfterVal(c, b, Start, FacetValue, f.value);
    AfterVal(c, b, one, FacetFixed, BoolText(f.fixed));
    AnnotationAfter(c, b, one.Val(FacetFixed, BoolText(f.fixed)), f.annotation);
  }

  lemma {:induction false} ValuesAfter(c: Memory, b: Notebook, values: seq<string>, n: nat)
    requires n <= |values|
    ensures After(c, b, ValueNodes(values, n)) == b
    decreases n
  {
    hide After, Nodes.Val;
    if n == 0 {
      AfterStart(c, b);
    } else {
      ValuesAfter(c, b, values, n - 1);
      AfterVal(c, b, ValueNodes(values, n - 1), FacetValue, values[n - 1]);
    }
  }

  lemma MultiFacetAfter(c: Memory, b: Notebook, f: MultiFacet)
    ensures After(c, b, MultiFacetBody(f)) == AfterAnnotation(b, LastIn(f.annotations))
  {
    hide After, AnnotationsPlan, ValueNodes, Nodes.Val, LastIn, PlacesOf;
    var values := ValueNodes(f.values, |f.values|);
    ValuesAfter(c, b, f.values, |f.values|);
    AfterVal(c, b, values, FacetFixed, BoolText(f.fixed));
    AnnotationsAfter(c, b, values.Val(FacetFixed, BoolText(f.fixed)), f.annotations);
  }

  lemma {:induction false} MultiFacetListAfter(c: Memory, b: Notebook, pre: Nodes, facets: seq<MultiFacet>, n: nat)
    requires n <= |facets|
    ensures After(c, b, MultiFacetNodes(pre, facets, n))
         == AfterAnnotation(After(c, b, pre), LastOfMultiFacets(facets, n))
    decreases n
  {
    hide After, MultiFacetBody, LastIn, PlacesOf;
    if n > 0 {
      MultiFacetListAfter(c, b, pre, facets, n - 1);
      AfterGroup(c, b, MultiFacetNodes(pre, facets, n - 1), FacetOf(facets[n - 1].kind), MultiFacetBody(facets[n - 1]));
      MultiFacetAfter(c, AfterAnnotation(After(c, b, pre), LastOfMultiFacets(facets, n - 1)), facets[n - 1]);
    }
  }

  lemma FacetsAfter(c: Memory, b: Notebook, pre: Nodes, facets: Option<seq<Facet>>, multi: Option<seq<MultiFacet>>)
    ensures After(c, b, FacetsPlan(pre, facets, multi)) == AfterAnnotation(After(c, b, pre), LastOfBoth(facets, multi))
  {
    hide After, FacetNodes, MultiFacetNodes, LastOfFacets, LastOfMultiFacets, PlacesOf;
    if facets.None? && multi.None? {
      AfterLine(c, b, pre, Node.Nil(Facets));
    } else {
      var b1 := After(c, b, pre);
      AfterGroup(c, b, pre, Facets, MultiFacetsPlan(SingleFacets(facets), multi));
      AfterStart(c, b1);
      if facets.Some? {
        FacetListAfter(c, b1, facets.value, |facets.value|);
      }
      if multi.Some? {
        MultiFacetListAfter(c, b1, SingleFacets(facets), multi.value, |multi.value|);
      }
    }
  }

  lemma FundamentalsAfter(c: Memory, b: Notebook, pre: Nodes, x: SimpleType)
    ensures After(c, b, FundamentalFacetsPlan(pre, x.ordered, x.bounded, x.finite, x.numeric)) == After(c, b, pre)
  {
    hide After, Nodes.Val;
    var b1 := After(c, b, pre);
    var f1 := Start.Group(Ordered, Start.Val(FacetValue, x.ordered));
    var f2 := f1.Group(Bounded, Start.Val(FacetValue, BoolText(x.bounded)));
    var f3 := f2.Group(Cardinality, Start.Val(FacetValue, BoolText(x.finite)));
    AfterStart(c, b1);
    OneValue(c, b1, Start, Ordered, x.ordered);
    OneValue(c, b1, f1, Bounded, BoolText(x.bounded));
    OneValue(c, b1, f2, Cardinality, BoolText(x.finite));
    OneValue(c, b1, f3, Numeric, BoolText(x.numeric));
    AfterGroup(c, b, pre, FundamentalFacets, f3.Group(Numeric, Start.Val(FacetValue, BoolText(x.numeric))));
  }

  lemma OneValue(c: Memory, b: Notebook, pre: Nodes, tag: Tag, text: string)
    ensures After(c, b, pre.Group(tag, Start.Val(FacetValue, text))) == After(c, b, pre)
  {
    hide After, Nodes.Val;
    AfterGroup(c, b, pre, tag, Start.Val(FacetValue, text));
    AfterVal(c, After(c, b, pre), Start, FacetValue, text);
    AfterStart(c, After(c, b, pre));
  }

  // -------------------------------------------------------------------------
  //  Types
  // -------------------------------------------------------------------------

  lemma AfterInline(c: Memory, b: Notebook, o: Obj)
    ensures AfterNode(c, b, Inline(o))
         == if IsLocal(c, o) && o !in b.defined then After(c, b.(defined := b.defined + [o]), Contents(c, o)) else b
  {
    hide Contents, Expand, Fixed, NotesIn;
    var f := Expand(c, b.defined + [o], Contents(c, o));
    assert b.defined + ([o] + Fixed(f)) == (b.defined + [o]) + Fixed(f) && b.defined + [] == b.defined;
  }

  /** What showing a type in place does is the fold over its parts. */
  lemma {:induction false} AfterHere(c: Memory, b: Notebook, o: Obj)
    ensures After(c, b, Start.Here(o)) == AfterType(c, b, o)
    decreases Undefined(c, b.defined), 0
  {
    hide After, AfterNode, AfterSimple, SimpleTypeBody;
    AfterMore(c, b, Start, Inline(o));
    AfterStart(c, b);
    AfterInline(c, b, o);
    if IsLocal(c, o) && o !in b.defined && IsSimple(c, o) {
      UndefinedAfter(c, b.defined, o);
      assert o in Undefined(c, b.defined);
      SimpleTypeAfter(c, b.(defined := b.defined + [o]), c[o].simpleType);
    }
  }

  lemma {:induction false} TypeHereAfter(c: Memory, b: Notebook, pre: Nodes, enclose: Tag, o: Option<Obj>)
    ensures After(c, b, TypeHere(pre, enclose, o)) == AfterOption(c, After(c, b, pre), o)
    decreases Undefined(c, After(c, b, pre).defined), 1
  {
    hide After, AfterType;
    if o.None? {
      AfterLine(c, b, pre, Node.Nil(enclose));
    } else {
      AfterGroup(c, b, pre, enclose, Start.Here(o.value));
      AfterHere(c, After(c, b, pre), o.value);
    }
  }

  lemma {:induction false} TypesAfter(c: Memory, b: Notebook, types: seq<Obj>, n: nat)
    requires n <= |types|
    ensures After(c, b, MemberTypeNodes(types, n)) == AfterTypes(c, b, types, n)
    decreases Undefined(c, b.defined), 2, n
  {
    hide After, AfterType, TypeHere;
    if n == 0 {
      AfterStart(c, b);
    } else {
      TypesAfter(c, b, types, n - 1);
      FewerUndefined(c, b.defined, AfterTypes(c, b, types, n - 1).defined);
      TypeHereAfter(c, b, MemberTypeNodes(types, n - 1), MemberTypeDefinition, Some(types[n - 1]));
    }
  }

  lemma {:induction false} MembersAfter(c: Memory, b: Notebook, pre: Nodes, members: Option<seq<Obj>>)
    ensures After(c, b, MemberTypesPlan(pre, members))
         == if members.None? then After(c, b, pre) else AfterTypes(c, After(c, b, pre), members.value, |members.value|)
    decreases Undefined(c, After(c, b, pre).defined), 3
  {
    hide After, AfterTypes, MemberTypeNodes;
    if members.None? {
      AfterLine(c, b, pre, Node.Nil(MemberTypeDefinitions));
    } else {
      AfterGroup(c, b, pre, MemberTypeDefinitions, MemberTypeNodes(members.value, |members.value|));
      TypesAfter(c, After(c, b, pre), members.value, |members.value|);
    }
  }

  lemma NameAfter(c: Memory, b: Notebook, x: SimpleType)
    ensures After(c, b, NameAndTarget(x.anonymous, x.name, x.namespace)) == b
  {
    hide After, Nodes.Val;
    var named := if x.anonymous then Start.Absent(Name) else Start.Val(Name, x.name);
    AfterStart(c, b);
    AfterLine(c, b, Start, Node.Nil(Name));
    AfterVal(c, b, Start, Name, x.name);
    AfterVal(c, b, named, TargetNamespace, x.namespace);
  }

  lemma {:induction false} HeadAfter(c: Memory, b: Notebook, x: SimpleType)
    ensures After(c, b, SimpleTypeHead(x)) == AfterOption(c, AfterOption(c, b, x.base), x.primitive)
    decreases Undefined(c, b.defined), 3
  {
    hide After, AfterOption, TypeHere, NameAndTarget;
    var named := NameAndTarget(x.anonymous, x.name, x.namespace);
    NameAfter(c, b, x);
    TypeHereAfter(c, b, named, BaseTypeDefinition, x.base);
    FewerUndefined(c, b.defined, AfterOption(c, b, x.base).defined);
    TypeHereAfter(c, b, TypeHere(named, BaseTypeDefinition, x.base), PrimitiveTypeDefinition, x.primitive);
  }

  lemma {:induction false} SimpleTypeAfter(c: Memory, b: Notebook, x: SimpleType)
    ensures After(c, b, SimpleTypeBody(x)) == AfterSimple(c, b, x)
    decreases Undefined(c, b.defined), 4
  {
    hide After, AfterOption, AfterTypes, SimpleTypeHead, FacetsPlan, FundamentalFacetsPlan, TypeHere, MemberTypesPlan,
         AnnotationsPlan, LastIn, LastOfBoth, PlacesOf, Nodes.Val, Undefined;
    var faceted := FacetsPlan(SimpleTypeHead(x), x.facets, x.multiFacets);
    var body := FundamentalFacetsPlan(faceted, x.ordered, x.bounded, x.finite, x.numeric);
    var all := SimpleTypeFacets(x);
    HeadAfter(c, b, x);
    FacetsAfter(c, b, SimpleTypeHead(x), x.facets, x.multiFacets);
    FundamentalsAfter(c, b, faceted, x);
    AfterVal(c, b, body, Final, x.final);
    AfterVal(c, b, body.Val(Final, x.final), Variety, x.variety);
    FewerUndefined(c, b.defined, AfterFacets(c, b, x).defined);
    TypeHereAfter(c, b, all, ItemTypeDefinition, x.itemType);
    FewerUndefined(c, b.defined, AfterItem(c, b, x).defined);
    MembersAfter(c, b, TypeHere(all, ItemTypeDefinition, x.itemType), x.memberTypes);
    AnnotationsAfter(c, b, MemberTypesPlan(TypeHere(all, ItemTypeDefinition, x.itemType), x.memberTypes),
                     x.annotations);
  }

  // -------------------------------------------------------------------------
  //  Which annotation decides
  // -------------------------------------------------------------------------

  /** An anonymous type that is not among the objects d. */
  predicate New(c: Memory, d: seq<Obj>, o: Obj) { IsLocal(c, o) && o !in d }

  predicate NoneNew(c: Memory, d: seq<Obj>, types: seq<Obj>) {
    forall i :: 0 <= i < |types| ==> !New(c, d, types[i])
  }

  /** The types there are. */
  function Given(o: Option<Obj>): seq<Obj> { if o.None? then [] else [o.value] }

  function Listed(o: Option<seq<Obj>>): seq<Obj> { if o.None? then [] else o.value }

  lemma {:induction false} NothingAdded(c: Memory, b: Notebook, types: seq<Obj>, i: nat, n: nat)
    requires i <= n <= |types| && NoneNew(c, AfterTypes(c, b, types, i).defined, types[i..n])
    ensures AfterTypes(c, b, types, n) == AfterTypes(c, b, types, i)
    decreases n
  {
    hide AfterType;
    if i < n {
      assert types[i..n - 1] == types[i..n][..n - 1 - i] && types[i..n][n - 1 - i] == types[n - 1];
      NothingAdded(c, b, types, i, n - 1);
      NotNew(c, AfterTypes(c, b, types, i), types[n - 1]);
    }
  }

  lemma NotNew(c: Memory, b: Notebook, o: Obj)
    requires !New(c, b.defined, o)
    ensures AfterType(c, b, o) == b
  {
  }

  /**
   * A type's own last annotation decides. Without one, and without new anonymous item and member types, the last
   * one of its facets does, those with several values before those with one; else what its base type left stays.
   */
  lemma OwnDecides(c: Memory, b: Notebook, x: SimpleType)
    ensures LastIn(x.annotations).Annotation? ==> AfterSimple(c, b, x).notes == PlacesOf(LastIn(x.annotations))
    ensures !LastIn(x.annotations).Annotation? &&
            NoneNew(c, AfterFacets(c, b, x).defined, Given(x.itemType) + Listed(x.memberTypes)) ==>
              AfterSimple(c, b, x) == AfterAnnotation(AfterOption(c, AfterOption(c, b, x.base), x.primitive),
                                                      LastOfBoth(x.facets, x.multiFacets))
  {
    hide PlacesOf, LastIn, LastOfBoth, AfterType, AfterTypes, New;
    var all := Given(x.itemType) + Listed(x.memberTypes);
    var faceted := AfterFacets(c, b, x);
    if !LastIn(x.annotations).Annotation? && NoneNew(c, faceted.defined, all) {
      NoneOption(c, faceted, x.itemType, all);
      NoneListed(c, faceted, x, all);
      assert AfterItem(c, b, x) == faceted;
    }
  }

  lemma NoneOption(c: Memory, b: Notebook, o: Option<Obj>, all: seq<Obj>)
    requires NoneNew(c, b.defined, all) && forall p :: p in Given(o) ==> p in all
    ensures AfterOption(c, b, o) == b
  {
    hide AfterType, New;
    if o.Some? {
      assert o.value in Given(o);
      NotNew(c, b, o.value);
    }
  }

  lemma NoneListed(c: Memory, b: Notebook, x: SimpleType, all: seq<Obj>)
    requires NoneNew(c, b.defined, all) && forall p :: p in Listed(x.memberTypes) ==> p in all
    ensures x.memberTypes.Some? ==> AfterTypes(c, b, x.memberTypes.value, |x.memberTypes.value|) == b
  {
    hide AfterType, New;
    if x.memberTypes.Some? {
      var types := x.memberTypes.value;
      assert types[0..|types|] == types;
      forall i | 0 <= i < |types| ensures !New(c, b.defined, types[i]) {
        assert types[i] in Listed(x.memberTypes);
      }
      assert AfterTypes(c, b, types, 0) == b;
      NothingAdded(c, b, types, 0, |types|);
    }
  }

  /**
   * A type without an annotation of its own, with a new anonymous member type: the last of these decides, and
   * the same is asked of it.
   */
  lemma InnerMemberDecides(c: Memory, b: Notebook, x: SimpleType, i: nat)
    requires !LastIn(x.annotations).Annotation? && x.memberTypes.Some? && i < |x.memberTypes.value|
    requires var types, before := x.memberTypes.value, AfterTypes(c, AfterItem(c, b, x), x.memberTypes.value, i);
             New(c, before.defined, types[i]) && NoneNew(c, AfterType(c, before, types[i]).defined, types[i + 1..])
    ensures var before := AfterTypes(c, AfterItem(c, b, x), x.memberTypes.value, i);
            AfterSimple(c, b, x) == AfterType(c, before, x.memberTypes.value[i])
  {
    hide PlacesOf, LastIn, AfterItem, AfterType, New;
    var types := x.memberTypes.value;
    assert types[i + 1..] == types[i + 1..|types|];
    NothingAdded(c, AfterItem(c, b, x), types, i + 1, |types|);
  }

  /** Without new member types, a new anonymous item type decides. */
  lemma InnerItemDecides(c: Memory, b: Notebook, x: SimpleType)
    requires !LastIn(x.annotations).Annotation? && NoneNew(c, AfterItem(c, b, x).defined, Listed(x.memberTypes))
    requires x.itemType.Some?
    ensures AfterSimple(c, b, x) == AfterType(c, AfterFacets(c, b, x), x.itemType.value)
  {
    hide PlacesOf, LastIn, AfterFacets, AfterType, AfterTypes, New;
    NoneListed(c, AfterItem(c, b, x), x, Listed(x.memberTypes));
  }
}
