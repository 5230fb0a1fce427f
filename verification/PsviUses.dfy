/**
 * Which components the definition of a component shows in place: read off the component alone, and proved of the
 * trees that are shown for it.
 */
module PsviUses {
  import opened Options
  import opened PsviOutput
  import opened PsviComponents
  import opened PsviPlans

  // -------------------------------------------------------------------------
  //  Uses
  // -------------------------------------------------------------------------

  /** A component has another one in place: types and declarations, not what it only refers to. */
  predicate Uses(x: Component, o: Obj) {
    match x
    case OfComplexType(t) =>
      t.base == Some(o) || UsedByAttributes(t.attributeUses, o) || t.simpleType == Some(o)
          || UsedInParticle(t.particle, o)
    case OfSimpleType(t) =>
      t.base == Some(o) || t.primitive == Some(o) || t.itemType == Some(o)
          || (t.memberTypes.Some? && o in t.memberTypes.value)
    case OfElement(e) => e.typeDefinition == Some(o)
    case OfAttribute(a) => a.typeDefinition == Some(o)
    case OfAttributeGroup(g) => UsedByAttributes(g.attributeUses, o)
    case OfModelGroup(g) => UsedInGroup(g.group, o)
    case OfNotation(_) => false
    case OfConstraint(_) => false
  }

  predicate UsedByAttributes(uses: Option<seq<AttributeUse>>, o: Obj) {
    uses.Some? && exists i :: 0 <= i < |uses.value| && uses.value[i].declaration == Some(o)
  }

  /** An element declaration that is a term somewhere in the particle tree. */
  predicate UsedInParticle(p: Particle, o: Obj) {
    p.Particle? &&
    match p.term
    case ElementTerm(declaration) => declaration == Some(o)
    case GroupTerm(group) => UsedInGroup(group, o)
    case WildcardTerm(_) => false
    case EmptyTerm => false
  }

  predicate UsedInGroup(g: ModelGroup, o: Obj) {
    g.ModelGroup? && exists i :: 0 <= i < |g.particles| && UsedInParticle(g.particles[i], o)
  }

  /** A component is defined where it is used: an anonymous type, or a declaration whose scope is not global. */
  predicate InPlace(x: Component) {
    match x
    case OfComplexType(t) => t.anonymous
    case OfSimpleType(t) => t.anonymous
    case OfElement(e) => !e.scope.ScopeGlobal?
    case OfAttribute(a) => !a.scope.ScopeGlobal?
    case _ => false
  }

  lemma LocalIffInPlace(x: Component)
    ensures Local(x) <==> InPlace(x)
  {
  }

  /** The definition of component o shows the local component p in place. */
  predicate UsedBy(c: Memory, o: Obj, p: Obj) { o in c && IsLocal(c, p) && Uses(c[o], p) }

  /** The local components that stand Inline somewhere in the trees. */
  function LocalUses(c: Memory, f: Nodes): set<Obj> {
    match f
    case Start => {}
    case More(front, last) => LocalUses(c, front) + LocalUsesNode(c, last)
  }

  function LocalUsesNode(c: Memory, n: Node): set<Obj> {
    match n
    case Branch(_, _, children) => LocalUses(c, children)
    case Remark(children) => LocalUses(c, children)
    case Inline(o) => if IsLocal(c, o) then {o} else {}
    case _ => {}
  }

  function Only(c: Memory, o: Option<Obj>): set<Obj> { if o.Some? && IsLocal(c, o.value) then {o.value} else {} }

  // -------------------------------------------------------------------------
  //  Annotations show no component
  // -------------------------------------------------------------------------

  /** Trees in which no component is shown or referred to. */
  predicate NoComponents(f: Nodes) { f.More? ==> NoComponents(f.front) && NoComponentIn(f.last) }

  predicate NoComponentIn(n: Node) {
    match n
    case Branch(_, head, children) => head.Plain? && NoComponents(children)
    case Remark(children) => NoComponents(children)
    case Inline(_) => false
    case Link(_, _, _) => false
    case _ => true
  }

  lemma ValNone(f: Nodes, tag: Tag, text: string)
    requires NoComponents(f)
    ensures NoComponents(f.Val(tag, text))
  {
  }

  lemma {:induction false} DomAttrsNone(attrs: seq<DomAttr>)
    ensures NoComponents(DomAttrNodes(attrs))
    decreases |attrs|
  {
    hide DomAttrBody;
    if attrs != [] {
      DomAttrsNone(attrs[..|attrs| - 1]);
      DomAttrNone(attrs[|attrs| - 1]);
    }
  }

  lemma DomAttrNone(a: DomAttr)
    ensures NoComponents(DomAttrBody(a))
  {
    hide NoComponents, Nodes.Val;
    var f1 := Start.Val(NamespaceName, a.namespace);
    var f2 := f1.Val(LocalName, a.localName);
    var f3 := f2.Val(Prefix, a.prefix);
    var f4 := f3.Val(NormalizedValue, a.value);
    var f5 := f4.Val(Specified, BoolText(a.specified));
    NothingNone();
    ValNone(Start, NamespaceName, a.namespace);
    ValNone(f1, LocalName, a.localName);
    ValNone(f2, Prefix, a.prefix);
    ValNone(f3, NormalizedValue, a.value);
    ValNone(f4, Specified, BoolText(a.specified));
    ValNone(f5, AttributeType, a.typeName);
    NilNone(f5.Val(AttributeType, a.typeName));
  }

  lemma NothingNone()
    ensures NoComponents(Start)
  {
  }

  lemma NilNone(f: Nodes)
    requires NoComponents(f)
    ensures NoComponents(f.Absent(References))
  {
  }

  lemma GroupNone(f: Nodes, tag: Tag, children: Nodes)
    requires NoComponents(f) && NoComponents(children)
    ensures NoComponents(f.Group(tag, children))
  {
  }

  lemma DomAttributesNone(pre: Nodes, attrs: seq<DomAttr>)
    requires NoComponents(pre)
    ensures NoComponents(DomAttributes(pre, attrs))
  {
    hide NoComponents, AttrGroup, Select, NamespaceIndices;
    var first := AttrGroup(pre, Attributes, Select(attrs, |attrs|, false));
    var both := AttrGroup(first, NamespaceAttributes, Select(attrs, |attrs|, true));
    AttrGroupNone(pre, Attributes, Select(attrs, |attrs|, false));
    AttrGroupNone(first, NamespaceAttributes, Select(attrs, |attrs|, true));
    MarkNone(both, NamespaceIndices(attrs, |attrs|));
  }

  lemma MarkNone(f: Nodes, notes: seq<nat>)
    requires NoComponents(f)
    ensures NoComponents(f.Marked(notes))
  {
  }

  lemma AttrGroupNone(pre: Nodes, tag: Tag, attrs: seq<DomAttr>)
    requires NoComponents(pre)
    ensures NoComponents(AttrGroup(pre, tag, attrs))
  {
    hide DomAttrNodes;
    DomAttrsNone(attrs);
  }

  lemma DomElementNone(e: DomElement)
    ensures NoComponents(DomElementBody(e))
  {
    hide NoComponents, Nodes.Val, Nodes.Group, DomAttributes;
    var f1 := Start.Val(NamespaceName, e.namespace);
    var f2 := f1.Val(LocalName, e.localName);
    var f3 := f2.Val(Prefix, e.prefix);
    var text := Start.Val(TextContent, e.text);
    NothingNone();
    ValNone(Start, NamespaceName, e.namespace);
    ValNone(f1, LocalName, e.localName);
    ValNone(f2, Prefix, e.prefix);
    ValNone(Start, TextContent, e.text);
    GroupNone(Start, Character, text);
    GroupNone(f3, Children, Start.Group(Character, text));
    DomAttributesNone(f3.Group(Children, Start.Group(Character, text)), e.attrs);
  }

  lemma {:induction false} DomElementsNone(elems: seq<DomElement>, n: nat)
    requires n <= |elems|
    ensures NoComponents(DomElementNodes(elems, n))
    decreases n
  {
    hide DomElementBody;
    if n > 0 {
      DomElementsNone(elems, n - 1);
      DomElementNone(elems[n - 1]);
    }
  }

  lemma AnnotationNone(a: Annotation)
    requires a.Annotation?
    ensures NoComponents(AnnotationBody(a))
  {
    hide DomAttributes, DomElementNodes;
    DomElementsNone(a.appInfos, |a.appInfos|);
    DomElementsNone(a.documentations, |a.documentations|);
    var first := DomElements(Start, ApplicationInformation, a.appInfos);
    assert NoComponents(first);
    DomAttributesNone(DomElements(first, UserInformation, a.documentations), a.attrs);
  }

  lemma {:induction false} NoneUsed(c: Memory, f: Nodes)
    requires NoComponents(f)
    ensures LocalUses(c, f) == {}
    decreases f
  {
    if f.More? {
      NoneUsed(c, f.front);
      assert NoComponentIn(f.last);
      if f.last.Branch? || f.last.Remark? {
        NoneUsed(c, f.last.children);
      }
    }
  }

  // -------------------------------------------------------------------------
  //  Parts of components
  // -------------------------------------------------------------------------

  lemma LineUses(c: Memory, f: Nodes, n: Node)
    requires !n.Branch? && !n.Remark? && !n.Inline?
    ensures LocalUses(c, More(f, n)) == LocalUses(c, f)
  {
  }

  lemma ValUses(c: Memory, f: Nodes, tag: Tag, text: string)
    ensures LocalUses(c, f.Val(tag, text)) == LocalUses(c, f.Absent(tag)) == LocalUses(c, f)
  {
    hide LocalUses;
    LineUses(c, f, f.Val(tag, text).last);
    LineUses(c, f, f.Absent(tag).last);
  }

  lemma GroupUses(c: Memory, f: Nodes, tag: Tag, children: Nodes)
    ensures LocalUses(c, f.Group(tag, children)) == LocalUses(c, f) + LocalUses(c, children)
    ensures LocalUses(c, Start) == {}
  {
  }

  lemma HereUses(c: Memory, f: Nodes, o: Obj)
    ensures LocalUses(c, f.Here(o)) == LocalUses(c, f) + Only(c, Some(o))
  {
  }

  lemma TypeHereUses(c: Memory, f: Nodes, enclose: Tag, o: Option<Obj>)
    ensures LocalUses(c, TypeHere(f, enclose, o)) == LocalUses(c, f) + Only(c, o)
  {
    hide LocalUses, Nodes.Group, Nodes.Here, Nodes.Absent;
    if o.None? {
      ValUses(c, f, enclose, "");
    } else {
      GroupUses(c, f, enclose, Start.Here(o.value));
      HereUses(c, Start, o.value);
    }
  }

  lemma DeclHereUses(c: Memory, f: Nodes, tag: Tag, o: Option<Obj>)
    ensures LocalUses(c, DeclHere(f, tag, o)) == LocalUses(c, f) + Only(c, o)
  {
    hide LocalUses, Nodes.Here, Nodes.Absent;
    if o.None? {
      ValUses(c, f, tag, "");
    } else {
      HereUses(c, f, o.value);
    }
  }

  lemma RefUses(c: Memory, f: Nodes, tag: Tag, o: Option<Obj>)
    ensures LocalUses(c, f.Ref(tag, o)) == LocalUses(c, f)
  {
    hide LocalUses;
    LineUses(c, f, f.Ref(tag, o).last);
  }

  lemma DeclRefUses(c: Memory, f: Nodes, enclose: Tag, tag: Tag, o: Option<Obj>)
    ensures LocalUses(c, DeclRef(f, enclose, tag, o)) == LocalUses(c, f)
  {
    hide LocalUses, Nodes.Group, Nodes.Absent, Nodes.Ref;
    if o.None? {
      ValUses(c, f, enclose, "");
    } else {
      GroupUses(c, f, enclose, Start.Ref(tag, o));
      RefUses(c, Start, tag, o);
    }
  }

  lemma {:induction false} ChainUses(c: Memory, f: Nodes, a: Annotation)
    ensures LocalUses(c, AnnotationChain(f, a)) == LocalUses(c, f)
    decreases a
  {
    hide LocalUses, AnnotationBody, NoComponents, Nodes.Group;
    if a.Annotation? {
      GroupUses(c, f, Tag.Annotation, AnnotationBody(a));
      AnnotationNone(a);
      NoneUsed(c, AnnotationBody(a));
      ChainUses(c, f.Group(Tag.Annotation, AnnotationBody(a)), a.next);
    }
  }

  lemma AnnotationUses(c: Memory, f: Nodes, a: Annotation)
    ensures LocalUses(c, AnnotationPlan(f, a)) == LocalUses(c, f)
  {
    hide LocalUses, AnnotationChain;
    ChainUses(c, f, a);
    ValUses(c, f, Tag.Annotation, "");
  }

  lemma {:induction false} AnnotationListUses(c: Memory, list: seq<Annotation>, n: nat)
    requires n <= |list|
    ensures LocalUses(c, AnnotationNodes(list, n)) == {}
    decreases n
  {
    hide AnnotationPlan;
    if n > 0 {
      AnnotationListUses(c, list, n - 1);
      AnnotationUses(c, AnnotationNodes(list, n - 1), list[n - 1]);
    }
  }

  lemma AnnotationsUses(c: Memory, f: Nodes, list: Option<seq<Annotation>>)
    ensures LocalUses(c, AnnotationsPlan(f, list)) == LocalUses(c, f)
  {
    hide LocalUses, AnnotationNodes;
    ValUses(c, f, Annotations, "");
    if list.Some? {
      AnnotationListUses(c, list.value, |list.value|);
      GroupUses(c, f, Annotations, AnnotationNodes(list.value, |list.value|));
    }
  }

  lemma ConstraintUses(c: Memory, f: Nodes, v: ValueConstraint)
    ensures LocalUses(c, ValueConstraintPlan(f, v)) == LocalUses(c, f)
  {
    hide LocalUses, Nodes.Val;
    ValUses(c, f, Tag.ValueConstraint, "");
    if v.Constraint? {
      GroupUses(c, f, Tag.ValueConstraint, ConstraintValueBody(v.kind, v.value));
      ValUses(c, Start, Variety, v.kind);
      ValUses(c, Start.Val(Variety, v.kind), FacetValue, v.value);
    }
  }

  lemma ScopeUses(c: Memory, f: Nodes, enclosing: Option<Obj>, scope: ScopeKind)
    ensures LocalUses(c, ScopePlan(f, enclosing, scope)) == LocalUses(c, f)
  {
    hide LocalUses, Nodes.Val;
    ValUses(c, f, Scope, "global");
    GroupUses(c, f, Scope, Start.Ref(ComplexTypeDefinition, enclosing));
    LineUses(c, Start, Start.Ref(ComplexTypeDefinition, enclosing).last);
  }

  lemma WildcardUses(c: Memory, f: Nodes, w: Wildcard)
    ensures LocalUses(c, WildcardPlan(f, w)) == LocalUses(c, f)
  {
    hide LocalUses, WildcardBody;
    ValUses(c, f, Tag.Wildcard, "");
    if w.Wildcard? {
      GroupUses(c, f, Tag.Wildcard, WildcardBody(w));
      WildcardBodyUses(c, w);
    }
  }

  lemma WildcardBodyUses(c: Memory, w: Wildcard)
    requires w.Wildcard?
    ensures LocalUses(c, WildcardBody(w)) == {}
  {
    hide LocalUses, ConstraintBody, AnnotationPlan, Nodes.Val;
    var f := Start.Group(Tag.NamespaceConstraint, ConstraintBody(w.constraint));
    GroupUses(c, Start, Tag.NamespaceConstraint, ConstraintBody(w.constraint));
    ConstraintBodyUses(c, w.constraint);
    ValUses(c, f, ProcessContents, w.processContents);
    AnnotationUses(c, f.Val(ProcessContents, w.processContents), w.annotation);
  }

  lemma ConstraintBodyUses(c: Memory, k: NamespaceConstraint)
    ensures LocalUses(c, ConstraintBody(k)) == {}
  {
    hide LocalUses, Nodes.Val, Nodes.Absent, Nodes.List;
    GroupUses(c, Start, Variety, Start);
    ValUses(c, Start, Variety, "any");
    ValUses(c, Start, Variety, "not");
    match k
    case AnyNamespace => ValUses(c, Start.Val(Variety, "any"), Namespaces, "");
    case DerivationList(namespaces) => ListUses(c, Start.Absent(Variety), Namespaces, namespaces);
    case NotNamespace(namespaces) => ListUses(c, Start.Val(Variety, "not"), Namespaces, namespaces);
  }

  lemma ListUses(c: Memory, f: Nodes, tag: Tag, values: Option<seq<string>>)
    ensures LocalUses(c, f.List(tag, values)) == LocalUses(c, f)
  {
    hide LocalUses;
    LineUses(c, f, f.List(tag, values).last);
  }

  lemma AttributeWildcardUses(c: Memory, f: Nodes, w: Wildcard)
    ensures LocalUses(c, AttributeWildcardPlan(f, w)) == LocalUses(c, f)
  {
    hide LocalUses, WildcardPlan;
    ValUses(c, f, AttributeWildcard, "");
    GroupUses(c, f, AttributeWildcard, WildcardPlan(Start, w));
    WildcardUses(c, Start, w);
  }

  lemma AttributeUseUses(c: Memory, u: AttributeUse)
    ensures LocalUses(c, AttributeUseBody(u)) == Only(c, u.declaration)
  {
    hide LocalUses, DeclHere, ValueConstraintPlan, Nodes.Val;
    var f := Start.Val(Required, BoolText(u.required));
    GroupUses(c, Start, Required, Start);
    ValUses(c, Start, Required, BoolText(u.required));
    DeclHereUses(c, f, AttributeDeclaration, u.declaration);
    ConstraintUses(c, DeclHere(f, AttributeDeclaration, u.declaration), u.constraint);
  }

  lemma {:induction false} AttributeListUses(c: Memory, uses: seq<AttributeUse>, n: nat, x: Obj)
    requires n <= |uses|
    ensures x in LocalUses(c, AttributeUseNodes(uses, n)) <==>
              IsLocal(c, x) && exists i :: 0 <= i < n && uses[i].declaration == Some(x)
    decreases n
  {
    hide LocalUses, AttributeUseBody;
    if n == 0 {
      GroupUses(c, Start, Required, Start);
    } else {
      AttributeListUses(c, uses, n - 1, x);
      GroupUses(c, AttributeUseNodes(uses, n - 1), Tag.AttributeUse, AttributeUseBody(uses[n - 1]));
      AttributeUseUses(c, uses[n - 1]);
    }
  }

  lemma AttributesUses(c: Memory, f: Nodes, uses: Option<seq<AttributeUse>>, x: Obj)
    ensures x in LocalUses(c, AttributeUsesPlan(f, uses)) <==>
              x in LocalUses(c, f) || (IsLocal(c, x) && UsedByAttributes(uses, x))
  {
    hide LocalUses, AttributeUseNodes;
    ValUses(c, f, AttributeUses, "");
    if uses.Some? {
      GroupUses(c, f, AttributeUses, AttributeUseNodes(uses.value, |uses.value|));
      AttributeListUses(c, uses.value, |uses.value|, x);
    }
  }

  // -------------------------------------------------------------------------
  //  Particles
  // -------------------------------------------------------------------------

  lemma {:induction false} ParticleUses(c: Memory, f: Nodes, p: Particle, x: Obj)
    ensures x in LocalUses(c, ParticlePlan(f, p)) <==> x in LocalUses(c, f) || (IsLocal(c, x) && UsedInParticle(p, x))
    decreases p, 1
  {
    hide LocalUses, ParticleBody;
    ValUses(c, f, Tag.Particle, "");
    if p.Particle? {
      GroupUses(c, f, Tag.Particle, ParticleBody(p));
      ParticleBodyUses(c, p, x);
    }
  }

  lemma {:induction false} ParticleBodyUses(c: Memory, p: Particle, x: Obj)
    requires p.Particle?
    ensures x in LocalUses(c, ParticleBody(p)) <==> IsLocal(c, x) && UsedInParticle(p, x)
    decreases p, 0
  {
    hide LocalUses, TermBody;
    var counted := MaxOccursPlan(Start.Int(MinOccurs, p.minOccurs), p.maxOccurs);
    OccursUses(c, p.minOccurs, p.maxOccurs);
    GroupUses(c, counted, Tag.Term, TermBody(p.term));
    TermUses(c, p.term, x);
  }

  lemma OccursUses(c: Memory, minOccurs: nat, maxOccurs: Option<nat>)
    ensures LocalUses(c, MaxOccursPlan(Start.Int(MinOccurs, minOccurs), maxOccurs)) == {}
  {
    hide LocalUses;
    var f := Start.Int(MinOccurs, minOccurs);
    GroupUses(c, Start, MinOccurs, Start);
    LineUses(c, Start, f.last);
    LineUses(c, f, MaxOccursPlan(f, maxOccurs).last);
  }

  lemma {:induction false} TermUses(c: Memory, t: Term, x: Obj)
    ensures x in LocalUses(c, TermBody(t)) <==>
              IsLocal(c, x) && match t
                               case ElementTerm(o) => o == Some(x)
                               case GroupTerm(g) => UsedInGroup(g, x)
                               case _ => false
    decreases t
  {
    hide LocalUses, DeclHere, ModelGroupPlan, WildcardPlan;
    GroupUses(c, Start, Tag.Term, Start);
    match t
    case ElementTerm(o) => DeclHereUses(c, Start, ElementDeclaration, o);
    case GroupTerm(g) => ModelGroupUses(c, Start, g, x);
    case WildcardTerm(w) => WildcardUses(c, Start, w);
    case EmptyTerm =>
  }

  lemma {:induction false} ModelGroupUses(c: Memory, f: Nodes, g: ModelGroup, x: Obj)
    ensures x in LocalUses(c, ModelGroupPlan(f, g)) <==> x in LocalUses(c, f) || (IsLocal(c, x) && UsedInGroup(g, x))
    decreases g, 2
  {
    hide LocalUses, ModelGroupBody;
    ValUses(c, f, Tag.ModelGroup, "");
    if g.ModelGroup? {
      GroupUses(c, f, Tag.ModelGroup, ModelGroupBody(g));
      ModelGroupBodyUses(c, g, x);
    }
  }

  lemma {:induction false} ModelGroupBodyUses(c: Memory, g: ModelGroup, x: Obj)
    requires g.ModelGroup?
    ensures x in LocalUses(c, ModelGroupBody(g)) <==> IsLocal(c, x) && UsedInGroup(g, x)
    decreases g, 1
  {
    hide LocalUses, ParticleNodes, AnnotationPlan, Nodes.Val;
    var f := Start.Val(Compositor, g.compositor);
    GroupUses(c, Start, Particles, Start);
    ValUses(c, Start, Compositor, g.compositor);
    GroupUses(c, f, Particles, ParticleNodes(g, |g.particles|));
    ParticleListUses(c, g, |g.particles|, x);
    AnnotationUses(c, f.Group(Particles, ParticleNodes(g, |g.particles|)), g.annotation);
  }

  lemma {:induction false} ParticleListUses(c: Memory, g: ModelGroup, n: nat, x: Obj)
    requires g.ModelGroup? && n <= |g.particles|
    ensures x in LocalUses(c, ParticleNodes(g, n)) <==>
              IsLocal(c, x) && exists i :: 0 <= i < n && UsedInParticle(g.particles[i], x)
    decreases g, 0, n
  {
    hide LocalUses, ParticlePlan, UsedInParticle;
    if n == 0 {
      GroupUses(c, Start, Particles, Start);
    } else {
      ParticleListUses(c, g, n - 1, x);
      ParticleUses(c, ParticleNodes(g, n - 1), g.particles[n - 1], x);
    }
  }

  // -------------------------------------------------------------------------
  //  Components
  // -------------------------------------------------------------------------

  lemma ComplexTypeUses(c: Memory, t: ComplexType, x: Obj)
    ensures x in LocalUses(c, ComplexTypeBody(t)) <==> IsLocal(c, x) && Uses(OfComplexType(t), x)
  {
    hide LocalUses, ComplexTypeHead, ContentTypeBody, AnnotationsPlan, UsedByAttributes, UsedInParticle, Nodes.Val;
    var f := ComplexTypeHead(t).Group(ContentType, ContentTypeBody(t));
    ComplexTypeHeadUses(c, t, x);
    GroupUses(c, ComplexTypeHead(t), ContentType, ContentTypeBody(t));
    ContentTypeUses(c, t, x);
    ValUses(c, f, ProhibitedSubstitutions, t.prohibited);
    AnnotationsUses(c, f.Val(ProhibitedSubstitutions, t.prohibited), t.annotations);
  }

  lemma NameUses(c: Memory, anonymous: bool, name: string, namespace: string)
    ensures LocalUses(c, NameAndTarget(anonymous, name, namespace)) == {}
    ensures LocalUses(c, Start.Val(Name, name).Val(TargetNamespace, namespace)) == {}
  {
    hide LocalUses, Nodes.Val, Nodes.Absent;
    GroupUses(c, Start, Name, Start);
    ValUses(c, Start, Name, name);
    ValUses(c, Start.Absent(Name), TargetNamespace, namespace);
    ValUses(c, Start.Val(Name, name), TargetNamespace, namespace);
  }

  lemma ComplexTypeHeadUses(c: Memory, t: ComplexType, x: Obj)
    ensures x in LocalUses(c, ComplexTypeHead(t)) <==>
              IsLocal(c, x) && (t.base == Some(x) || UsedByAttributes(t.attributeUses, x))
  {
    hide LocalUses, NameAndTarget, TypeHere, AttributeUsesPlan, AttributeWildcardPlan, UsedByAttributes, Nodes.Val;
    var f0 := NameAndTarget(t.anonymous, t.name, t.namespace);
    var f1 := TypeHere(f0, BaseTypeDefinition, t.base);
    var f2 := f1.Val(DerivationMethod, t.derivation);
    var f3 := f2.Val(Final, t.final);
    var f4 := f3.Val(Abstract, BoolText(t.isAbstract));
    NameUses(c, t.anonymous, t.name, t.namespace);
    TypeHereUses(c, f0, BaseTypeDefinition, t.base);
    ValUses(c, f1, DerivationMethod, t.derivation);
    ValUses(c, f2, Final, t.final);
    ValUses(c, f3, Abstract, BoolText(t.isAbstract));
    AttributesUses(c, f4, t.attributeUses, x);
    AttributeWildcardUses(c, AttributeUsesPlan(f4, t.attributeUses), t.attributeWildcard);
  }

  lemma ContentTypeUses(c: Memory, t: ComplexType, x: Obj)
    ensures x in LocalUses(c, ContentTypeBody(t)) <==>
              IsLocal(c, x) && (t.simpleType == Some(x) || UsedInParticle(t.particle, x))
  {
    hide LocalUses, DeclHere, ParticlePlan, UsedInParticle, Nodes.Val;
    GroupUses(c, Start, ContentType, Start);
    ValUses(c, Start, Variety, t.variety);
    DeclHereUses(c, Start.Val(Variety, t.variety), SimpleTypeDefinition, t.simpleType);
    ParticleUses(c, DeclHere(Start.Val(Variety, t.variety), SimpleTypeDefinition, t.simpleType), t.particle, x);
  }

  lemma SimpleTypeUses(c: Memory, t: SimpleType, x: Obj)
    ensures x in LocalUses(c, SimpleTypeBody(t)) <==> IsLocal(c, x) && Uses(OfSimpleType(t), x)
  {
    hide LocalUses, SimpleTypeFacets, TypeHere, MemberTypesPlan, AnnotationsPlan;
    var f := TypeHere(SimpleTypeFacets(t), ItemTypeDefinition, t.itemType);
    SimpleTypeFacetsUses(c, t);
    TypeHereUses(c, SimpleTypeFacets(t), ItemTypeDefinition, t.itemType);
    MembersUses(c, f, t.memberTypes, x);
    AnnotationsUses(c, MemberTypesPlan(f, t.memberTypes), t.annotations);
  }

  lemma SimpleTypeFacetsUses(c: Memory, t: SimpleType)
    ensures LocalUses(c, SimpleTypeFacets(t)) == Only(c, t.base) + Only(c, t.primitive)
  {
    hide LocalUses, NameAndTarget, TypeHere, FacetsPlan, FundamentalFacetsPlan, Nodes.Val;
    var f0 := NameAndTarget(t.anonymous, t.name, t.namespace);
    var f1 := TypeHere(f0, BaseTypeDefinition, t.base);
    var f2 := TypeHere(f1, PrimitiveTypeDefinition, t.primitive);
    var f3 := FacetsPlan(f2, t.facets, t.multiFacets);
    var f4 := FundamentalFacetsPlan(f3, t.ordered, t.bounded, t.finite, t.numeric);
    NameUses(c, t.anonymous, t.name, t.namespace);
    TypeHereUses(c, f0, BaseTypeDefinition, t.base);
    TypeHereUses(c, f1, PrimitiveTypeDefinition, t.primitive);
    FacetsUses(c, f2, t.facets, t.multiFacets);
    FundamentalUses(c, f3, t);
    ValUses(c, f4, Final, t.final);
    ValUses(c, f4.Val(Final, t.final), Variety, t.variety);
  }

  lemma FundamentalUses(c: Memory, f: Nodes, t: SimpleType)
    ensures LocalUses(c, FundamentalFacetsPlan(f, t.ordered, t.bounded, t.finite, t.numeric)) == LocalUses(c, f)
  {
    hide LocalUses, Nodes.Group;
    var f1 := Start.Group(Ordered, Start.Val(FacetValue, t.ordered));
    var f2 := f1.Group(Bounded, Start.Val(FacetValue, BoolText(t.bounded)));
    var f3 := f2.Group(Cardinality, Start.Val(FacetValue, BoolText(t.finite)));
    OneFacetUses(c, Start, Ordered, t.ordered);
    OneFacetUses(c, f1, Bounded, BoolText(t.bounded));
    OneFacetUses(c, f2, Cardinality, BoolText(t.finite));
    OneFacetUses(c, f3, Numeric, BoolText(t.numeric));
    GroupUses(c, f, FundamentalFacets, f3.Group(Numeric, Start.Val(FacetValue, BoolText(t.numeric))));
  }

  lemma OneFacetUses(c: Memory, f: Nodes, tag: Tag, text: string)
    ensures LocalUses(c, f.Group(tag, Start.Val(FacetValue, text))) == LocalUses(c, f)
  {
    hide LocalUses;
    GroupUses(c, f, tag, Start.Val(FacetValue, text));
    ValUses(c, Start, FacetValue, text);
  }

  lemma FacetsUses(c: Memory, f: Nodes, facets: Option<seq<Facet>>, multi: Option<seq<MultiFacet>>)
    ensures LocalUses(c, FacetsPlan(f, facets, multi)) == LocalUses(c, f)
  {
    hide LocalUses, FacetNodes, MultiFacetNodes;
    ValUses(c, f, Facets, "");
    GroupUses(c, f, Facets, MultiFacetsPlan(SingleFacets(facets), multi));
    if facets.Some? {
      FacetListUses(c, facets.value, |facets.value|);
    }
    if multi.Some? {
      MultiFacetListUses(c, SingleFacets(facets), multi.value, |multi.value|);
    }
  }

  lemma {:induction false} FacetListUses(c: Memory, facets: seq<Facet>, n: nat)
    requires n <= |facets|
    ensures LocalUses(c, FacetNodes(facets, n)) == {}
    decreases n
  {
    hide LocalUses, FacetBody, Nodes.Group;
    GroupUses(c, Start, Facets, Start);
    if n > 0 {
      FacetListUses(c, facets, n - 1);
      GroupUses(c, FacetNodes(facets, n - 1), FacetOf(facets[n - 1].kind), FacetBody(facets[n - 1]));
      FacetUses(c, facets[n - 1]);
    }
  }

  lemma FacetUses(c: Memory, f: Facet)
    ensures LocalUses(c, FacetBody(f)) == {}
  {
    hide LocalUses, AnnotationPlan, Nodes.Val;
    var one := Start.Val(FacetValue, f.value);
    GroupUses(c, Start, Facets, Start);
    ValUses(c, Start, FacetValue, f.value);
    ValUses(c, one, FacetFixed, BoolText(f.fixed));
    AnnotationUses(c, one.Val(FacetFixed, BoolText(f.fixed)), f.annotation);
  }

  lemma MultiFacetUses(c: Memory, f: MultiFacet)
    ensures LocalUses(c, MultiFacetBody(f)) == {}
  {
    hide LocalUses, ValueNodes, AnnotationsPlan, Nodes.Val;
    ValueListUses(c, f.values, |f.values|);
    ValUses(c, ValueNodes(f.values, |f.values|), FacetFixed, BoolText(f.fixed));
    AnnotationsUses(c, ValueNodes(f.values, |f.values|).Val(FacetFixed, BoolText(f.fixed)), f.annotations);
  }

  lemma {:induction false} ValueListUses(c: Memory, values: seq<string>, n: nat)
    requires n <= |values|
    ensures LocalUses(c, ValueNodes(values, n)) == {}
    decreases n
  {
    if n > 0 {
      ValueListUses(c, values, n - 1);
    }
  }

  lemma {:induction false} MultiFacetListUses(c: Memory, f: Nodes, facets: seq<MultiFacet>, n: nat)
    requires n <= |facets|
    ensures LocalUses(c, MultiFacetNodes(f, facets, n)) == LocalUses(c, f)
    decreases n
  {
    hide LocalUses, MultiFacetBody, Nodes.Group;
    if n > 0 {
      MultiFacetListUses(c, f, facets, n - 1);
      GroupUses(c, MultiFacetNodes(f, facets, n - 1), FacetOf(facets[n - 1].kind), MultiFacetBody(facets[n - 1]));
      MultiFacetUses(c, facets[n - 1]);
    }
  }

  lemma {:induction false} MemberListUses(c: Memory, members: seq<Obj>, n: nat, x: Obj)
    requires n <= |members|
    ensures x in LocalUses(c, MemberTypeNodes(members, n)) <==> IsLocal(c, x) && x in members[..n]
    decreases n
  {
    hide LocalUses, TypeHere;
    if n == 0 {
      GroupUses(c, Start, MemberTypeDefinitions, Start);
    } else {
      MemberListUses(c, members, n - 1, x);
      TypeHereUses(c, MemberTypeNodes(members, n - 1), MemberTypeDefinition, Some(members[n - 1]));
      assert members[..n] == members[..n - 1] + [members[n - 1]];
    }
  }

  lemma MembersUses(c: Memory, f: Nodes, members: Option<seq<Obj>>, x: Obj)
    ensures x in LocalUses(c, MemberTypesPlan(f, members)) <==>
              x in LocalUses(c, f) || (IsLocal(c, x) && members.Some? && x in members.value)
  {
    hide LocalUses, MemberTypeNodes;
    ValUses(c, f, MemberTypeDefinitions, "");
    if members.Some? {
      GroupUses(c, f, MemberTypeDefinitions, MemberTypeNodes(members.value, |members.value|));
      MemberListUses(c, members.value, |members.value|, x);
      assert members.value[..|members.value|] == members.value;
    }
  }

  lemma ElementUses(c: Memory, e: ElementDecl)
    ensures LocalUses(c, ElementDeclBody(c, e)) == Only(c, e.typeDefinition)
  {
    hide LocalUses, ElementDeclHead, IdConstraintsPlan, DeclRef, AnnotationPlan, Nodes.Val;
    var f1 := IdConstraintsPlan(c, ElementDeclHead(e), e.identityConstraints);
    var f2 := DeclRef(f1, SubstitutionGroupAffiliation, ElementDeclaration, e.affiliation);
    var f3 := f2.Val(SubstitutionGroupExclusions, e.exclusions);
    var f4 := f3.Val(DisallowedSubstitutions, e.disallowed);
    ElementHeadUses(c, e);
    ConstraintsUses(c, ElementDeclHead(e), e.identityConstraints);
    DeclRefUses(c, f1, SubstitutionGroupAffiliation, ElementDeclaration, e.affiliation);
    ValUses(c, f2, SubstitutionGroupExclusions, e.exclusions);
    ValUses(c, f3, DisallowedSubstitutions, e.disallowed);
    ValUses(c, f4, Abstract, BoolText(e.isAbstract));
    AnnotationUses(c, f4.Val(Abstract, BoolText(e.isAbstract)), e.annotation);
  }

  lemma ElementHeadUses(c: Memory, e: ElementDecl)
    ensures LocalUses(c, ElementDeclHead(e)) == Only(c, e.typeDefinition)
  {
    hide LocalUses, TypeHere, ScopePlan, ValueConstraintPlan, Nodes.Val;
    var f0 := Start.Val(Name, e.name).Val(TargetNamespace, e.namespace);
    var f1 := TypeHere(f0, TypeDefinition, e.typeDefinition);
    var f2 := ScopePlan(f1, e.enclosing, e.scope);
    NameUses(c, false, e.name, e.namespace);
    TypeHereUses(c, f0, TypeDefinition, e.typeDefinition);
    ScopeUses(c, f1, e.enclosing, e.scope);
    ConstraintUses(c, f2, e.constraint);
    ValUses(c, ValueConstraintPlan(f2, e.constraint), Nillable, BoolText(e.nillable));
  }

  lemma ConstraintsUses(c: Memory, f: Nodes, list: Option<seq<Obj>>)
    ensures LocalUses(c, IdConstraintsPlan(c, f, list)) == LocalUses(c, f)
  {
    hide LocalUses, IdConstraintNodes;
    ValUses(c, f, IdentityConstraintDefinitions, "");
    if list.Some? {
      GroupUses(c, f, IdentityConstraintDefinitions, IdConstraintNodes(c, list.value, |list.value|));
      ConstraintListUses(c, list.value, |list.value|);
    }
  }

  lemma {:induction false} ConstraintListUses(c: Memory, list: seq<Obj>, n: nat)
    requires n <= |list|
    ensures LocalUses(c, IdConstraintNodes(c, list, n)) == {}
    decreases n
  {
    hide LocalUses, IdConstraintBody, Nodes.Defined;
    GroupUses(c, Start, Fields, Start);
    if n > 0 {
      ConstraintListUses(c, list, n - 1);
      DefinedUses(c, IdConstraintNodes(c, list, n - 1), IdentityConstraintDefinition, list[n - 1],
                  IdConstraintContents(c, list[n - 1]));
      if IsConstraint(c, list[n - 1]) {
        IdConstraintUses(c, c[list[n - 1]].constraint);
      }
    }
  }

  lemma DefinedUses(c: Memory, f: Nodes, tag: Tag, o: Obj, children: Nodes)
    ensures LocalUses(c, f.Defined(tag, o, children)) == LocalUses(c, f) + LocalUses(c, children)
  {
  }

  lemma IdConstraintUses(c: Memory, k: IdConstraint)
    ensures LocalUses(c, IdConstraintBody(k)) == {}
  {
    hide LocalUses, AnnotationsPlan, FieldNodes, Nodes.Val, Nodes.Group;
    var f0 := Start.Val(Name, k.name).Val(TargetNamespace, k.namespace);
    var f1 := IdConstraintHead(k);
    var f2 := f1.Group(Selector, XPathPlan(Start, k.selector));
    var f3 := f2.Group(Fields, FieldNodes(k.fields, |k.fields|));
    NameUses(c, false, k.name, k.namespace);
    ValUses(c, f0, IdentityConstraintCategory, k.category);
    GroupUses(c, f1, Selector, XPathPlan(Start, k.selector));
    PathUses(c, Start, k.selector);
    GroupUses(c, f2, Fields, FieldNodes(k.fields, |k.fields|));
    FieldListUses(c, k.fields, |k.fields|);
    RefUses(c, f3, ReferencedKey, k.refKey);
    AnnotationsUses(c, f3.Ref(ReferencedKey, k.refKey), k.annotations);
  }

  lemma PathUses(c: Memory, f: Nodes, path: string)
    ensures LocalUses(c, XPathPlan(f, path)) == LocalUses(c, f)
    ensures LocalUses(c, Start) == {}
  {
    hide LocalUses;
    GroupUses(c, f, XPath, Start.Val(XPath, path));
    ValUses(c, Start, XPath, path);
  }

  lemma {:induction false} FieldListUses(c: Memory, fields: seq<string>, n: nat)
    requires n <= |fields|
    ensures LocalUses(c, FieldNodes(fields, n)) == {}
    decreases n
  {
    hide XPathPlan;
    if n > 0 {
      FieldListUses(c, fields, n - 1);
      PathUses(c, FieldNodes(fields, n - 1), fields[n - 1]);
    }
  }

  lemma AttributeDeclUses(c: Memory, a: AttributeDecl)
    ensures LocalUses(c, AttributeDeclBody(a)) == Only(c, a.typeDefinition)
  {
    hide LocalUses, DeclHere, ScopePlan, ValueConstraintPlan, AnnotationPlan, Nodes.Val, Nodes.Group;
    var f0 := Start.Val(Name, a.name).Val(TargetNamespace, a.namespace);
    var f1 := f0.Group(TypeDefinition, DeclHere(Start, SimpleTypeDefinition, a.typeDefinition));
    var f2 := ScopePlan(f1, a.enclosing, a.scope);
    NameUses(c, false, a.name, a.namespace);
    GroupUses(c, f0, TypeDefinition, DeclHere(Start, SimpleTypeDefinition, a.typeDefinition));
    DeclHereUses(c, Start, SimpleTypeDefinition, a.typeDefinition);
    ScopeUses(c, f1, a.enclosing, a.scope);
    ConstraintUses(c, f2, a.constraint);
    AnnotationUses(c, ValueConstraintPlan(f2, a.constraint), a.annotation);
  }

  lemma AttributeGroupUses(c: Memory, g: AttributeGroup, x: Obj)
    ensures x in LocalUses(c, AttributeGroupBody(g)) <==> IsLocal(c, x) && UsedByAttributes(g.attributeUses, x)
  {
    hide LocalUses, AttributeUsesPlan, AttributeWildcardPlan, AnnotationPlan, UsedByAttributes, Nodes.Val;
    var f0 := Start.Val(Name, g.name).Val(TargetNamespace, g.namespace);
    var f1 := AttributeUsesPlan(f0, g.attributeUses);
    NameUses(c, false, g.name, g.namespace);
    AttributesUses(c, f0, g.attributeUses, x);
    AttributeWildcardUses(c, f1, g.attributeWildcard);
    AnnotationUses(c, AttributeWildcardPlan(f1, g.attributeWildcard), g.annotation);
  }

  lemma ModelGroupDefUses(c: Memory, g: ModelGroupDef, x: Obj)
    ensures x in LocalUses(c, ModelGroupDefBody(g)) <==> IsLocal(c, x) && UsedInGroup(g.group, x)
  {
    hide LocalUses, ModelGroupPlan, AnnotationPlan, UsedInGroup, Nodes.Val;
    var f0 := Start.Val(Name, g.name).Val(TargetNamespace, g.namespace);
    NameUses(c, false, g.name, g.namespace);
    ModelGroupUses(c, f0, g.group, x);
    AnnotationUses(c, ModelGroupPlan(f0, g.group), g.annotation);
  }

  lemma NotationUses(c: Memory, n: NotationDecl)
    ensures LocalUses(c, NotationDeclBody(n)) == {}
  {
    hide LocalUses, AnnotationPlan, Nodes.Val;
    var f0 := Start.Val(Name, n.name).Val(TargetNamespace, n.namespace);
    var f1 := f0.Val(SystemIdentifier, n.systemId);
    NameUses(c, false, n.name, n.namespace);
    ValUses(c, f0, SystemIdentifier, n.systemId);
    ValUses(c, f1, PublicIdentifier, n.publicId);
    AnnotationUses(c, f1.Val(PublicIdentifier, n.publicId), n.annotation);
  }

  /**
   * The local components that stand in the contents of a component are exactly those it uses: the trees forget
   * none and bring in no other.
   */
  lemma ContentsUse(c: Memory, o: Obj, p: Obj)
    ensures p in LocalUses(c, Contents(c, o)) <==> UsedBy(c, o, p)
  {
    hide ComplexTypeBody, SimpleTypeBody, ElementDeclBody, AttributeDeclBody, AttributeGroupBody, ModelGroupDefBody,
         NotationDeclBody, IdConstraintBody, UsedByAttributes, UsedInParticle, UsedInGroup;
    if o in c {
      match c[o]
      case OfComplexType(x) => ComplexTypeUses(c, x, p);
      case OfSimpleType(x) => SimpleTypeUses(c, x, p);
      case OfElement(x) => ElementUses(c, x);
      case OfAttribute(x) => AttributeDeclUses(c, x);
      case OfAttributeGroup(x) => AttributeGroupUses(c, x, p);
      case OfModelGroup(x) => ModelGroupDefUses(c, x, p);
      case OfNotation(x) => NotationUses(c, x);
      case OfConstraint(x) => IdConstraintUses(c, x);
    }
  }
}
