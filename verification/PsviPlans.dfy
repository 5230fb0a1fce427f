/**
 * For every kind of schema component, the trees shown for it, with Inline where another component is
 * expanded or referred to. Each function appends to the trees already there, as the writer does.
 */
module PsviPlans {
  import opened Options
  import opened PsviOutput
  import opened PsviComponents

  // -------------------------------------------------------------------------
  //  Annotations
  // -------------------------------------------------------------------------

  predicate IsNamespaceDecl(a: DomAttr) { a.namespace == XMLNS_URI }

  /** The first n attributes that are, or are not, namespace declarations, in order. */
  function Select(attrs: seq<DomAttr>, n: nat, wanted: bool): seq<DomAttr>
    requires n <= |attrs|
  {
    if n == 0 then []
    else if IsNamespaceDecl(attrs[n - 1]) == wanted then Select(attrs, n - 1, wanted) + [attrs[n - 1]]
    else Select(attrs, n - 1, wanted)
  }

  /** The places of the namespace declarations among the first n attributes. */
  function NamespaceIndices(attrs: seq<DomAttr>, n: nat): (r: seq<nat>)
    requires n <= |attrs|
    ensures forall k :: 0 <= k < |r| ==> r[k] < n
  {
    if n == 0 then []
    else if IsNamespaceDecl(attrs[n - 1]) then NamespaceIndices(attrs, n - 1) + [n - 1]
    else NamespaceIndices(attrs, n - 1)
  }

  lemma {:induction false} IndicesSelect(attrs: seq<DomAttr>, n: nat)
    requires n <= |attrs|
    ensures var r, s := NamespaceIndices(attrs, n), Select(attrs, n, true);
            && |r| == |s| && (forall k :: 0 <= k < |r| ==> s[k] == attrs[r[k]])
            && (forall j, k :: 0 <= j < k < |r| ==> r[j] < r[k])
            && forall i :: 0 <= i < n ==> (i in r <==> attrs[i].namespace == "http://www.w3.org/2000/xmlns/")
  {
    if n > 0 {
      IndicesSelect(attrs, n - 1);
    }
  }

  function DomAttrBody(a: DomAttr): (r: Nodes)
    ensures Plainly(Start, r)
  {
    Start.Val(NamespaceName, a.namespace).Val(LocalName, a.localName).Val(Prefix, a.prefix)
    .Val(NormalizedValue, a.value).Val(Specified, BoolText(a.specified)).Val(AttributeType, a.typeName)
    .Absent(References)
  }

  function DomAttrNodes(attrs: seq<DomAttr>): (r: Nodes)
    ensures Plainly(Start, r)
  {
    if attrs == [] then Start
    else DomAttrNodes(attrs[..|attrs| - 1]).Group(Attribute, DomAttrBody(attrs[|attrs| - 1]))
  }

  lemma DomAttrNodesMore(attrs: seq<DomAttr>, a: DomAttr)
    ensures DomAttrNodes(attrs + [a]) == DomAttrNodes(attrs).Group(Attribute, DomAttrBody(a))
  {
    hide DomAttrBody, Plainly, Quiet, CommentsFlat, Fixed;
    assert (attrs + [a])[..|attrs + [a]| - 1] == attrs;
  }

  /**
   * Ordinary attributes first, then the namespace declarations; an empty group is shown as an empty tag.
   * The places of the namespace declarations stay noted.
   */
  function DomAttributes(pre: Nodes, attrs: seq<DomAttr>): (r: Nodes)
    ensures Plainly(pre, r)
  {
    AttrGroup(AttrGroup(pre, Attributes, Select(attrs, |attrs|, false)),
              NamespaceAttributes, Select(attrs, |attrs|, true))
    .Marked(NamespaceIndices(attrs, |attrs|))
  }

  function AttrGroup(pre: Nodes, tag: Tag, attrs: seq<DomAttr>): (r: Nodes)
    ensures PlainlyBut(pre, r, tag.SchemaInformation?)
  {
    if attrs == [] then pre.Blank(tag) else pre.Group(tag, DomAttrNodes(attrs))
  }

  function DomElementBody(e: DomElement): (r: Nodes)
    ensures Plainly(Start, r)
  {
    DomAttributes(
      Start.Val(NamespaceName, e.namespace).Val(LocalName, e.localName).Val(Prefix, e.prefix)
      .Group(Children, Start.Group(Character, Start.Val(TextContent, e.text))),
      e.attrs)
  }

  function DomElementNodes(elems: seq<DomElement>, n: nat): (r: Nodes)
    requires n <= |elems|
    ensures Plainly(Start, r)
  {
    if n == 0 then Start else DomElementNodes(elems, n - 1).Group(Element, DomElementBody(elems[n - 1]))
  }

  function DomElements(pre: Nodes, enclose: Tag, elems: seq<DomElement>): (r: Nodes)
    ensures PlainlyBut(pre, r, enclose.SchemaInformation?)
  {
    if elems == [] then pre.Absent(enclose) else pre.Group(enclose, DomElementNodes(elems, |elems|))
  }

  function AnnotationBody(a: Annotation): (r: Nodes)
    requires a.Annotation?
    ensures Plainly(Start, r)
  {
    DomAttributes(
      DomElements(DomElements(Start, ApplicationInformation, a.appInfos), UserInformation, a.documentations),
      a.attrs)
  }

  function AnnotationChain(pre: Nodes, a: Annotation): (r: Nodes)
    ensures Plainly(pre, r)
    decreases a
  {
    if a.NoAnnotation? then pre
    else AnnotationChain(pre.Group(Tag.Annotation, AnnotationBody(a)), a.next)
  }

  function AnnotationPlan(pre: Nodes, a: Annotation): (r: Nodes)
    ensures Plainly(pre, r)
  {
    if a.NoAnnotation? then pre.Absent(Tag.Annotation) else AnnotationChain(pre, a)
  }

  function AnnotationNodes(annotations: seq<Annotation>, n: nat): (r: Nodes)
    requires n <= |annotations|
    ensures Plainly(Start, r)
  {
    if n == 0 then Start else AnnotationPlan(AnnotationNodes(annotations, n - 1), annotations[n - 1])
  }

  function AnnotationsPlan(pre: Nodes, annotations: Option<seq<Annotation>>): (r: Nodes)
    ensures Plainly(pre, r)
  {
    if annotations.None? then pre.Absent(Annotations)
    else pre.Group(Annotations, AnnotationNodes(annotations.value, |annotations.value|))
  }

  // -------------------------------------------------------------------------
  //  References, and components shown in place
  // -------------------------------------------------------------------------

  function TypeHere(pre: Nodes, enclose: Tag, o: Option<Obj>): (r: Nodes)
    ensures PlainlyBut(pre, r, enclose.SchemaInformation?)
  {
    if o.None? then pre.Absent(enclose) else pre.Group(enclose, Start.Here(o.value))
  }

  function DeclHere(pre: Nodes, tag: Tag, o: Option<Obj>): (r: Nodes)
    ensures PlainlyBut(pre, r, tag.SchemaInformation?)
  {
    if o.None? then pre.Absent(tag) else pre.Here(o.value)
  }

  function TypeRef(c: Memory, pre: Nodes, enclose: Tag, o: Option<Obj>): (r: Nodes)
    ensures PlainlyBut(pre, r, enclose.SchemaInformation?)
  {
    if o.None? then pre.Absent(enclose) else pre.Group(enclose, Start.Ref(TagOf(c, o.value), o))
  }

  function DeclRef(pre: Nodes, enclose: Tag, tag: Tag, o: Option<Obj>): (r: Nodes)
    ensures PlainlyBut(pre, r, enclose.SchemaInformation? || tag.SchemaInformation?)
  {
    if o.None? then pre.Absent(enclose) else pre.Group(enclose, Start.Ref(tag, o))
  }

  // -------------------------------------------------------------------------
  //  Parts of components
  // -------------------------------------------------------------------------

  function ValueConstraintPlan(pre: Nodes, v: ValueConstraint): (r: Nodes)
    ensures Plainly(pre, r)
  {
    if v.Unconstrained? then pre.Absent(Tag.ValueConstraint)
    else pre.Group(Tag.ValueConstraint, ConstraintValueBody(v.kind, v.value))
  }

  function ConstraintValueBody(kind: string, value: string): (r: Nodes)
    ensures Plainly(Start, r)
  {
    Start.Val(Variety, kind).Val(FacetValue, value)
  }

  function ScopePlan(pre: Nodes, enclosing: Option<Obj>, scope: ScopeKind): (r: Nodes)
    ensures Plainly(pre, r)
  {
    match scope
    case ScopeAbsent => pre.Absent(Scope)
    case ScopeLocal => pre.Group(Scope, Start.Ref(ComplexTypeDefinition, enclosing))
    case ScopeGlobal => pre.Val(Scope, "global")
  }

  function WildcardPlan(pre: Nodes, w: Wildcard): (r: Nodes)
    ensures Plainly(pre, r)
  {
    if w.NoWildcard? then pre.Absent(Tag.Wildcard) else pre.Group(Tag.Wildcard, WildcardBody(w))
  }

  function WildcardBody(w: Wildcard): (r: Nodes)
    requires w.Wildcard?
    ensures Plainly(Start, r)
  {
    AnnotationPlan(
      Start.Group(Tag.NamespaceConstraint, ConstraintBody(w.constraint)).Val(ProcessContents, w.processContents),
      w.annotation)
  }

  function ConstraintBody(k: NamespaceConstraint): (r: Nodes)
    ensures Plainly(Start, r)
  {
    match k
    case AnyNamespace => Start.Val(Variety, "any").Absent(Namespaces)
    case DerivationList(namespaces) => Start.Absent(Variety).List(Namespaces, namespaces)
    case NotNamespace(namespaces) => Start.Val(Variety, "not").List(Namespaces, namespaces)
  }

  function AttributeWildcardPlan(pre: Nodes, w: Wildcard): (r: Nodes)
    ensures Plainly(pre, r)
  {
    if w.NoWildcard? then pre.Absent(AttributeWildcard)
    else pre.Group(AttributeWildcard, WildcardPlan(Start, w))
  }

  function AttributeUseBody(u: AttributeUse): (r: Nodes)
    ensures Plainly(Start, r)
  {
    ValueConstraintPlan(
      DeclHere(Start.Val(Required, BoolText(u.required)), AttributeDeclaration, u.declaration), u.constraint)
  }

  function AttributeUseNodes(uses: seq<AttributeUse>, n: nat): (r: Nodes)
    requires n <= |uses|
    ensures Plainly(Start, r)
  {
    if n == 0 then Start
    else AttributeUseNodes(uses, n - 1).Group(Tag.AttributeUse, AttributeUseBody(uses[n - 1]))
  }

  function AttributeUsesPlan(pre: Nodes, uses: Option<seq<AttributeUse>>): (r: Nodes)
    ensures Plainly(pre, r)
  {
    if uses.None? then pre.Absent(AttributeUses)
    else pre.Group(AttributeUses, AttributeUseNodes(uses.value, |uses.value|))
  }

  function ParticlePlan(pre: Nodes, p: Particle): (r: Nodes)
    ensures Plainly(pre, r)
    decreases p, 1
  {
    if p.NoParticle? then pre.Absent(Tag.Particle)
    else pre.Group(Tag.Particle, ParticleBody(p))
  }

  function ParticleBody(p: Particle): (r: Nodes)
    requires p.Particle?
    ensures Plainly(Start, r)
    decreases p, 0
  {
    MaxOccursPlan(Start.Int(MinOccurs, p.minOccurs), p.maxOccurs).Group(Tag.Term, TermBody(p.term))
  }

  function MaxOccursPlan(pre: Nodes, maxOccurs: Option<nat>): (r: Nodes)
    ensures Plainly(pre, r)
  {
    if maxOccurs.None? then pre.Val(MaxOccurs, "unbounded") else pre.Int(MaxOccurs, maxOccurs.value)
  }

  function TermBody(t: Term): (r: Nodes)
    ensures Plainly(Start, r)
    decreases t
  {
    match t
    case ElementTerm(o) => DeclHere(Start, ElementDeclaration, o)
    case GroupTerm(g) => ModelGroupPlan(Start, g)
    case WildcardTerm(w) => WildcardPlan(Start, w)
    case EmptyTerm => Start
  }

  function ModelGroupPlan(pre: Nodes, g: ModelGroup): (r: Nodes)
    ensures Plainly(pre, r)
    decreases g, 2
  {
    if g.NoGroup? then pre.Absent(Tag.ModelGroup)
    else pre.Group(Tag.ModelGroup, ModelGroupBody(g))
  }

  function ModelGroupBody(g: ModelGroup): (r: Nodes)
    requires g.ModelGroup?
    ensures Plainly(Start, r)
    decreases g, 1
  {
    AnnotationPlan(Start.Val(Compositor, g.compositor).Group(Particles, ParticleNodes(g, |g.particles|)), g.annotation)
  }

  function ParticleNodes(g: ModelGroup, n: nat): (r: Nodes)
    requires g.ModelGroup? && n <= |g.particles|
    ensures Plainly(Start, r)
    decreases g, 0, n
  {
    if n == 0 then Start else ParticlePlan(ParticleNodes(g, n - 1), g.particles[n - 1])
  }

  function FacetBody(f: Facet): (r: Nodes)
    ensures Plainly(Start, r)
  {
    AnnotationPlan(Start.Val(FacetValue, f.value).Val(FacetFixed, BoolText(f.fixed)), f.annotation)
  }

  function FacetNodes(facets: seq<Facet>, n: nat): (r: Nodes)
    requires n <= |facets|
    ensures Plainly(Start, r)
  {
    if n == 0 then Start
    else FacetNodes(facets, n - 1).Group(FacetOf(facets[n - 1].kind), FacetBody(facets[n - 1]))
  }

  function ValueNodes(values: seq<string>, n: nat): (r: Nodes)
    requires n <= |values|
    ensures Plainly(Start, r)
  {
    if n == 0 then Start else ValueNodes(values, n - 1).Val(FacetValue, values[n - 1])
  }

  function MultiFacetBody(f: MultiFacet): (r: Nodes)
    ensures Plainly(Start, r)
  {
    AnnotationsPlan(ValueNodes(f.values, |f.values|).Val(FacetFixed, BoolText(f.fixed)), f.annotations)
  }

  function MultiFacetNodes(pre: Nodes, facets: seq<MultiFacet>, n: nat): (r: Nodes)
    requires n <= |facets|
    ensures Plainly(pre, r)
  {
    if n == 0 then pre
    else
      MultiFacetNodes(pre, facets, n - 1).Group(FacetOf(facets[n - 1].kind), MultiFacetBody(facets[n - 1]))
  }

  function FacetsPlan(pre: Nodes, facets: Option<seq<Facet>>, multi: Option<seq<MultiFacet>>): (r: Nodes)
    ensures Plainly(pre, r)
  {
    if facets.None? && multi.None? then pre.Absent(Facets)
    else
      pre.Group(Facets, MultiFacetsPlan(SingleFacets(facets), multi))
  }

  function SingleFacets(facets: Option<seq<Facet>>): (r: Nodes)
    ensures Plainly(Start, r)
  {
    if facets.None? then Start else FacetNodes(facets.value, |facets.value|)
  }

  function MultiFacetsPlan(pre: Nodes, multi: Option<seq<MultiFacet>>): (r: Nodes)
    ensures Plainly(pre, r)
  {
    if multi.None? then pre else MultiFacetNodes(pre, multi.value, |multi.value|)
  }

  function FundamentalFacetsPlan(pre: Nodes, ordered: string, bounded: bool, finite: bool, numeric: bool)
    : (r: Nodes)
    ensures Plainly(pre, r)
  {
    pre.Group(FundamentalFacets,
      Start.Group(Ordered, Start.Val(FacetValue, ordered))
      .Group(Bounded, Start.Val(FacetValue, BoolText(bounded)))
      .Group(Cardinality, Start.Val(FacetValue, BoolText(finite)))
      .Group(Numeric, Start.Val(FacetValue, BoolText(numeric))))
  }

  function MemberTypeNodes(members: seq<Obj>, n: nat): (r: Nodes)
    requires n <= |members|
    ensures Plainly(Start, r)
  {
    if n == 0 then Start
    else TypeHere(MemberTypeNodes(members, n - 1), MemberTypeDefinition, Some(members[n - 1]))
  }

  function MemberTypesPlan(pre: Nodes, members: Option<seq<Obj>>): (r: Nodes)
    ensures Plainly(pre, r)
  {
    if members.None? then pre.Absent(MemberTypeDefinitions)
    else pre.Group(MemberTypeDefinitions, MemberTypeNodes(members.value, |members.value|))
  }

  function XPathPlan(pre: Nodes, xpath: string): (r: Nodes)
    ensures Plainly(pre, r)
  {
    pre.Group(XPath, Start.Val(XPath, xpath))
  }

  function FieldNodes(fields: seq<string>, n: nat): (r: Nodes)
    requires n <= |fields|
    ensures Plainly(Start, r)
  {
    if n == 0 then Start else XPathPlan(FieldNodes(fields, n - 1), fields[n - 1])
  }

  // -------------------------------------------------------------------------
  //  Components
  // -------------------------------------------------------------------------

  function ComplexTypeBody(x: ComplexType): (r: Nodes)
    ensures Plainly(Start, r)
  {
    AnnotationsPlan(
      ComplexTypeHead(x).Group(ContentType, ContentTypeBody(x)).Val(ProhibitedSubstitutions, x.prohibited),
      x.annotations)
  }

  function ComplexTypeHead(x: ComplexType): (r: Nodes)
    ensures Plainly(Start, r)
  {
    var typed := TypeHere(NameAndTarget(x.anonymous, x.name, x.namespace), BaseTypeDefinition, x.base)
                 .Val(DerivationMethod, x.derivation).Val(Final, x.final)
                 .Val(Abstract, BoolText(x.isAbstract));
    AttributeWildcardPlan(AttributeUsesPlan(typed, x.attributeUses), x.attributeWildcard)
  }

  function ContentTypeBody(x: ComplexType): (r: Nodes)
    ensures Plainly(Start, r)
  {
    ParticlePlan(DeclHere(Start.Val(Variety, x.variety), SimpleTypeDefinition, x.simpleType), x.particle)
  }

  function NameAndTarget(anonymous: bool, name: string, namespace: string): (r: Nodes)
    ensures Plainly(Start, r)
  {
    (if anonymous then Start.Absent(Name) else Start.Val(Name, name)).Val(TargetNamespace, namespace)
  }

  function SimpleTypeBody(x: SimpleType): (r: Nodes)
    ensures Plainly(Start, r)
  {
    AnnotationsPlan(MemberTypesPlan(TypeHere(SimpleTypeFacets(x), ItemTypeDefinition, x.itemType), x.memberTypes),
                    x.annotations)
  }

  function SimpleTypeFacets(x: SimpleType): (r: Nodes)
    ensures Plainly(Start, r)
  {
    FundamentalFacetsPlan(FacetsPlan(SimpleTypeHead(x), x.facets, x.multiFacets),
                          x.ordered, x.bounded, x.finite, x.numeric)
    .Val(Final, x.final).Val(Variety, x.variety)
  }

  function SimpleTypeHead(x: SimpleType): (r: Nodes)
    ensures Plainly(Start, r)
  {
    TypeHere(TypeHere(NameAndTarget(x.anonymous, x.name, x.namespace), BaseTypeDefinition, x.base),
             PrimitiveTypeDefinition, x.primitive)
  }

  function AttributeDeclBody(x: AttributeDecl): (r: Nodes)
    ensures Plainly(Start, r)
  {
    var typed := Start.Val(Name, x.name).Val(TargetNamespace, x.namespace)
                 .Group(TypeDefinition, DeclHere(Start, SimpleTypeDefinition, x.typeDefinition));
    AnnotationPlan(ValueConstraintPlan(ScopePlan(typed, x.enclosing, x.scope), x.constraint), x.annotation)
  }

  function AttributeGroupBody(x: AttributeGroup): (r: Nodes)
    ensures Plainly(Start, r)
  {
    AnnotationPlan(
      AttributeWildcardPlan(
        AttributeUsesPlan(Start.Val(Name, x.name).Val(TargetNamespace, x.namespace), x.attributeUses),
        x.attributeWildcard),
      x.annotation)
  }

  function ModelGroupDefBody(x: ModelGroupDef): (r: Nodes)
    ensures Plainly(Start, r)
  {
    AnnotationPlan(ModelGroupPlan(Start.Val(Name, x.name).Val(TargetNamespace, x.namespace), x.group),
                   x.annotation)
  }

  function NotationDeclBody(x: NotationDecl): (r: Nodes)
    ensures Plainly(Start, r)
  {
    AnnotationPlan(
      Start.Val(Name, x.name).Val(TargetNamespace, x.namespace).Val(SystemIdentifier, x.systemId)
      .Val(PublicIdentifier, x.publicId),
      x.annotation)
  }

  function IdConstraintBody(x: IdConstraint): (r: Nodes)
    ensures Plainly(Start, r)
  {
    AnnotationsPlan(
      FieldsPlan(SelectorPlan(IdConstraintHead(x), x.selector), x.fields).Ref(ReferencedKey, x.refKey),
      x.annotations)
  }

  function IdConstraintHead(x: IdConstraint): (r: Nodes)
    ensures Plainly(Start, r)
  {
    Start.Val(Name, x.name).Val(TargetNamespace, x.namespace).Val(IdentityConstraintCategory, x.category)
  }

  function SelectorPlan(pre: Nodes, selector: string): (r: Nodes)
    ensures Plainly(pre, r)
  {
    pre.Group(Selector, XPathPlan(Start, selector))
  }

  function FieldsPlan(pre: Nodes, fields: seq<string>): (r: Nodes)
    ensures Plainly(pre, r)
  {
    pre.Group(Fields, FieldNodes(fields, |fields|))
  }

  function IdConstraintContents(c: Memory, o: Obj): (r: Nodes)
    ensures Plainly(Start, r)
  {
    if IsConstraint(c, o) then IdConstraintBody(c[o].constraint) else Start
  }

  function IdConstraintNodes(c: Memory, list: seq<Obj>, n: nat): (r: Nodes)
    requires n <= |list|
    ensures Quiet(r) && CommentsFlat(r) && Fixed(r) == list[..n] && NoSchema(r)
  {
    if n == 0 then Start
    else
      assert list[..n] == list[..n - 1] + ([list[n - 1]] + []);
      IdConstraintNodes(c, list, n - 1)
      .Defined(IdentityConstraintDefinition, list[n - 1], IdConstraintContents(c, list[n - 1]))
  }

  function IdConstraintsPlan(c: Memory, pre: Nodes, list: Option<seq<Obj>>): (r: Nodes)
    ensures (Quiet(pre) ==> Quiet(r)) && (CommentsFlat(pre) ==> CommentsFlat(r))
    ensures Fixed(r) == Fixed(pre) + (if list.None? then [] else list.value) && SchemaForms(r) == SchemaForms(pre)
  {
    if list.None? then pre.Absent(IdentityConstraintDefinitions)
    else
      assert list.value[..|list.value|] == list.value;
      pre.Group(IdentityConstraintDefinitions, IdConstraintNodes(c, list.value, |list.value|))
  }

  function ElementDeclBody(c: Memory, x: ElementDecl): (r: Nodes)
    ensures Quiet(r) && CommentsFlat(r) && NoSchema(r)
    ensures Fixed(r) == if x.identityConstraints.None? then [] else x.identityConstraints.value
  {
    assert Quiet(Start) && CommentsFlat(Start) && Fixed(Start) == [] && NoSchema(Start);
    hide Quiet, CommentsFlat, Fixed, SchemaForms, ElementDeclHead, IdConstraintsPlan, DeclRef, AnnotationPlan;
    var keyed := IdConstraintsPlan(c, ElementDeclHead(x), x.identityConstraints);
    AnnotationPlan(
      DeclRef(keyed, SubstitutionGroupAffiliation, ElementDeclaration, x.affiliation)
      .Val(SubstitutionGroupExclusions, x.exclusions).Val(DisallowedSubstitutions, x.disallowed)
      .Val(Abstract, BoolText(x.isAbstract)),
      x.annotation)
  }

  function ElementDeclHead(x: ElementDecl): (r: Nodes)
    ensures Plainly(Start, r)
  {
    var typed := TypeHere(Start.Val(Name, x.name).Val(TargetNamespace, x.namespace),
                          TypeDefinition, x.typeDefinition);
    ValueConstraintPlan(ScopePlan(typed, x.enclosing, x.scope), x.constraint).Val(Nillable, BoolText(x.nillable))
  }

  /** What stands inside the definition of component o. */
  function Contents(c: Memory, o: Obj): (r: Nodes)
    ensures Quiet(r) && CommentsFlat(r) && NoSchema(r)
    ensures Fixed(r) == OwnConstraints(c, o)
  {
    hide ComplexTypeBody, SimpleTypeBody, ElementDeclBody, AttributeDeclBody, AttributeGroupBody,
         ModelGroupDefBody, NotationDeclBody, IdConstraintBody;
    if o !in c then Start
    else
      match c[o]
      case OfComplexType(x) => ComplexTypeBody(x)
      case OfSimpleType(x) => SimpleTypeBody(x)
      case OfElement(x) => ElementDeclBody(c, x)
      case OfAttribute(x) => AttributeDeclBody(x)
      case OfAttributeGroup(x) => AttributeGroupBody(x)
      case OfModelGroup(x) => ModelGroupDefBody(x)
      case OfNotation(x) => NotationDeclBody(x)
      case OfConstraint(x) => IdConstraintBody(x)
  }

  /** The identity constraints of an element declaration. */
  function OwnConstraints(c: Memory, o: Obj): seq<Obj> {
    if IsElement(c, o) && c[o].element.identityConstraints.Some? then c[o].element.identityConstraints.value else []
  }

  // -------------------------------------------------------------------------
  //  The schema model
  // -------------------------------------------------------------------------

  function DefinitionNodes(c: Memory, pre: Nodes, list: seq<Obj>, n: nat): (r: Nodes)
    requires n <= |list|
    ensures (Quiet(pre) ==> Quiet(r)) && (CommentsFlat(pre) ==> CommentsFlat(r)) && SchemaForms(r) == SchemaForms(pre)
  {
    if n == 0 then pre
    else
      DefinitionNodes(c, pre, list, n - 1)
      .Defined(TagOf(c, list[n - 1]), list[n - 1], Contents(c, list[n - 1]))
  }

  function AllDefinitions(c: Memory, pre: Nodes, list: seq<Obj>): (r: Nodes)
    ensures (Quiet(pre) ==> Quiet(r)) && (CommentsFlat(pre) ==> CommentsFlat(r)) && SchemaForms(r) == SchemaForms(pre)
  {
    DefinitionNodes(c, pre, list, |list|)
  }

  function ComponentsBody(c: Memory, item: NamespaceItem): (r: Nodes)
    ensures Quiet(r) && CommentsFlat(r) && NoSchema(r)
  {
    var declared := DeclarationsBody(c, item);
    var grouped := AllDefinitions(c, AllDefinitions(c, declared, item.attributeGroups), item.modelGroups);
    AllDefinitions(c, grouped, item.notations)
  }

  function DeclarationsBody(c: Memory, item: NamespaceItem): (r: Nodes)
    ensures Quiet(r) && CommentsFlat(r) && NoSchema(r)
  {
    AllDefinitions(c, AllDefinitions(c, AllDefinitions(c, Start, item.types), item.attributes), item.elements)
  }

  function LocationNodes(locations: seq<string>, n: nat): (r: Nodes)
    requires n <= |locations|
    ensures Plainly(Start, r)
  {
    if n == 0 then Start
    else
      LocationNodes(locations, n - 1)
      .Group(SchemaDocument, Start.Val(DocumentLocation, locations[n - 1]).Absent(PsvDocument))
  }

  function SchemaAnnotationsPlan(pre: Nodes, annotations: Option<seq<Annotation>>): (r: Nodes)
    ensures Plainly(pre, r)
  {
    if annotations.None? || annotations.value == [] then pre.Absent(SchemaAnnotations)
    else pre.Group(SchemaAnnotations, AnnotationNodes(annotations.value, |annotations.value|))
  }

  function NamespaceItemBody(c: Memory, item: NamespaceItem): (r: Nodes)
    ensures Quiet(r) && CommentsFlat(r) && NoSchema(r)
  {
    SchemaAnnotationsPlan(
      Start.Val(SchemaNamespace, item.namespace).Group(SchemaComponents, ComponentsBody(c, item))
      .Group(SchemaDocuments, LocationNodes(item.locations, |item.locations|)),
      item.annotations)
  }

  /** The namespace of XML Schema itself is left out. */
  function NamespaceItemNodes(c: Memory, items: seq<NamespaceItem>, n: nat): (r: Nodes)
    requires n <= |items|
    ensures Quiet(r) && CommentsFlat(r) && NoSchema(r)
  {
    if n == 0 then Start
    else if items[n - 1].namespace == XML_SCHEMA_URI then NamespaceItemNodes(c, items, n - 1)
    else
      NamespaceItemNodes(c, items, n - 1)
      .Group(NamespaceSchemaInformation, NamespaceItemBody(c, items[n - 1]))
  }

  function SchemaInformationPlan(c: Memory, pre: Nodes, model: Option<seq<NamespaceItem>>): (r: Nodes)
    ensures (Quiet(pre) ==> Quiet(r)) && (CommentsFlat(pre) ==> CommentsFlat(r))
    ensures SchemaForms(r) == SchemaForms(pre) + [if model.None? then Missing(0) else Given(0)]
  {
    if model.None? then pre.Absent(SchemaInformation)
    else pre.Group(SchemaInformation, NamespaceItemNodes(c, model.value, |model.value|))
  }
}
