/**
 * When the lines of a definition describe a component: what its children have to say, by their names, for every kind of
 * component. Nothing here knows in which order, or by which functions, the writer shows them.
 */
module PsviDescriptions {
  import opened Options
  import opened Numerals
  import opened PsviOutput
  import opened PsviComponents
  import opened PsviItems
  import opened PsviReports

  type Ids = map<Obj, string>

  function YesNo(b: bool): string { if b then "true" else "false" }

  // -------------------------------------------------------------------------
  //  Annotations
  // -------------------------------------------------------------------------

  /** The attributes that are, or are not, in the namespace of namespace declarations, in order. */
  function Picked(attrs: seq<DomAttr>, declarations: bool): seq<DomAttr> {
    if attrs == [] then []
    else
      (if (attrs[0].namespace == "http://www.w3.org/2000/xmlns/") == declarations then [attrs[0]] else [])
      + Picked(attrs[1..], declarations)
  }

  predicate DomAttrTold(a: DomAttr, item: Item) {
    item.Elem? && item.tag.Attribute? &&
    var f := FactsOf(item.children);
    && f.Get(NamespaceName) == a.namespace && f.Get(LocalName) == a.localName && f.Get(Prefix) == a.prefix
    && f.Get(NormalizedValue) == a.value && f.Get(Specified) == YesNo(a.specified) && f.Get(AttributeType) == a.typeName
  }

  predicate DomAttrsTold(attrs: seq<DomAttr>, kids: seq<Item>) {
    |kids| == |attrs| && forall i :: 0 <= i < |attrs| ==> DomAttrTold(attrs[i], kids[i])
  }

  /** Ordinary attributes and namespace declarations stand in two lists. */
  predicate AttributesTold(attrs: seq<DomAttr>, f: Facts) {
    && DomAttrsTold(Picked(attrs, false), Kids(f.Sub(Attributes)))
    && DomAttrsTold(Picked(attrs, true), Kids(f.Sub(NamespaceAttributes)))
  }

  predicate DomElementTold(e: DomElement, item: Item) {
    item.Elem? && item.tag.Element? &&
    var f := FactsOf(item.children);
    && f.Get(NamespaceName) == e.namespace && f.Get(LocalName) == e.localName && f.Get(Prefix) == e.prefix
    && FactsOf(FactsOf(f.Sub(Children)).Sub(Character)).Get(TextContent) == e.text && AttributesTold(e.attrs, f)
  }

  predicate DomElementsTold(elems: seq<DomElement>, kids: seq<Item>) {
    |kids| == |elems| && forall i :: 0 <= i < |elems| ==> DomElementTold(elems[i], kids[i])
  }

  predicate OneAnnotationTold(a: Annotation, items: Items)
    requires a.Annotation?
  {
    var f := FactsOf(items);
    && DomElementsTold(a.appInfos, Kids(f.Sub(ApplicationInformation)))
    && DomElementsTold(a.documentations, Kids(f.Sub(UserInformation))) && AttributesTold(a.attrs, f)
  }

  /** An annotation and the ones chained behind it. */
  function Chained(a: Annotation): (r: seq<Annotation>)
    ensures forall i :: 0 <= i < |r| ==> r[i].Annotation?
    decreases a
  {
    if a.NoAnnotation? then [] else [a] + Chained(a.next)
  }

  function AllChained(list: seq<Annotation>): (r: seq<Annotation>)
    ensures forall i :: 0 <= i < |r| ==> r[i].Annotation?
  {
    if list == [] then [] else Chained(list[0]) + AllChained(list[1..])
  }

  /** These annotations are told, one by one. */
  predicate AnnotationsTold(list: seq<Annotation>, told: seq<Items>)
    requires forall i :: 0 <= i < |list| ==> list[i].Annotation?
  {
    |told| == |list| && forall i :: 0 <= i < |list| ==> OneAnnotationTold(list[i], told[i])
  }

  /** A list of annotations is told inside an element of its own. */
  predicate AnnotationListTold(list: Option<seq<Annotation>>, items: Items) {
    AnnotationsTold(if list.None? then [] else AllChained(list.value), FactsOf(items).annotations)
  }

  // -------------------------------------------------------------------------
  //  Parts of components
  // -------------------------------------------------------------------------

  predicate ConstraintTold(v: ValueConstraint, items: Items) {
    if v.Unconstrained? then items == NO_ITEMS
    else FactsOf(items).Get(Variety) == v.kind && FactsOf(items).Get(FacetValue) == v.value
  }

  /** The scope is missing, or names the complex type around, or is global. */
  predicate ScopeTold(ids: Ids, enclosing: Option<Obj>, scope: ScopeKind, f: Facts) {
    match scope
    case ScopeAbsent => f.Get(Scope) == "" && Scope !in f.parts
    case ScopeLocal =>
      Scope in f.parts
      && FactsOf(f.parts[Scope]).RefAt(ComplexTypeDefinition) == DeclNamed(ids, ComplexTypeDefinition, enclosing)
    case ScopeGlobal => f.Get(Scope) == "global" && Scope !in f.parts
  }

  /** Each value with a space behind it. */
  function WithSpaces(values: seq<string>): string {
    if values == [] then "" else values[0] + " " + WithSpaces(values[1..])
  }

  function ListText(values: Option<seq<string>>): string { if values.None? then "" else WithSpaces(values.value) }

  predicate NamespacesTold(k: NamespaceConstraint, f: Facts) {
    match k
    case AnyNamespace => f.Get(Variety) == "any" && f.Get(Namespaces) == ""
    case DerivationList(namespaces) => f.Get(Variety) == "" && f.Get(Namespaces) == ListText(namespaces)
    case NotNamespace(namespaces) => f.Get(Variety) == "not" && f.Get(Namespaces) == ListText(namespaces)
  }

  predicate WildcardTold(w: Wildcard, items: Items) {
    if w.NoWildcard? then items == NO_ITEMS
    else
      var f := FactsOf(items);
      && NamespacesTold(w.constraint, FactsOf(f.Sub(Tag.NamespaceConstraint)))
      && f.Get(ProcessContents) == w.processContents && AnnotationsTold(Chained(w.annotation), f.annotations)
  }

  predicate AttributeUseTold(ids: Ids, u: AttributeUse, item: Item) {
    item.Elem? && item.tag.AttributeUse? &&
    var f := FactsOf(item.children);
    && f.Get(Required) == YesNo(u.required)
    && f.RefAt(AttributeDeclaration) == DeclNamed(ids, AttributeDeclaration, u.declaration)
    && ConstraintTold(u.constraint, f.Sub(Tag.ValueConstraint))
  }

  predicate UsesTold(ids: Ids, uses: Option<seq<AttributeUse>>, kids: seq<Item>) {
    if uses.None? then kids == []
    else |kids| == |uses.value| && forall i :: 0 <= i < |kids| ==> AttributeUseTold(ids, uses.value[i], kids[i])
  }

  /** The term of a particle: a declaration, a group or a wildcard. */
  predicate TermTold(ids: Ids, t: Term, f: Facts)
    decreases t
  {
    match t
    case ElementTerm(o) => f.RefAt(ElementDeclaration) == DeclNamed(ids, ElementDeclaration, o)
    case GroupTerm(g) => GroupTold(ids, g, f.Sub(Tag.ModelGroup))
    case WildcardTerm(w) => WildcardTold(w, f.Sub(Tag.Wildcard))
    case EmptyTerm => f == NO_FACTS
  }

  predicate ParticleTold(ids: Ids, p: Particle, items: Items)
    decreases p, 0
  {
    if p.NoParticle? then items == NO_ITEMS
    else
      var f := FactsOf(items);
      && f.Get(MinOccurs) == Decimal(p.minOccurs)
      && f.Get(MaxOccurs) == (if p.maxOccurs.None? then "unbounded" else Decimal(p.maxOccurs.value))
      && TermTold(ids, p.term, FactsOf(f.Sub(Tag.Term)))
  }

  /** A group tells its compositor and one particle after the other. */
  predicate GroupTold(ids: Ids, g: ModelGroup, items: Items)
    decreases g
  {
    if g.NoGroup? then items == NO_ITEMS
    else
      var f := FactsOf(items);
      && f.Get(Compositor) == g.compositor && AnnotationsTold(Chained(g.annotation), f.annotations)
      && var kids := Kids(f.Sub(Particles));
         |kids| == |g.particles| && forall i :: 0 <= i < |kids| ==> InGroup(ids, g.particles[i], kids[i])
  }

  predicate InGroup(ids: Ids, p: Particle, item: Item)
    decreases p, 1
  {
    if p.NoParticle? then item.EmptyElem? && item.tag.Particle?
    else item.Elem? && item.tag.Particle? && ParticleTold(ids, p, item.children)
  }

  predicate FacetTold(x: Facet, item: Item) {
    item.Elem? && item.tag == FacetOf(x.kind) &&
    var f := FactsOf(item.children);
    && f.Get(FacetValue) == x.value && f.Get(FacetFixed) == YesNo(x.fixed)
    && AnnotationsTold(Chained(x.annotation), f.annotations)
  }

  /** The texts of all children with the name of a facet's value. */
  function ValuesIn(items: Items): seq<string> {
    match items
    case Start => []
    case More(front, TextElem(tag, text)) => ValuesIn(front) + if tag.FacetValue? then [text] else []
    case More(front, EmptyElem(tag, _)) => ValuesIn(front) + if tag.FacetValue? then [""] else []
    case More(front, _) => ValuesIn(front)
  }

  predicate MultiFacetTold(x: MultiFacet, item: Item) {
    item.Elem? && item.tag == FacetOf(x.kind) && ValuesIn(item.children) == x.values &&
    var f := FactsOf(item.children);
    f.Get(FacetFixed) == YesNo(x.fixed) && AnnotationListTold(x.annotations, f.Sub(Annotations))
  }

  function ListOf<T>(list: Option<seq<T>>): seq<T> { if list.None? then [] else list.value }

  /** The facets with one value come first. */
  predicate FacetsTold(facets: seq<Facet>, multi: seq<MultiFacet>, kids: seq<Item>) {
    && |kids| == |facets| + |multi|
    && (forall i :: 0 <= i < |facets| ==> FacetTold(facets[i], kids[i]))
    && (forall i :: 0 <= i < |multi| ==> MultiFacetTold(multi[i], kids[|facets| + i]))
  }

  predicate FundamentalTold(x: SimpleType, f: Facts) {
    && FactsOf(f.Sub(Ordered)).Get(FacetValue) == x.ordered
    && FactsOf(f.Sub(Bounded)).Get(FacetValue) == YesNo(x.bounded)
    && FactsOf(f.Sub(Cardinality)).Get(FacetValue) == YesNo(x.finite)
    && FactsOf(f.Sub(Numeric)).Get(FacetValue) == YesNo(x.numeric)
  }

  predicate MemberTold(c: Memory, ids: Ids, o: Obj, item: Item) {
    item.Elem? && item.tag.MemberTypeDefinition? && LastReference(item.children) == TypeNamed(c, ids, Some(o))
  }

  predicate MembersTold(c: Memory, ids: Ids, members: seq<Obj>, kids: seq<Item>) {
    |kids| == |members| && forall i :: 0 <= i < |kids| ==> MemberTold(c, ids, members[i], kids[i])
  }

  predicate FieldTold(field: string, item: Item) {
    item.Elem? && item.tag.XPath? && FactsOf(item.children).Get(XPath) == field
  }

  predicate FieldsTold(fields: seq<string>, kids: seq<Item>) {
    |kids| == |fields| && forall i :: 0 <= i < |kids| ==> FieldTold(fields[i], kids[i])
  }

  // -------------------------------------------------------------------------
  //  Components
  // -------------------------------------------------------------------------

  predicate NameTold(name: string, namespace: string, f: Facts) {
    f.Get(Name) == name && f.Get(TargetNamespace) == namespace
  }

  predicate ComplexTypeTold(c: Memory, ids: Ids, x: ComplexType, items: Items) {
    var f := FactsOf(items);
    && NameTold(if x.anonymous then "" else x.name, x.namespace, f)
    && f.RefIn(BaseTypeDefinition) == TypeNamed(c, ids, x.base)
    && f.Get(DerivationMethod) == x.derivation && f.Get(Final) == x.final && f.Get(Abstract) == YesNo(x.isAbstract)
    && UsesTold(ids, x.attributeUses, Kids(f.Sub(Tag.AttributeUses)))
    && WildcardTold(x.attributeWildcard, FactsOf(f.Sub(AttributeWildcard)).Sub(Tag.Wildcard))
    && ContentTypeTold(ids, x, FactsOf(f.Sub(ContentType)))
    && f.Get(ProhibitedSubstitutions) == x.prohibited && AnnotationListTold(x.annotations, f.Sub(Annotations))
  }

  predicate ContentTypeTold(ids: Ids, x: ComplexType, f: Facts) {
    && f.Get(Variety) == x.variety
    && f.RefAt(SimpleTypeDefinition) == DeclNamed(ids, SimpleTypeDefinition, x.simpleType)
    && ParticleTold(ids, x.particle, f.Sub(Tag.Particle))
  }

  predicate SimpleTypeTold(c: Memory, ids: Ids, x: SimpleType, items: Items) {
    var f := FactsOf(items);
    && NameTold(if x.anonymous then "" else x.name, x.namespace, f)
    && f.RefIn(BaseTypeDefinition) == TypeNamed(c, ids, x.base)
    && f.RefIn(PrimitiveTypeDefinition) == TypeNamed(c, ids, x.primitive)
    && FacetsTold(ListOf(x.facets), ListOf(x.multiFacets), Kids(f.Sub(Facets)))
    && FundamentalTold(x, FactsOf(f.Sub(FundamentalFacets)))
    && f.Get(Final) == x.final && f.Get(Variety) == x.variety
    && f.RefIn(ItemTypeDefinition) == TypeNamed(c, ids, x.itemType)
    && MembersTold(c, ids, ListOf(x.memberTypes), Kids(f.Sub(MemberTypeDefinitions)))
    && AnnotationListTold(x.annotations, f.Sub(Annotations))
  }

  /** The identity constraints are defined inside the declaration. */
  predicate ConstraintsTold(ids: Ids, list: seq<Obj>, kids: seq<Item>) {
    |kids| == |list| && forall i :: 0 <= i < |kids| ==>
      ReferenceOf(kids[i]) == Reference(IdentityConstraintDefinition, IdOf(ids, list[i]))
  }

  predicate ElementTold(c: Memory, ids: Ids, x: ElementDecl, items: Items) {
    var f := FactsOf(items);
    && NameTold(x.name, x.namespace, f)
    && f.RefIn(TypeDefinition) == TypeNamed(c, ids, x.typeDefinition)
    && ScopeTold(ids, x.enclosing, x.scope, f) && ConstraintTold(x.constraint, f.Sub(Tag.ValueConstraint))
    && f.Get(Nillable) == YesNo(x.nillable)
    && ConstraintsTold(ids, ListOf(x.identityConstraints), Kids(f.Sub(IdentityConstraintDefinitions)))
    && f.RefIn(SubstitutionGroupAffiliation) == DeclNamed(ids, ElementDeclaration, x.affiliation)
    && f.Get(SubstitutionGroupExclusions) == x.exclusions && f.Get(DisallowedSubstitutions) == x.disallowed
    && f.Get(Abstract) == YesNo(x.isAbstract) && AnnotationsTold(Chained(x.annotation), f.annotations)
  }

  predicate AttributeTold(ids: Ids, x: AttributeDecl, items: Items) {
    var f := FactsOf(items);
    && NameTold(x.name, x.namespace, f)
    && FactsOf(f.Sub(TypeDefinition)).RefAt(SimpleTypeDefinition)
       == DeclNamed(ids, SimpleTypeDefinition, x.typeDefinition)
    && ScopeTold(ids, x.enclosing, x.scope, f) && ConstraintTold(x.constraint, f.Sub(Tag.ValueConstraint))
    && AnnotationsTold(Chained(x.annotation), f.annotations)
  }

  predicate AttributeGroupTold(ids: Ids, x: AttributeGroup, items: Items) {
    var f := FactsOf(items);
    && NameTold(x.name, x.namespace, f)
    && UsesTold(ids, x.attributeUses, Kids(f.Sub(Tag.AttributeUses)))
    && WildcardTold(x.attributeWildcard, FactsOf(f.Sub(AttributeWildcard)).Sub(Tag.Wildcard))
    && AnnotationsTold(Chained(x.annotation), f.annotations)
  }

  predicate ModelGroupDefTold(ids: Ids, x: ModelGroupDef, items: Items) {
    var f := FactsOf(items);
    && NameTold(x.name, x.namespace, f)
    && GroupTold(ids, x.group, f.Sub(Tag.ModelGroup)) && AnnotationsTold(Chained(x.annotation), f.annotations)
  }

  predicate NotationTold(x: NotationDecl, items: Items) {
    var f := FactsOf(items);
    && NameTold(x.name, x.namespace, f)
    && f.Get(SystemIdentifier) == x.systemId && f.Get(PublicIdentifier) == x.publicId
    && AnnotationsTold(Chained(x.annotation), f.annotations)
  }

  predicate IdConstraintTold(ids: Ids, x: IdConstraint, items: Items) {
    var f := FactsOf(items);
    && NameTold(x.name, x.namespace, f)
    && f.Get(IdentityConstraintCategory) == x.category
    && FactsOf(FactsOf(f.Sub(Selector)).Sub(XPath)).Get(XPath) == x.selector
    && FieldsTold(x.fields, Kids(f.Sub(Fields)))
    && f.RefAt(ReferencedKey) == DeclNamed(ids, ReferencedKey, x.refKey)
    && AnnotationListTold(x.annotations, f.Sub(Annotations))
  }

  /** An element with this name and these children describes the component. */
  predicate Describes(c: Memory, ids: Ids, x: Component, tag: Tag, items: Items) {
    match x
    case OfComplexType(t) => tag.ComplexTypeDefinition? && ComplexTypeTold(c, ids, t, items)
    case OfSimpleType(t) => tag.SimpleTypeDefinition? && SimpleTypeTold(c, ids, t, items)
    case OfElement(e) => tag.ElementDeclaration? && ElementTold(c, ids, e, items)
    case OfAttribute(a) => tag.AttributeDeclaration? && AttributeTold(ids, a, items)
    case OfAttributeGroup(g) => tag.AttributeGroupDefinition? && AttributeGroupTold(ids, g, items)
    case OfModelGroup(g) => tag.ModelGroupDefinition? && ModelGroupDefTold(ids, g, items)
    case OfNotation(n) => tag.NotationDeclaration? && NotationTold(n, items)
    case OfConstraint(k) => tag.IdentityConstraintDefinition? && IdConstraintTold(ids, k, items)
  }

  // -------------------------------------------------------------------------
  //  Schema models
  // -------------------------------------------------------------------------

  function KindTag(x: Component): Tag {
    match x
    case OfComplexType(_) => ComplexTypeDefinition
    case OfSimpleType(_) => SimpleTypeDefinition
    case OfElement(_) => ElementDeclaration
    case OfAttribute(_) => AttributeDeclaration
    case OfAttributeGroup(_) => AttributeGroupDefinition
    case OfModelGroup(_) => ModelGroupDefinition
    case OfNotation(_) => NotationDeclaration
    case OfConstraint(_) => IdentityConstraintDefinition
  }

  /** One definition after the other. */
  predicate DefinitionsTold(c: Memory, ids: Ids, list: seq<Obj>, kids: seq<Item>) {
    |kids| == |list| && forall i :: 0 <= i < |kids| ==>
      list[i] in c && ReferenceOf(kids[i]) == Reference(KindTag(c[list[i]]), IdOf(ids, list[i]))
  }

  predicate LocationTold(location: string, item: Item) {
    item.Elem? && item.tag.SchemaDocument? && FactsOf(item.children).Get(DocumentLocation) == location
  }

  predicate LocationsTold(locations: seq<string>, kids: seq<Item>) {
    |kids| == |locations| && forall i :: 0 <= i < |kids| ==> LocationTold(locations[i], kids[i])
  }

  /** A namespace tells its components kind by kind, where it was found, and its annotations. */
  predicate NamespaceTold(c: Memory, ids: Ids, x: NamespaceItem, item: Item) {
    item.Elem? && item.tag.NamespaceSchemaInformation? &&
    var f := FactsOf(item.children);
    && f.Get(SchemaNamespace) == x.namespace
    && DefinitionsTold(c, ids, x.types + x.attributes + x.elements + x.attributeGroups + x.modelGroups + x.notations,
                       Kids(f.Sub(SchemaComponents)))
    && LocationsTold(x.locations, Kids(f.Sub(SchemaDocuments)))
    && AnnotationListTold(x.annotations, f.Sub(SchemaAnnotations))
  }

  /** XML Schema's own namespace is not shown. */
  function Foreign(items: seq<NamespaceItem>): seq<NamespaceItem> {
    if items == [] then []
    else (if items[0].namespace == "http://www.w3.org/2001/XMLSchema" then [] else [items[0]]) + Foreign(items[1..])
  }

  predicate SchemaTold(c: Memory, ids: Ids, items: seq<NamespaceItem>, kids: seq<Item>) {
    var shown := Foreign(items);
    |kids| == |shown| && forall i :: 0 <= i < |kids| ==> NamespaceTold(c, ids, shown[i], kids[i])
  }

  type Models = set<seq<NamespaceItem>>

  /**
   * Every element with an id, at any depth, describes a component that has this id; and every schema tells one of the
   * models.
   */
  predicate Truthful(c: Memory, ids: Ids, models: Models, items: Items)
    decreases items
  {
    items.More? ==> Truthful(c, ids, models, items.front) && TruthfulItem(c, ids, models, items.last)
  }

  predicate TruthfulItem(c: Memory, ids: Ids, models: Models, item: Item)
    decreases item
  {
    match item
    case Elem(tag, attrs, children) =>
      && Truthful(c, ids, models, children)
      && (attrs != [] && attrs[0].name.Id? ==> exists o :: o in c && attrs[0].value == IdOf(ids, o)
                                                           && Describes(c, ids, c[o], tag, children))
      && (tag.SchemaInformation? ==> exists m :: m in models && SchemaTold(c, ids, m, Kids(children)))
    case Comment(children) => Truthful(c, ids, models, children)
    case _ => true
  }
}
