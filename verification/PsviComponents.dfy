/**
 * The schema component graph the writer walks, and for every component the trees the writer shows for it.
 * A property that is NULL or the empty string in the program is the empty string here: the writer prints
 * both the same way. Translated enumeration values are kept as their text.
 */
module PsviComponents {
  import opened Options
  import opened PsviOutput

  const XMLNS_URI := "http://www.w3.org/2000/xmlns/"
  const XML_SCHEMA_URI := "http://www.w3.org/2001/XMLSchema"

  datatype DomAttr = DomAttr(namespace: string, localName: string, prefix: string, value: string,
                             specified: bool, typeName: string)

  datatype DomElement = DomElement(namespace: string, localName: string, prefix: string, text: string,
                                   attrs: seq<DomAttr>)

  /** An annotation, with the one chained behind it. */
  datatype Annotation =
    | NoAnnotation
    | Annotation(appInfos: seq<DomElement>, documentations: seq<DomElement>, attrs: seq<DomAttr>,
                 next: Annotation)

  datatype ValueConstraint = Unconstrained | Constraint(kind: string, value: string)

  datatype ScopeKind = ScopeAbsent | ScopeLocal | ScopeGlobal

  datatype NamespaceConstraint =
    | AnyNamespace
    | DerivationList(namespaces: Option<seq<string>>)
    | NotNamespace(namespaces: Option<seq<string>>)

  datatype Wildcard =
    | NoWildcard
    | Wildcard(constraint: NamespaceConstraint, processContents: string, annotation: Annotation)

  datatype Particle =
    | NoParticle
    | Particle(minOccurs: nat, maxOccurs: Option<nat>, term: Term)  // no maxOccurs: unbounded

  datatype Term =
    | ElementTerm(declaration: Option<Obj>)
    | GroupTerm(group: ModelGroup)
    | WildcardTerm(wildcard: Wildcard)
    | EmptyTerm

  datatype ModelGroup =
    | NoGroup
    | ModelGroup(compositor: string, particles: seq<Particle>, annotation: Annotation)

  datatype AttributeUse = AttributeUse(required: bool, declaration: Option<Obj>, constraint: ValueConstraint)

  datatype Facet = Facet(kind: string, value: string, fixed: bool, annotation: Annotation)

  datatype MultiFacet = MultiFacet(kind: string, values: seq<string>, fixed: bool,
                                   annotations: Option<seq<Annotation>>)

  datatype ComplexType = ComplexType(name: string, namespace: string, anonymous: bool, base: Option<Obj>,
                                     derivation: string, final: string, isAbstract: bool,
                                     attributeUses: Option<seq<AttributeUse>>, attributeWildcard: Wildcard,
                                     variety: string, simpleType: Option<Obj>, particle: Particle,
                                     prohibited: string, annotations: Option<seq<Annotation>>)

  datatype SimpleType = SimpleType(name: string, namespace: string, anonymous: bool, base: Option<Obj>,
                                   primitive: Option<Obj>, facets: Option<seq<Facet>>,
                                   multiFacets: Option<seq<MultiFacet>>, ordered: string, bounded: bool,
                                   finite: bool, numeric: bool, final: string, variety: string,
                                   itemType: Option<Obj>, memberTypes: Option<seq<Obj>>,
                                   annotations: Option<seq<Annotation>>)

  datatype ElementDecl = ElementDecl(name: string, namespace: string, typeDefinition: Option<Obj>,
                                     enclosing: Option<Obj>, scope: ScopeKind, constraint: ValueConstraint,
                                     nillable: bool, identityConstraints: Option<seq<Obj>>,
                                     affiliation: Option<Obj>, exclusions: string, disallowed: string,
                                     isAbstract: bool, annotation: Annotation)

  datatype AttributeDecl = AttributeDecl(name: string, namespace: string, typeDefinition: Option<Obj>,
                                         enclosing: Option<Obj>, scope: ScopeKind, constraint: ValueConstraint,
                                         annotation: Annotation)

  datatype AttributeGroup = AttributeGroup(name: string, namespace: string,
                                           attributeUses: Option<seq<AttributeUse>>,
                                           attributeWildcard: Wildcard, annotation: Annotation)

  datatype ModelGroupDef = ModelGroupDef(name: string, namespace: string, group: ModelGroup,
                                         annotation: Annotation)

  datatype NotationDecl = NotationDecl(name: string, namespace: string, systemId: string, publicId: string,
                                       annotation: Annotation)

  datatype IdConstraint = IdConstraint(name: string, namespace: string, category: string, selector: string,
                                       fields: seq<string>, refKey: Option<Obj>,
                                       annotations: Option<seq<Annotation>>)

  datatype Component =
    | OfComplexType(complexType: ComplexType)
    | OfSimpleType(simpleType: SimpleType)
    | OfElement(element: ElementDecl)
    | OfAttribute(attribute: AttributeDecl)
    | OfAttributeGroup(attributeGroup: AttributeGroup)
    | OfModelGroup(modelGroup: ModelGroupDef)
    | OfNotation(notation: NotationDecl)
    | OfConstraint(constraint: IdConstraint)
  {
    function Name(): string {
      match this
      case OfComplexType(x) => x.name
      case OfSimpleType(x) => x.name
      case OfElement(x) => x.name
      case OfAttribute(x) => x.name
      case OfAttributeGroup(x) => x.name
      case OfModelGroup(x) => x.name
      case OfNotation(x) => x.name
      case OfConstraint(x) => x.name
    }

    function Namespace(): string {
      match this
      case OfComplexType(x) => x.namespace
      case OfSimpleType(x) => x.namespace
      case OfElement(x) => x.namespace
      case OfAttribute(x) => x.namespace
      case OfAttributeGroup(x) => x.namespace
      case OfModelGroup(x) => x.namespace
      case OfNotation(x) => x.namespace
      case OfConstraint(x) => x.namespace
    }

    /** A type without a name of its own. */
    predicate IsAnonymous() {
      match this
      case OfComplexType(x) => x.anonymous
      case OfSimpleType(x) => x.anonymous
      case _ => false
    }

    /** An element or attribute declaration at the top of a schema. */
    predicate IsGlobal() {
      match this
      case OfElement(x) => x.scope.ScopeGlobal?
      case OfAttribute(x) => x.scope.ScopeGlobal?
      case _ => false
    }
  }

  type Memory = map<Obj, Component>

  /** One namespace of the schema model: its components by kind, its documents and its annotations. */
  datatype NamespaceItem = NamespaceItem(namespace: string, types: seq<Obj>, attributes: seq<Obj>,
                                         elements: seq<Obj>, attributeGroups: seq<Obj>,
                                         modelGroups: seq<Obj>, notations: seq<Obj>,
                                         locations: seq<string>, annotations: Option<seq<Annotation>>)

  // -------------------------------------------------------------------------
  //  Pointers lead to components of the right kind
  // -------------------------------------------------------------------------

  predicate IsType(c: Memory, o: Obj) { o in c && (c[o].OfComplexType? || c[o].OfSimpleType?) }

  predicate IsSimple(c: Memory, o: Obj) { o in c && c[o].OfSimpleType? }

  predicate IsElement(c: Memory, o: Obj) { o in c && c[o].OfElement? }

  predicate IsAttribute(c: Memory, o: Obj) { o in c && c[o].OfAttribute? }

  predicate TypeLink(c: Memory, o: Option<Obj>) { o.Some? ==> IsType(c, o.value) }

  predicate SimpleLink(c: Memory, o: Option<Obj>) { o.Some? ==> IsSimple(c, o.value) }

  predicate ElementLink(c: Memory, o: Option<Obj>) { o.Some? ==> IsElement(c, o.value) }

  predicate AttributeLink(c: Memory, o: Option<Obj>) { o.Some? ==> IsAttribute(c, o.value) }

  predicate AnyLink(c: Memory, o: Option<Obj>) { o.Some? ==> o.value in c }

  predicate ParticleLinked(c: Memory, p: Particle) {
    p.Particle? ==>
      match p.term
      case ElementTerm(o) => ElementLink(c, o)
      case GroupTerm(g) => GroupLinked(c, g)
      case _ => true
  }

  predicate GroupLinked(c: Memory, g: ModelGroup) {
    g.ModelGroup? ==> forall i :: 0 <= i < |g.particles| ==> ParticleLinked(c, g.particles[i])
  }

  predicate UsesLinked(c: Memory, uses: Option<seq<AttributeUse>>) {
    uses.Some? ==> forall i :: 0 <= i < |uses.value| ==> AttributeLink(c, uses.value[i].declaration)
  }

  predicate MembersLinked(c: Memory, members: Option<seq<Obj>>) {
    members.Some? ==> forall i :: 0 <= i < |members.value| ==> IsType(c, members.value[i])
  }

  predicate IsConstraint(c: Memory, o: Obj) { o in c && c[o].OfConstraint? }

  predicate ConstraintsLinked(c: Memory, list: Option<seq<Obj>>) {
    list.Some? ==> forall i :: 0 <= i < |list.value| ==> IsConstraint(c, list.value[i])
  }

  predicate Linked(c: Memory, x: Component) {
    match x
    case OfComplexType(t) => ComplexTypeLinked(c, t)
    case OfSimpleType(t) => SimpleTypeLinked(c, t)
    case OfElement(e) => ElementLinked(c, e)
    case OfAttribute(a) => SimpleLink(c, a.typeDefinition) && AnyLink(c, a.enclosing)
    case OfAttributeGroup(g) => UsesLinked(c, g.attributeUses)
    case OfModelGroup(g) => GroupLinked(c, g.group)
    case OfNotation(_) => true
    case OfConstraint(k) => AnyLink(c, k.refKey)
  }

  predicate ComplexTypeLinked(c: Memory, x: ComplexType) {
    TypeLink(c, x.base) && UsesLinked(c, x.attributeUses) && SimpleLink(c, x.simpleType) &&
    ParticleLinked(c, x.particle)
  }

  predicate SimpleTypeLinked(c: Memory, x: SimpleType) {
    TypeLink(c, x.base) && TypeLink(c, x.primitive) && TypeLink(c, x.itemType) && MembersLinked(c, x.memberTypes)
  }

  predicate ElementLinked(c: Memory, x: ElementDecl) {
    TypeLink(c, x.typeDefinition) && AnyLink(c, x.enclosing) && ElementLink(c, x.affiliation) &&
    ConstraintsLinked(c, x.identityConstraints)
  }

  predicate AllLinked(c: Memory) { forall o :: o in c ==> Linked(c, c[o]) }

  /** The components in memory; every pointer among them is good. Cycles are allowed. */
  type Graph = c: Memory | AllLinked(c) witness map[]

  predicate IsAttributeGroup(c: Memory, o: Obj) { o in c && c[o].OfAttributeGroup? }

  predicate IsModelGroup(c: Memory, o: Obj) { o in c && c[o].OfModelGroup? }

  predicate IsNotation(c: Memory, o: Obj) { o in c && c[o].OfNotation? }

  predicate ItemLinked(c: Memory, item: NamespaceItem) {
    && (forall i :: 0 <= i < |item.types| ==> IsType(c, item.types[i]))
    && (forall i :: 0 <= i < |item.attributes| ==> IsAttribute(c, item.attributes[i]))
    && (forall i :: 0 <= i < |item.elements| ==> IsElement(c, item.elements[i]))
    && (forall i :: 0 <= i < |item.attributeGroups| ==>
          IsAttributeGroup(c, item.attributeGroups[i]))
    && (forall i :: 0 <= i < |item.modelGroups| ==>
          IsModelGroup(c, item.modelGroups[i]))
    && (forall i :: 0 <= i < |item.notations| ==> IsNotation(c, item.notations[i]))
  }

  // -------------------------------------------------------------------------
  //  Which components may be expanded where they are used
  // -------------------------------------------------------------------------

  /** An anonymous type, or a declaration that is not global. */
  predicate Local(x: Component) {
    x.IsAnonymous() || ((x.OfElement? || x.OfAttribute?) && !x.IsGlobal())
  }

  predicate IsLocal(c: Memory, o: Obj) { o in c && Local(c[o]) }

  function Locals(c: Memory): set<Obj> { set o | o in c && Local(c[o]) }

  function DefTag(x: Component): (r: Tag)
    ensures !r.SchemaInformation?
  {
    match x
    case OfComplexType(_) => ComplexTypeDefinition
    case OfSimpleType(_) => SimpleTypeDefinition
    case OfElement(_) => ElementDeclaration
    case OfAttribute(_) => AttributeDeclaration
    case OfAttributeGroup(_) => AttributeGroupDefinition
    case OfModelGroup(_) => ModelGroupDefinition
    case OfNotation(_) => NotationDeclaration
    case OfConstraint(_) => IdentityConstraintDefinition
  }

  function TagOf(c: Memory, o: Obj): (r: Tag)
    ensures !r.SchemaInformation?
  {
    if o in c then DefTag(c[o]) else ComplexTypeDefinition
  }

  function BoolText(b: bool): string { if b then "true" else "false" }
}
