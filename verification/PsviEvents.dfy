/**
 * What the parser reports: attributes, elements with their schema assessment, and the nested content of a
 * document; and the trees the writer shows for them.
 */
module PsviEvents {
  import opened Options
  import opened PsviOutput
  import opened PsviComponents
  import opened PsviExpansion
  import opened PsviPlans
  import opened PsviIds
  import Names = PsviNamespaces

  const XML_URI := "http://www.w3.org/XML/1998/namespace"

  datatype AttrInfo = AttrInfo(uri: string, localName: string, attrType: string, value: string)

  datatype ActualValue =
    | NoValue
    | OtherValue                                      // the value is of a type whose text is not shown
    | ShownValue(dataType: string, dataValue: string)

  datatype PsviAttribute = PsviAttribute(schemaSpecified: bool, validationAttempted: string,
                                         validationContext: string, validity: string, normalizedValue: string,
                                         schemaDefault: string, typeDefinition: Option<Obj>,
                                         memberType: Option<Obj>, declaration: Option<Obj>, actual: ActualValue)

  /** The assessed attributes: by position, and by name and namespace. */
  datatype PsviAttributes = PsviAttributes(atIndex: seq<Option<PsviAttribute>>,
                                           byName: map<(string, string), PsviAttribute>)
  {
    function AtIndex(i: nat): Option<PsviAttribute> {
      if i < |atIndex| then atIndex[i] else None
    }

    function ByName(a: AttrInfo): Option<PsviAttribute> {
      if (a.localName, a.uri) in byName then Some(byName[(a.localName, a.uri)]) else None
    }
  }

  datatype PsviElement = PsviElement(model: Option<seq<NamespaceItem>>, validationAttempted: string,
                                     validationContext: string, validity: string, normalizedValue: string,
                                     canonical: string, schemaSpecified: bool, schemaDefault: string,
                                     typeDefinition: Option<Obj>, memberType: Option<Obj>,
                                     declaration: Option<Obj>, notation: Option<Obj>, actual: ActualValue)

  /** The prefix the namespace of an object has in this scope. */
  function PrefixIn(c: Memory, s: Names.Scope, o: Obj): string {
    if o in c then Names.PrefixOf(s, c[o].Namespace()) else ""
  }

  /** The mentions r are the mentions `before`, and others made in the scope s. */
  predicate AskedIn(c: Memory, s: Names.Scope, before: seq<Request>, r: seq<Request>) {
    before <= r && forall k :: |before| <= k < |r| ==> r[k].prefix == PrefixIn(c, s, r[k].obj)
  }

  predicate PsviAttributeLinked(c: Memory, p: PsviAttribute) {
    TypeLink(c, p.typeDefinition) && TypeLink(c, p.memberType) && AttributeLink(c, p.declaration)
  }

  predicate PsviAttributesLinked(c: Memory, list: PsviAttributes) {
    forall k :: k in list.byName ==> PsviAttributeLinked(c, list.byName[k])
  }

  predicate ModelLinked(c: Memory, model: Option<seq<NamespaceItem>>) {
    model.Some? ==> forall i :: 0 <= i < |model.value| ==> ItemLinked(c, model.value[i])
  }

  predicate PsviElementLinked(c: Memory, e: PsviElement) {
    ModelLinked(c, e.model) && TypeLink(c, e.typeDefinition) && TypeLink(c, e.memberType) &&
    ElementLink(c, e.declaration) && AnyLink(c, e.notation)
  }

  function SpecifiedText(schemaSpecified: bool): string { if schemaSpecified then "schema" else "infoset" }

  function ActualValueBody(v: ActualValue): (r: Nodes)
    ensures Plainly(Start, r)
  {
    if v.ShownValue? then Start.Written(DataType, v.dataType).Written(DataValue, v.dataValue) else Start
  }

  function ActualValuePlan(pre: Nodes, v: ActualValue): (r: Nodes)
    ensures CommentsFlat(pre) ==> CommentsFlat(r)
    ensures Fixed(r) == Fixed(pre) && SchemaForms(r) == SchemaForms(pre)
  {
    if v.NoValue? then pre else pre.Noted(Start.Group(Tag.ActualValue, ActualValueBody(v)))
  }

  // -------------------------------------------------------------------------
  //  Attributes
  // -------------------------------------------------------------------------

  function AttributePsviPlan(c: Memory, pre: Nodes, p: Option<PsviAttribute>): (r: Nodes)
    ensures CommentsFlat(pre) ==> CommentsFlat(r)
    ensures Fixed(r) == Fixed(pre) && SchemaForms(r) == SchemaForms(pre)
  {
    if p.None? then pre else ActualValuePlan(AssessedPlan(c, pre, p.value), p.value.actual)
  }

  function AssessedPlan(c: Memory, pre: Nodes, a: PsviAttribute): (r: Nodes)
    ensures Plainly(pre, r)
  {
    DeclRef(TypeHere(TypeRef(c, AttributeOutcome(pre, a), TypeDefinition, a.typeDefinition),
                     MemberTypeDefinition, a.memberType),
            Declaration, AttributeDeclaration, a.declaration)
  }

  function AttributeOutcome(pre: Nodes, a: PsviAttribute): (r: Nodes)
    ensures Plainly(pre, r)
  {
    pre.Val(ValidationAttempted, a.validationAttempted)
    .Val(ValidationContext, a.validationContext).Val(Validity, a.validity)
    .Absent(SchemaErrorCode).Val(SchemaNormalizedValue, a.normalizedValue)
    .Val(SchemaSpecified, SpecifiedText(a.schemaSpecified)).Val(SchemaDefault, a.schemaDefault)
  }

  function SpecifiedValue(p: Option<PsviAttribute>): string {
    if p.Some? then BoolText(!p.value.schemaSpecified) else "unknown"
  }

  function AttributeBody(c: Memory, s: Names.Scope, infos: seq<AttrInfo>, list: PsviAttributes, i: nat): (r: Nodes)
    requires i < |infos|
    ensures CommentsFlat(r) && Fixed(r) == [] && NoSchema(r)
  {
    AttributePsviPlan(c, AttributeInfoBody(s, infos[i], list.AtIndex(i)), list.ByName(infos[i]))
  }

  function AttributeInfoBody(s: Names.Scope, a: AttrInfo, p: Option<PsviAttribute>): (r: Nodes)
    ensures Plainly(Start, r)
  {
    Start.Val(NamespaceName, a.uri).Val(LocalName, a.localName).Val(Prefix, Names.PrefixOf(s, a.uri))
    .Val(NormalizedValue, a.value).Val(Specified, SpecifiedValue(p)).Val(AttributeType, a.attrType)
    .Absent(References)
  }

  function AttributeNodes(c: Memory, s: Names.Scope, infos: seq<AttrInfo>, list: PsviAttributes, n: nat): (r: Nodes)
    requires n <= |infos|
    ensures CommentsFlat(r) && Fixed(r) == [] && NoSchema(r)
  {
    if n == 0 then Start
    else AttributeNodes(c, s, infos, list, n - 1).Group(Attribute, AttributeBody(c, s, infos, list, n - 1))
  }

  function AttributesPlan(c: Memory, s: Names.Scope, pre: Nodes, infos: seq<AttrInfo>, list: PsviAttributes): (r: Nodes)
    ensures CommentsFlat(pre) ==> CommentsFlat(r)
    ensures Fixed(r) == Fixed(pre) && SchemaForms(r) == SchemaForms(pre)
  {
    if infos == [] then pre.Marked([]).Blank(Attributes)
    else pre.Marked([]).Group(Attributes, AttributeNodes(c, s, infos, list, |infos|))
  }

  /**
   * The places noted once the attributes are shown, if the objects d were defined before: those of the
   * namespace declarations of the last annotation or annotation element printed inside, none if nothing was.
   */
  function NotesLeft(c: Memory, d: seq<Obj>, s: Names.Scope, infos: seq<AttrInfo>, list: PsviAttributes): seq<nat> {
    NotesIn(Expand(c, d, AttributesPlan(c, s, Start, infos, list)), [])
  }

  /** The attributes at the places `indices` shown as namespace declarations. */
  function NoteBody(infos: seq<AttrInfo>, list: PsviAttributes, i: nat): (r: Nodes)
    requires Findable(infos, list, i)
    ensures Plainly(Start, r)
  {
    NoteInfo(infos[i], list.ByName(infos[i]).value.schemaSpecified)
  }

  function NoteInfo(a: AttrInfo, schemaSpecified: bool): (r: Nodes)
    ensures Plainly(Start, r)
  {
    NoteHead(a).Val(Specified, BoolText(schemaSpecified)).Val(AttributeType, a.attrType).Absent(References)
  }

  function NoteHead(a: AttrInfo): (r: Nodes)
    ensures Plainly(Start, r)
  {
    Start.Val(NamespaceName, XMLNS_URI).Val(LocalName, a.localName).Val(Prefix, "xmlns").Val(NormalizedValue, a.value)
  }

  /** What is shown for place i when there is no such attribute, or it was not assessed. */
  function BrokenNote(infos: seq<AttrInfo>, i: nat): (r: Nodes)
    ensures Plainly(Start, r)
  {
    if i < |infos| then NoteHead(infos[i]) else Start.Val(NamespaceName, XMLNS_URI)
  }

  /** There is an i-th attribute and it was assessed. */
  predicate Findable(infos: seq<AttrInfo>, list: PsviAttributes, i: nat) {
    i < |infos| && list.ByName(infos[i]).Some?
  }

  function NoteNodes(infos: seq<AttrInfo>, list: PsviAttributes, indices: seq<nat>, n: nat): (r: Nodes)
    requires n <= |indices| && forall k :: 0 <= k < n ==> Findable(infos, list, indices[k])
    ensures Plainly(Start, r)
  {
    if n == 0 then Start
    else NoteNodes(infos, list, indices, n - 1).Group(Attribute, NoteBody(infos, list, indices[n - 1]))
  }

  predicate AllFindable(infos: seq<AttrInfo>, list: PsviAttributes, indices: seq<nat>) {
    forall k :: 0 <= k < |indices| ==> Findable(infos, list, indices[k])
  }

  /** The number of places in front of the first one that is not findable. */
  function Sound(infos: seq<AttrInfo>, list: PsviAttributes, indices: seq<nat>): (n: nat)
    ensures n <= |indices| && forall k :: 0 <= k < n ==> Findable(infos, list, indices[k])
    ensures n < |indices| ==> !Findable(infos, list, indices[n])
    decreases |indices|
  {
    if indices == [] then 0
    else
      var n := Sound(infos, list, indices[..|indices| - 1]);
      if n < |indices| - 1 || !Findable(infos, list, indices[|indices| - 1]) then n else n + 1
  }

  function NotesPlan(pre: Nodes, infos: seq<AttrInfo>, list: PsviAttributes, indices: seq<nat>): (r: Nodes)
    requires AllFindable(infos, list, indices)
    ensures Plainly(pre, r)
  {
    if indices == [] then pre.Blank(NamespaceAttributes)
    else pre.Group(NamespaceAttributes, NoteNodes(infos, list, indices, |indices|))
  }

  function NamespaceNodes(s: Names.Scope, n: nat): (r: Nodes)
    requires n <= |s.uris|
    ensures Plainly(Start, r)
  {
    if n == 0 then
      Start.Group(Namespace, Start.Val(Prefix, "xml").Val(NamespaceName, XML_URI))
    else
      NamespaceNodes(s, n - 1)
      .Group(Namespace, Start.Val(Prefix, Names.PrefixOf(s, s.uris[n - 1])).Val(NamespaceName, s.uris[n - 1]))
  }

  // -------------------------------------------------------------------------
  //  Elements
  // -------------------------------------------------------------------------

  function ElementName(s: Names.Scope, localName: string, uri: string): (r: Nodes)
    ensures Plainly(Start, r)
  {
    Start.Val(NamespaceName, uri).Val(LocalName, localName).Val(Prefix, Names.PrefixOf(s, uri))
  }

  /** What is shown of an element when it starts; `notes` are places of attributes, see NotesPlan. */
  function ElementHead(c: Memory, s: Names.Scope, baseUri: string, localName: string, uri: string,
                       infos: seq<AttrInfo>, list: PsviAttributes, notes: seq<nat>): (r: Nodes)
    requires AllFindable(infos, list, notes)
    ensures CommentsFlat(r) && Fixed(r) == [] && NoSchema(r)
  {
    HeadPlan(c, s, baseUri, ElementName(s, localName, uri), infos, list, notes)
  }

  /** What is shown of an element behind its name. */
  function HeadPlan(c: Memory, s: Names.Scope, baseUri: string, pre: Nodes, infos: seq<AttrInfo>, list: PsviAttributes,
                    notes: seq<nat>): (r: Nodes)
    requires AllFindable(infos, list, notes)
    ensures CommentsFlat(pre) ==> CommentsFlat(r)
    ensures Fixed(r) == Fixed(pre) && SchemaForms(r) == SchemaForms(pre)
  {
    NotesPlan(AttributesPlan(c, s, pre, infos, list), infos, list, notes)
    .Group(InScopeNamespaces, NamespaceNodes(s, |s.uris|)).Val(BaseURI, baseUri)
  }

  /** The assessment of an element; the schema is shown only if the model is given. */
  function ElementTail(c: Memory, pre: Nodes, e: PsviElement, model: Option<seq<NamespaceItem>>): (r: Nodes)
    ensures CommentsFlat(pre) ==> CommentsFlat(r)
    ensures SchemaForms(r) == SchemaForms(pre) + [if model.None? then Missing(0) else Given(0)]
  {
    ElementReferences(c, ElementOutcome(SchemaInformationPlan(c, pre, model), e), e)
  }

  function ElementOutcome(pre: Nodes, e: PsviElement): (r: Nodes)
    ensures Plainly(pre, r)
  {
    pre.Val(ValidationAttempted, e.validationAttempted).Val(ValidationContext, e.validationContext)
    .Val(Validity, e.validity).Absent(SchemaErrorCode).Val(SchemaNormalizedValue, e.normalizedValue)
    .Val(CanonicalRepresentation, e.canonical).Val(SchemaSpecified, SpecifiedText(e.schemaSpecified))
    .Val(SchemaDefault, e.schemaDefault)
  }

  function ElementReferences(c: Memory, pre: Nodes, e: PsviElement): (r: Nodes)
    ensures Plainly(pre, r)
  {
    DeclRef(TypeRef(c, TypeRef(c, pre, TypeDefinition, e.typeDefinition), MemberTypeDefinition, e.memberType)
            .Absent(NilProperty),
            Declaration, ElementDeclaration, e.declaration)
    .Ref(Notation, e.notation).Absent(IdIdrefTable).Absent(IdentityConstraintTable)
  }

  /** What is known of an element before its content; shown as a comment. */
  function PartialBody(c: Memory, e: PsviElement, model: Option<seq<NamespaceItem>>): (r: Nodes)
    ensures Quiet(r) && SchemaForms(r) == [if model.None? then Missing(0) else Given(0)]
  {
    PartialReferences(c, PartialOutcome(SchemaInformationPlan(c, Start, model), e), e)
  }

  function PartialOutcome(pre: Nodes, e: PsviElement): (r: Nodes)
    ensures Plainly(pre, r)
  {
    pre.Val(ValidationAttempted, e.validationAttempted).Val(ValidationContext, e.validationContext)
    .Val(Validity, e.validity).Val(SchemaNormalizedValue, e.normalizedValue)
    .Val(CanonicalRepresentation, e.canonical)
    .Val(SchemaSpecified, SpecifiedText(e.schemaSpecified)).Val(SchemaDefault, e.schemaDefault)
  }

  function PartialReferences(c: Memory, pre: Nodes, e: PsviElement): (r: Nodes)
    ensures Plainly(pre, r)
  {
    DeclRef(TypeRef(c, TypeRef(c, pre, TypeDefinition, e.typeDefinition), MemberTypeDefinition, e.memberType),
            Declaration, ElementDeclaration, e.declaration)
    .Ref(Notation, e.notation)
  }

  function PartialPlan(c: Memory, pre: Nodes, e: PsviElement, model: Option<seq<NamespaceItem>>): (r: Nodes)
    ensures CommentsFlat(pre) ==> CommentsFlat(r)
  {
    pre.Noted(Start.Group(PartialElementPSVI, PartialBody(c, e, model)))
  }
}
