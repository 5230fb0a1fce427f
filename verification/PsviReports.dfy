/**
 * What the lines of a document tell of the document, decoded by the names of the elements alone, and what there is
 * to tell, gathered from the events of the document alone. PsviReadBack proves that the two agree.
 */
module PsviReports {
  import opened Options
  import opened PsviOutput
  import opened PsviComponents
  import opened PsviEvents
  import opened PsviDocument
  import opened PsviItems
  import Names = PsviNamespaces

  /** The assessment of an element, or what is known of it before its content. */
  datatype Outcome = Outcome(validationAttempted: string, validationContext: string, validity: string,
                             normalizedValue: string, canonical: string, schemaSpecified: string,
                             schemaDefault: string, typeDefinition: Reference, memberType: Reference,
                             declaration: Reference, notation: Reference)

  datatype Assessment = Assessment(validationAttempted: string, validationContext: string, validity: string,
                                   normalizedValue: string, schemaSpecified: string, schemaDefault: string,
                                   typeDefinition: Reference, memberType: Reference, declaration: Reference)

  /** A typed value: its data type and its text, where they are shown. */
  type Actual = Option<(string, string)>

  datatype AttributeReport = AttributeReport(uri: string, localName: string, prefix: string, value: string,
                                             specified: string, attrType: string,
                                             assessment: Option<Assessment>, actual: seq<Actual>)

  datatype Report =
    | TextReport(text: string)
    | CommentReport(text: string)
    | InstructionReport(target: string, data: string)
    | ElementReport(name: NameReport, attributes: seq<AttributeReport>, partial: seq<Outcome>,
                    children: seq<Report>, actual: seq<Actual>, outcome: Outcome)
    | OtherReport

  /** Namespaces in scope are pairs of prefix and uri. */
  datatype NameReport = NameReport(uri: string, localName: string, prefix: string, baseUri: string,
                                   namespaces: seq<(string, string)>)

  datatype DocumentReport = DocumentReport(encoding: Option<string>, standalone: Option<string>,
                                           version: Option<string>, baseUri: string, processed: string,
                                           children: seq<Report>)

  // -------------------------------------------------------------------------
  //  Decoding
  // -------------------------------------------------------------------------

  function OutcomeOf(f: Facts): Outcome {
    Outcome(f.Get(ValidationAttempted), f.Get(ValidationContext), f.Get(Validity), f.Get(SchemaNormalizedValue),
            f.Get(CanonicalRepresentation), f.Get(SchemaSpecified), f.Get(SchemaDefault), f.RefIn(TypeDefinition),
            f.RefIn(MemberTypeDefinition), f.RefIn(Tag.Declaration), f.RefAt(Notation))
  }

  function AssessmentOf(f: Facts): Assessment {
    Assessment(f.Get(ValidationAttempted), f.Get(ValidationContext), f.Get(Validity), f.Get(SchemaNormalizedValue),
               f.Get(SchemaSpecified), f.Get(SchemaDefault), f.RefIn(TypeDefinition), f.RefIn(MemberTypeDefinition),
               f.RefIn(Tag.Declaration))
  }

  /** The typed values in comments. */
  function ActualsIn(comments: seq<Items>): seq<Actual> {
    if comments == [] then []
    else
      var f := FactsOf(comments[|comments| - 1]);
      ActualsIn(comments[..|comments| - 1])
      + if ActualValue in f.parts then [ActualOf(FactsOf(f.parts[ActualValue]))] else []
  }

  function ActualOf(f: Facts): Actual {
    if DataType in f.texts && DataValue in f.texts then Some((f.texts[DataType], f.texts[DataValue])) else None
  }

  function PartialsIn(comments: seq<Items>): seq<Outcome> {
    if comments == [] then []
    else
      var f := FactsOf(comments[|comments| - 1]);
      PartialsIn(comments[..|comments| - 1])
      + if PartialElementPSVI in f.parts then [OutcomeOf(FactsOf(f.parts[PartialElementPSVI]))] else []
  }

  function AttributeOf(item: Item): AttributeReport {
    var f := if item.Elem? then FactsOf(item.children) else NO_FACTS;
    AttributeReport(f.Get(NamespaceName), f.Get(LocalName), f.Get(Prefix), f.Get(NormalizedValue), f.Get(Specified),
                    f.Get(AttributeType), if ValidationAttempted in f.texts then Some(AssessmentOf(f)) else None,
                    ActualsIn(f.comments))
  }

  function AttributesOf(items: Items): seq<AttributeReport> {
    match items
    case Start => []
    case More(front, last) => AttributesOf(front) + [AttributeOf(last)]
  }

  function NamespaceOf(item: Item): (string, string) {
    var f := if item.Elem? then FactsOf(item.children) else NO_FACTS;
    (f.Get(Prefix), f.Get(NamespaceName))
  }

  function NamespacesOf(items: Items): seq<(string, string)> {
    match items
    case Start => []
    case More(front, last) => NamespacesOf(front) + [NamespaceOf(last)]
  }

  function NameOf(f: Facts): NameReport {
    NameReport(f.Get(NamespaceName), f.Get(LocalName), f.Get(Prefix), f.Get(BaseURI),
               NamespacesOf(f.Sub(InScopeNamespaces)))
  }

  function Decode(item: Item): Report
    decreases item
  {
    match item
    case Elem(tag, _, items) =>
      var f := FactsOf(items);
      if tag.Character? then TextReport(f.Get(TextContent))
      else if tag.CommentItem? then CommentReport(f.Get(Tag.Content))
      else if tag.ProcessingInstruction? then InstructionReport(f.Get(Target), f.Get(Tag.Content))
      else if tag.Element? then
        ElementReport(NameOf(f), AttributesOf(f.Sub(Attributes)), PartialsIn(f.comments), DecodeChildren(items),
                      ActualsIn(f.comments) + ActualsIn(FactsOf(f.Sub(Children)).comments), OutcomeOf(f))
      else OtherReport
    case _ => OtherReport
  }

  function DecodeAll(items: Items): seq<Report>
    decreases items
  {
    match items
    case Start => []
    case More(front, Comment(_)) => DecodeAll(front)
    case More(front, last) => DecodeAll(front) + [Decode(last)]
  }

  /** What stands inside the last child named `children`. */
  function DecodeChildren(items: Items): seq<Report>
    decreases items
  {
    match items
    case Start => []
    case More(front, Elem(tag, _, inner)) => if tag.Children? then DecodeAll(inner) else DecodeChildren(front)
    case More(front, _) => DecodeChildren(front)
  }

  function DecodeDocument(items: Items): DocumentReport {
    var f := FactsOf(items);
    DocumentReport(f.Find(CharacterEncodingScheme), f.Find(Standalone), f.Find(Version), f.Get(BaseURI),
                   f.Get(AllDeclarationsProcessed), DecodeChildren(items))
  }

  // -------------------------------------------------------------------------
  //  What there is to tell
  // -------------------------------------------------------------------------

  function TypeNamed(c: Memory, ids: map<Obj, string>, o: Option<Obj>): Reference {
    if o.None? then NoReference
    else Reference(if IsSimple(c, o.value) then SimpleTypeDefinition else ComplexTypeDefinition, IdOf(ids, o.value))
  }

  function DeclNamed(ids: map<Obj, string>, tag: Tag, o: Option<Obj>): Reference {
    if o.None? then NoReference else Reference(tag, IdOf(ids, o.value))
  }

  function OutcomeToTell(c: Memory, ids: map<Obj, string>, e: PsviElement): Outcome {
    Outcome(e.validationAttempted, e.validationContext, e.validity, e.normalizedValue, e.canonical,
            if e.schemaSpecified then "schema" else "infoset", e.schemaDefault,
            TypeNamed(c, ids, e.typeDefinition), TypeNamed(c, ids, e.memberType),
            DeclNamed(ids, ElementDeclaration, e.declaration), DeclNamed(ids, Notation, e.notation))
  }

  function AssessmentToTell(c: Memory, ids: map<Obj, string>, a: PsviAttribute): Assessment {
    Assessment(a.validationAttempted, a.validationContext, a.validity, a.normalizedValue,
               if a.schemaSpecified then "schema" else "infoset", a.schemaDefault,
               TypeNamed(c, ids, a.typeDefinition), TypeNamed(c, ids, a.memberType),
               DeclNamed(ids, AttributeDeclaration, a.declaration))
  }

  function ActualToTell(v: PsviEvents.ActualValue): seq<Actual> {
    match v
    case NoValue => []
    case OtherValue => [None]
    case ShownValue(dataType, dataValue) => [Some((dataType, dataValue))]
  }

  function AttributeToTell(c: Memory, ids: map<Obj, string>, s: Names.Scope, a: AttrInfo,
                           atPlace: Option<PsviAttribute>,
                           byName: Option<PsviAttribute>): AttributeReport {
    AttributeReport(a.uri, a.localName, Names.PrefixOf(s, a.uri), a.value,
                    if atPlace.None? then "unknown" else if atPlace.value.schemaSpecified then "false" else "true",
                    a.attrType, if byName.None? then None else Some(AssessmentToTell(c, ids, byName.value)),
                    if byName.None? then [] else ActualToTell(byName.value.actual))
  }

  function AttributesToTell(c: Memory, ids: map<Obj, string>, s: Names.Scope, infos: seq<AttrInfo>,
                            list: PsviAttributes, n: nat): seq<AttributeReport>
    requires n <= |infos|
  {
    seq(n, i requires 0 <= i < n =>
             AttributeToTell(c, ids, s, infos[i], if i < |list.atIndex| then list.atIndex[i] else None,
                             AssessedAs(list.byName, infos[i].localName, infos[i].uri)))
  }

  function AssessedAs(byName: map<(string, string), PsviAttribute>, localName: string, uri: string)
    : Option<PsviAttribute>
  {
    if (localName, uri) in byName then Some(byName[(localName, uri)]) else None
  }

  function NamespacesToTell(s: Names.Scope, n: nat): seq<(string, string)>
    requires n <= |s.uris|
  {
    [("xml", "http://www.w3.org/XML/1998/namespace")]
    + seq(n, i requires 0 <= i < n => (Names.PrefixOf(s, s.uris[i]), s.uris[i]))
  }

  function NameToTell(env: Env, e: ElementEvents): NameReport {
    NameReport(e.uri, e.localName, Names.PrefixOf(env.scope, e.uri), env.baseUri,
               NamespacesToTell(env.scope, |env.scope.uris|))
  }

  /** Scope and base uri behind content. */
  function EnvAfter(env: Env, x: Content): Env
    decreases x, 0
  {
    match x
    case BaseChange(uri) => env.(baseUri := uri)
    case Nested(e) =>
      var inner := EnvAfterAll(Entered(env, e), e.content, |e.content|);
      inner.(scope := EndAll(inner.scope, e.mappings, |e.mappings|))
    case _ => env
  }

  function EnvAfterAll(env: Env, content: seq<Content>, n: nat): Env
    requires n <= |content|
    decreases content, n
  {
    if n == 0 then env else EnvAfter(EnvAfterAll(env, content, n - 1), content[n - 1])
  }

  function ToTell(c: Memory, ids: map<Obj, string>, env: Env, x: Content): seq<Report>
    decreases x, 0
  {
    match x
    case Chars(text) => [TextReport(text)]
    case Whitespace(_) => []
    case CommentText(text) => [CommentReport(text)]
    case Instruction(target, data) => [InstructionReport(target, data)]
    case BaseChange(_) => []
    case Nested(e) => [ElementToTell(c, ids, Entered(env, e), e)]
  }

  /** env is what holds inside the element. */
  function ElementToTell(c: Memory, ids: map<Obj, string>, env: Env, e: ElementEvents): Report
    decreases e, 0
  {
    ElementReport(NameToTell(env, e), AttributesToTell(c, ids, env.scope, e.attrs, e.assessed, |e.attrs|),
                  if e.partial.None? then [] else [OutcomeToTell(c, ids, e.partial.value)],
                  AllToTell(c, ids, env, e.content, |e.content|),
                  ActualToTell(e.close.actual), OutcomeToTell(c, ids, e.close))
  }

  function AllToTell(c: Memory, ids: map<Obj, string>, env: Env, content: seq<Content>, n: nat): seq<Report>
    requires n <= |content|
    decreases content, n
  {
    if n == 0 then []
    else AllToTell(c, ids, env, content, n - 1) + ToTell(c, ids, EnvAfterAll(env, content, n - 1), content[n - 1])
  }

  function DocumentToTell(c: Memory, ids: map<Obj, string>, d: DocumentEvents): DocumentReport {
    var x := d.declaration;
    DocumentReport(if x.None? then None
                   else Some(if x.value.encoding != "" then x.value.encoding else x.value.autoEncoding),
                   if x.None? then None else Some(x.value.standalone),
                   if x.None? then None else Some(x.value.version),
                   EnvAfterAll(EmptyEnv(), d.content, |d.content|).baseUri, "true",
                   AllToTell(c, ids, EmptyEnv(), d.content, |d.content|))
  }
}
