/** What the PSVI writer prints: element names, tokens, and the trees the tokens spell out. */
module PsviOutput {
  import opened Options
  import opened Numerals

  /** The address of a schema component object. */
  type Obj = nat

  /** The element names the writer uses. */
  datatype Tag =
    | Document | DocumentElement | Notations | UnparsedEntities | BaseURI | AllDeclarationsProcessed
    | CharacterEncodingScheme | Standalone | Version
    | Character | TextContent | CommentItem | Content | ProcessingInstruction | Target
    | Element | NamespaceName | LocalName | Prefix | Children
    | ValidationAttempted | ValidationContext | Validity | SchemaErrorCode | SchemaNormalizedValue
    | CanonicalRepresentation | SchemaSpecified | SchemaDefault | TypeDefinition | MemberTypeDefinition
    | NilProperty | Declaration | Notation | IdIdrefTable | IdentityConstraintTable | PartialElementPSVI
    | Attributes | Attribute | NormalizedValue | Specified | AttributeType | References
    | NamespaceAttributes | InScopeNamespaces | Namespace
    | SchemaInformation | NamespaceSchemaInformation | SchemaNamespace | SchemaComponents
    | SchemaDocuments | SchemaDocument | DocumentLocation | PsvDocument | SchemaAnnotations
    | ComplexTypeDefinition | SimpleTypeDefinition | Name | TargetNamespace | BaseTypeDefinition
    | DerivationMethod | Final | Abstract | ContentType | Variety | ProhibitedSubstitutions
    | PrimitiveTypeDefinition | ItemTypeDefinition | MemberTypeDefinitions
    | ModelGroupDefinition | AttributeGroupDefinition | ElementDeclaration | AttributeDeclaration
    | NotationDeclaration | SystemIdentifier | PublicIdentifier
    | Nillable | SubstitutionGroupAffiliation | SubstitutionGroupExclusions | DisallowedSubstitutions
    | Annotations | Annotation | ApplicationInformation | UserInformation
    | AttributeUses | AttributeUse | Required | AttributeWildcard
    | Facets | FacetOf(kind: string) | FacetValue | FacetFixed
    | FundamentalFacets | Ordered | Bounded | Cardinality | Numeric
    | Wildcard | NamespaceConstraint | Namespaces | ProcessContents
    | ModelGroup | Compositor | Particles | Particle | MinOccurs | MaxOccurs | Term
    | Scope | ValueConstraint
    | IdentityConstraintDefinitions | IdentityConstraintDefinition | IdentityConstraintCategory
    | Selector | Fields | XPath | ReferencedKey
    | ActualValue | DataType | DataValue

  datatype AttrName = Id | Ref | XsiNil | XmlnsXsi | XmlnsPsv | Xmlns

  datatype Attr = Attr(name: AttrName, value: string)

  /** One line of output; `indent` is the number of tabs in front of it. */
  datatype Token =
    | Open(indent: nat, tag: Tag, attrs: seq<Attr>)
    | Close(indent: nat, tag: Tag)
    | Empty(indent: nat, tag: Tag, attrs: seq<Attr>)
    | Value(indent: nat, tag: Tag, text: string)
    | CommentStart(indent: nat)
    | CommentEnd(indent: nat)

  /** What stands in an opening tag: nothing, the document's namespace declarations, or an id. */
  datatype Head = Plain | Root | Named(obj: Obj)

  /**
   * A tree to print. `Inline(o)` stands for "component o here": its definition if it is an anonymous or
   * non-global component not yet defined, else a reference to it (see Expand in PsviExpansion).
   * `Link(tag, o, back)` is a reference; `back` tells the references that stand for such a component.
   * `Mark(places)` prints nothing; it says that from here on the writer has these places noted (see NotesIn).
   */
  datatype Node =
    | Branch(tag: Tag, head: Head, children: Nodes)
    | Text(tag: Tag, text: string)
    | Nil(tag: Tag)
    | Bare(tag: Tag)
    | Link(tag: Tag, target: Obj, back: bool)
    | Remark(children: Nodes)
    | Inline(obj: Obj)
    | Mark(places: seq<nat>)

  /** Sibling nodes in printing order; the writer appends at the end. */
  datatype Nodes = Start | More(front: Nodes, last: Node) {

    /** An element with a text value, or the nil form when there is no text. */
    function Val(tag: Tag, text: string): (r: Nodes)
      ensures PlainlyBut(this, r, tag.SchemaInformation?)
    {
      More(this, if text == "" then Node.Nil(tag) else Text(tag, text))
    }

    function Absent(tag: Tag): (r: Nodes)
      ensures PlainlyBut(this, r, tag.SchemaInformation?)
    {
      More(this, Node.Nil(tag))
    }

    /** An element with nothing in it, not even the nil attribute. */
    function Blank(tag: Tag): (r: Nodes)
      ensures PlainlyBut(this, r, tag.SchemaInformation?)
    {
      More(this, Bare(tag))
    }

    /** An element with a text value, even an empty one. */
    function Written(tag: Tag, text: string): (r: Nodes)
      ensures PlainlyBut(this, r, tag.SchemaInformation?)
    {
      More(this, Text(tag, text))
    }

    /** An element with the decimal form of a number. */
    function Int(tag: Tag, n: nat): (r: Nodes)
      ensures PlainlyBut(this, r, tag.SchemaInformation?)
    {
      More(this, Text(tag, Decimal(n)))
    }

    /** An element with a list of values, each followed by a space; the nil form when there is no list. */
    function List(tag: Tag, values: Option<seq<string>>): (r: Nodes)
      ensures PlainlyBut(this, r, tag.SchemaInformation?)
    {
      More(this, if values.None? then Node.Nil(tag) else Text(tag, Spaced(values.value, |values.value|)))
    }

    function Group(tag: Tag, children: Nodes): (r: Nodes)
      ensures Joined(this, Fixed(children), children, r, tag.SchemaInformation?)
    {
      assert [] + Fixed(children) == Fixed(children);
      More(this, Branch(tag, Plain, children))
    }

    function Defined(tag: Tag, o: Obj, children: Nodes): (r: Nodes)
      ensures Joined(this, [o] + Fixed(children), children, r, tag.SchemaInformation?)
    {
      More(this, Branch(tag, Named(o), children))
    }

    function Ref(tag: Tag, o: Option<Obj>): (r: Nodes)
      ensures PlainlyBut(this, r, tag.SchemaInformation?)
    {
      More(this, if o.None? then Node.Nil(tag) else Link(tag, o.value, false))
    }

    function Here(o: Obj): (r: Nodes)
      ensures Plainly(this, r)
    {
      More(this, Inline(o))
    }

    /** The writer notes these places. */
    function Marked(places: seq<nat>): (r: Nodes)
      ensures Plainly(this, r)
    {
      More(this, Mark(places))
    }

    /** A comment around trees. */
    function Noted(children: Nodes): (r: Nodes)
      ensures CommentsFlat(this) && Quiet(children) ==> CommentsFlat(r)
      ensures Fixed(r) == Fixed(this) + Fixed(children)
      ensures SchemaForms(r) == SchemaForms(this) + Deeper(SchemaForms(children), 1)
    {
      More(this, Remark(children))
    }
  }

  /** Trees were appended that hold no comment and define nothing by themselves. */
  predicate Plainly(pre: Nodes, r: Nodes) {
    PlainlyBut(pre, r, false)
  }

  /** The same, where `schema` tells that schema information may have been appended. */
  predicate PlainlyBut(pre: Nodes, r: Nodes, schema: bool) {
    (Quiet(pre) ==> Quiet(r)) && (CommentsFlat(pre) ==> CommentsFlat(r)) && Fixed(r) == Fixed(pre) &&
    (!schema ==> SchemaForms(r) == SchemaForms(pre))
  }

  /** An element holding `children` was appended; `made` are the objects it defines. */
  predicate Joined(pre: Nodes, made: seq<Obj>, children: Nodes, r: Nodes, schema: bool) {
    && (Quiet(pre) && Quiet(children) ==> Quiet(r))
    && (CommentsFlat(pre) && CommentsFlat(children) ==> CommentsFlat(r))
    && Fixed(r) == Fixed(pre) + made
    && (!schema ==> SchemaForms(r) == SchemaForms(pre) + Deeper(SchemaForms(children), 1))
  }

  function Spaced(values: seq<string>, n: nat): string
    requires n <= |values|
  {
    if n == 0 then "" else Spaced(values, n - 1) + values[n - 1] + " "
  }

  /** No comment anywhere in the trees. */
  predicate Quiet(f: Nodes) {
    match f
    case Start => true
    case More(front, last) => Quiet(front) && QuietNode(last)
  }

  predicate QuietNode(n: Node) {
    match n
    case Branch(_, _, children) => Quiet(children)
    case Remark(_) => false
    case _ => true
  }

  /** No comment inside a comment. */
  predicate CommentsFlat(f: Nodes) {
    match f
    case Start => true
    case More(front, last) => CommentsFlat(front) && CommentsFlatNode(last)
  }

  predicate CommentsFlatNode(n: Node) {
    match n
    case Branch(_, _, children) => CommentsFlat(children)
    case Remark(children) => Quiet(children)
    case _ => true
  }

  lemma {:induction false} QuietIsFlat(f: Nodes)
    requires Quiet(f)
    ensures CommentsFlat(f)
  {
    if f.More? {
      QuietIsFlat(f.front);
      if f.last.Branch? {
        QuietIsFlat(f.last.children);
      }
    }
  }

  /** Schema information in the trees, by depth: the schema is given, or missing, or shown in another way. */
  datatype SchemaForm = Given(depth: nat) | Missing(depth: nat) | Odd(depth: nat) {
    function In(i: nat): SchemaForm {
      match this
      case Given(n) => Given(n + i)
      case Missing(n) => Missing(n + i)
      case Odd(n) => Odd(n + i)
    }
  }

  /** The schema information in the trees, in printing order. */
  function SchemaForms(f: Nodes): seq<SchemaForm> {
    match f
    case Start => []
    case More(front, last) => SchemaForms(front) + SchemaFormsNode(last)
  }

  function SchemaFormsNode(n: Node): seq<SchemaForm> {
    match n
    case Branch(tag, head, children) =>
      (if !tag.SchemaInformation? then [] else if head.Plain? then [Given(0)] else [Odd(0)])
      + Deeper(SchemaForms(children), 1)
    case Text(tag, _) => if tag.SchemaInformation? then [Odd(0)] else []
    case Nil(tag) => if tag.SchemaInformation? then [Missing(0)] else []
    case Bare(tag) => if tag.SchemaInformation? then [Odd(0)] else []
    case Link(tag, _, _) => if tag.SchemaInformation? then [Odd(0)] else []
    case Remark(children) => Deeper(SchemaForms(children), 1)
    case _ => []
  }

  /** The same inside i more levels. */
  function Deeper(s: seq<SchemaForm>, i: nat): (r: seq<SchemaForm>)
    ensures |r| == |s| && forall k :: 0 <= k < |s| ==> r[k] == s[k].In(i)
  {
    if s == [] then [] else Deeper(s[..|s| - 1], i) + [s[|s| - 1].In(i)]
  }

  predicate NoSchema(f: Nodes) { SchemaForms(f) == [] }

  /** The places noted after printing trees, if `before` were noted before. */
  function NotesIn(f: Nodes, before: seq<nat>): seq<nat> {
    match f
    case Start => before
    case More(front, last) => NotesInNode(last, NotesIn(front, before))
  }

  function NotesInNode(n: Node, before: seq<nat>): seq<nat> {
    match n
    case Branch(_, _, children) => NotesIn(children, before)
    case Remark(children) => NotesIn(children, before)
    case Mark(places) => places
    case _ => before
  }

  function HeadObj(h: Head): seq<Obj> {
    if h.Named? then [h.obj] else []
  }

  /** The objects the trees define whatever was defined before, in printing order. */
  function Fixed(f: Nodes): seq<Obj> {
    match f
    case Start => []
    case More(front, last) => Fixed(front) + FixedNode(last)
  }

  function FixedNode(n: Node): seq<Obj> {
    match n
    case Branch(_, head, children) => HeadObj(head) + Fixed(children)
    case Remark(children) => Fixed(children)
    case _ => []
  }

  /** The objects the trees mention, as a definition or a reference, in printing order. */
  function Mentioned(f: Nodes): seq<Obj> {
    match f
    case Start => []
    case More(front, last) => Mentioned(front) + MentionedNode(last)
  }

  function MentionedNode(n: Node): seq<Obj> {
    match n
    case Branch(_, head, children) => HeadObj(head) + Mentioned(children)
    case Link(_, o, _) => [o]
    case Remark(children) => Mentioned(children)
    case _ => []
  }

  /** An id or a reference in the output; `back` as in Link. */
  datatype Mention = Def(obj: Obj) | Use(obj: Obj, back: bool)

  /** Ids and references in printing order. */
  function Mentions(f: Nodes): seq<Mention> {
    match f
    case Start => []
    case More(front, last) => Mentions(front) + MentionsNode(last)
  }

  function MentionsNode(n: Node): seq<Mention> {
    match n
    case Branch(_, head, children) => (if head.Named? then [Def(head.obj)] else []) + Mentions(children)
    case Link(_, o, back) => [Use(o, back)]
    case Remark(children) => Mentions(children)
    case _ => []
  }

  // -------------------------------------------------------------------------
  //  Printing a tree
  // -------------------------------------------------------------------------

  function RootAttrs(): seq<Attr> {
    [Attr(XmlnsXsi, "http://www.w3.org/2001/XMLSchema-instance"),
     Attr(XmlnsPsv, "http://apache.org/xml/2001/PSVInfosetExtension"),
     Attr(Xmlns, "http://www.w3.org/2001/05/XMLInfoset")]
  }

  function NilAttrs(): seq<Attr> { [Attr(XsiNil, "true")] }

  function IdOf(ids: map<Obj, string>, o: Obj): string {
    if o in ids then ids[o] else ""
  }

  function IdAttrs(ids: map<Obj, string>, o: Obj): seq<Attr> { [Attr(Id, IdOf(ids, o))] }

  function RefAttrs(ids: map<Obj, string>, o: Obj): seq<Attr> {
    [Attr(Ref, IdOf(ids, o)), Attr(XsiNil, "true")]
  }

  function HeadAttrs(ids: map<Obj, string>, h: Head): seq<Attr> {
    match h
    case Plain => []
    case Root => RootAttrs()
    case Named(o) => IdAttrs(ids, o)
  }

  /** The lines for sibling trees, the outermost indented by i tabs. */
  function Render(i: nat, ids: map<Obj, string>, f: Nodes): seq<Token>
    decreases f
  {
    match f
    case Start => []
    case More(front, last) => Render(i, ids, front) + RenderNode(i, ids, last)
  }

  function RenderNode(i: nat, ids: map<Obj, string>, n: Node): seq<Token>
    decreases n
  {
    match n
    case Branch(tag, head, children) =>
      [Open(i, tag, HeadAttrs(ids, head))] + Render(i + 1, ids, children) + [Close(i, tag)]
    case Text(tag, text) => [Value(i, tag, text)]
    case Nil(tag) => [Empty(i, tag, NilAttrs())]
    case Bare(tag) => [Empty(i, tag, [])]
    case Link(tag, o, _) => [Empty(i, tag, RefAttrs(ids, o))]
    case Remark(children) => [CommentStart(i)] + Render(i + 1, ids, children) + [CommentEnd(i)]
    case Inline(_) => []
    case Mark(_) => []
  }

  /** Every object mentioned has an id string. */
  predicate Known(ids: map<Obj, string>, f: Nodes) {
    match f
    case Start => true
    case More(front, last) => Known(ids, front) && KnownNode(ids, last)
  }

  predicate KnownNode(ids: map<Obj, string>, n: Node) {
    match n
    case Branch(_, head, children) => (head.Named? ==> head.obj in ids) && Known(ids, children)
    case Link(_, o, _) => o in ids
    case Remark(children) => Known(ids, children)
    case _ => true
  }

  predicate Extends(ids: map<Obj, string>, ids': map<Obj, string>) {
    forall o :: o in ids ==> o in ids' && ids'[o] == ids[o]
  }

  /** Ids given out later do not change what was printed before. */
  lemma {:induction false} RenderStable(i: nat, ids: map<Obj, string>, ids': map<Obj, string>, f: Nodes)
    requires Known(ids, f) && Extends(ids, ids')
    ensures Known(ids', f) && Render(i, ids', f) == Render(i, ids, f)
    decreases f
  {
    if f.More? {
      RenderStable(i, ids, ids', f.front);
      if f.last.Branch? || f.last.Remark? {
        RenderStable(i + 1, ids, ids', f.last.children);
      }
    }
  }
}
