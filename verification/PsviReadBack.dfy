/** The lines of a document tell what the parser reported: decoding them gives back the document's report. */
module PsviReadBack {
  import opened Options
  import opened PsviOutput
  import opened PsviComponents
  import opened PsviPlans
  import opened PsviExpansion
  import opened PsviEvents
  import opened PsviDocument
  import opened PsviItems
  import opened PsviReports
  import Names = PsviNamespaces
  import Reader = PsviReader

  // -------------------------------------------------------------------------
  //  Decoding lists and children
  // -------------------------------------------------------------------------

  lemma {:induction false} ChildrenDecoded(items: Items)
    ensures DecodeChildren(items) == DecodeAll(FactsOf(items).Sub(Children))
    decreases items
  {
    hide Decode, DecodeAll, ReferenceOf, NilAttrs;
    match items
    case Start => assert DecodeAll(NO_ITEMS) == [] by { NothingDecoded(); }
    case More(front, last) => ChildrenDecoded(front);
  }

  lemma NothingDecoded()
    ensures DecodeAll(NO_ITEMS) == [] && AttributesOf(NO_ITEMS) == [] && NamespacesOf(NO_ITEMS) == []
  {
  }

  // -------------------------------------------------------------------------
  //  References
  // -------------------------------------------------------------------------

  lemma TypeRefFacts(c: Memory, ids: map<Obj, string>, d: seq<Obj>, pre: Nodes, enclose: Tag, o: Option<Obj>)
    requires TypeLink(c, o)
    ensures FactsIn(c, ids, d, TypeRef(c, pre, enclose, o))
         == if o.None? then FactsIn(c, ids, d, pre).Text(enclose, "")
            else FactsIn(c, ids, d, pre)
                 .Part(enclose, View(c, ids, Now(c, d, pre), Start.Ref(TagOf(c, o.value), o)))
    ensures o.Some? ==>
              LastReference(View(c, ids, Now(c, d, pre), Start.Ref(TagOf(c, o.value), o))) == TypeNamed(c, ids, o)
  {
    hide FactsIn, View, Now, Nodes.Group, Nodes.Ref, Nodes.Absent;
    if o.None? {
      OneNil(c, ids, d, pre, enclose);
    } else {
      OneGroup(c, ids, d, pre, enclose, Start.Ref(TagOf(c, o.value), o));
      OneLink(c, ids, Now(c, d, pre), Start, TagOf(c, o.value), o.value);
    }
  }

  lemma DeclRefFacts(c: Memory, ids: map<Obj, string>, d: seq<Obj>, pre: Nodes, enclose: Tag, tag: Tag, o: Option<Obj>)
    ensures FactsIn(c, ids, d, DeclRef(pre, enclose, tag, o))
         == if o.None? then FactsIn(c, ids, d, pre).Text(enclose, "")
            else FactsIn(c, ids, d, pre).Part(enclose, View(c, ids, Now(c, d, pre), Start.Ref(tag, o)))
    ensures o.Some? ==> LastReference(View(c, ids, Now(c, d, pre), Start.Ref(tag, o))) == DeclNamed(ids, tag, o)
  {
    hide FactsIn, View, Now, Nodes.Group, Nodes.Ref, Nodes.Absent;
    if o.None? {
      OneNil(c, ids, d, pre, enclose);
    } else {
      OneGroup(c, ids, d, pre, enclose, Start.Ref(tag, o));
      OneLink(c, ids, Now(c, d, pre), Start, tag, o.value);
    }
  }

  lemma TypeHereFacts(c: Memory, ids: map<Obj, string>, d: seq<Obj>, pre: Nodes, enclose: Tag, o: Option<Obj>)
    requires TypeLink(c, o)
    ensures FactsIn(c, ids, d, TypeHere(pre, enclose, o))
         == if o.None? then FactsIn(c, ids, d, pre).Text(enclose, "")
            else FactsIn(c, ids, d, pre).Part(enclose, View(c, ids, Now(c, d, pre), Start.Here(o.value)))
    ensures o.Some? ==> LastReference(View(c, ids, Now(c, d, pre), Start.Here(o.value))) == TypeNamed(c, ids, o)
  {
    hide FactsIn, View, Now, Nodes.Group, Nodes.Here, Nodes.Absent;
    if o.None? {
      OneNil(c, ids, d, pre, enclose);
    } else {
      OneGroup(c, ids, d, pre, enclose, Start.Here(o.value));
      OneHere(c, ids, Now(c, d, pre), Start, o.value);
    }
  }

  lemma RefFacts(c: Memory, ids: map<Obj, string>, d: seq<Obj>, pre: Nodes, tag: Tag, o: Option<Obj>)
    ensures FactsIn(c, ids, d, pre.Ref(tag, o))
         == if o.None? then FactsIn(c, ids, d, pre).Text(tag, "")
            else FactsIn(c, ids, d, pre).Named(tag, IdOf(ids, o.value))
  {
    hide FactsIn, View, Now;
    if o.None? {
      OneNil(c, ids, d, pre, tag);
    } else {
      OneLink(c, ids, d, pre, tag, o.value);
    }
  }

  // -------------------------------------------------------------------------
  //  Typed values
  // -------------------------------------------------------------------------

  lemma ActualFacts(c: Memory, ids: map<Obj, string>, d: seq<Obj>, pre: Nodes, v: PsviEvents.ActualValue)
    ensures var f, g := FactsIn(c, ids, d, pre), FactsIn(c, ids, d, ActualValuePlan(pre, v));
            && g == f.(comments := g.comments)
            && ActualsIn(g.comments) == ActualsIn(f.comments) + ActualToTell(v)
            && PartialsIn(g.comments) == PartialsIn(f.comments)
    ensures DecodeAll(View(c, ids, d, ActualValuePlan(pre, v))) == DecodeAll(View(c, ids, d, pre))
  {
    hide FactsIn, View, Now, ActualsIn, PartialsIn, ActualValueBody;
    var f := FactsIn(c, ids, d, pre);
    if v.NoValue? {
      assert ActualsIn(f.comments) + [] == ActualsIn(f.comments);
    } else {
      var d1, body := Now(c, d, pre), Start.Group(Tag.ActualValue, ActualValueBody(v));
      OneRemark(c, ids, d, pre, body);
      OneGroup(c, ids, d1, Start, Tag.ActualValue, ActualValueBody(v));
      ViewStart(c, ids, d1);
      var inner := View(c, ids, Now(c, d1, Start), ActualValueBody(v));
      assert FactsIn(c, ids, d1, body) == NO_FACTS.Part(Tag.ActualValue, inner);
      ValueFacts(c, ids, Now(c, d1, Start), v);
      OneComment(f.comments, View(c, ids, d1, body));
      FactsOfView(c, ids, d1, body);
      FactsOfView(c, ids, Now(c, d1, Start), ActualValueBody(v));
    }
  }

  lemma FactsOfView(c: Memory, ids: map<Obj, string>, d: seq<Obj>, f: Nodes)
    ensures FactsOf(View(c, ids, d, f)) == FactsIn(c, ids, d, f)
  {
  }

  lemma OneComment(comments: seq<Items>, items: Items)
    ensures ActualsIn(comments + [items])
         == ActualsIn(comments) + if ActualValue in FactsOf(items).parts
                                  then [ActualOf(FactsOf(FactsOf(items).parts[ActualValue]))] else []
    ensures PartialsIn(comments + [items])
         == PartialsIn(comments) + if PartialElementPSVI in FactsOf(items).parts
                                   then [OutcomeOf(FactsOf(FactsOf(items).parts[PartialElementPSVI]))] else []
  {
    hide FactsOf, ActualOf, OutcomeOf;
    assert (comments + [items])[..|comments|] == comments;
  }

  lemma ValueFacts(c: Memory, ids: map<Obj, string>, d: seq<Obj>, v: PsviEvents.ActualValue)
    ensures !v.NoValue? ==> [ActualOf(FactsIn(c, ids, d, ActualValueBody(v)))] == ActualToTell(v)
  {
    hide FactsIn, View, Now;
    ViewStart(c, ids, d);
    if v.ShownValue? {
      OneText(c, ids, d, Start, DataType, v.dataType);
      OneText(c, ids, d, Start.Written(DataType, v.dataType), DataValue, v.dataValue);
    }
  }

  // -------------------------------------------------------------------------
  //  Outcomes
  // -------------------------------------------------------------------------

  /** Nothing is told yet that the assessment tells. */
  predicate Unassessed(f: Facts) {
    TypeDefinition !in f.parts && MemberTypeDefinition !in f.parts && Tag.Declaration !in f.parts && Notation !in f.refs
  }

  /** The same is told of the start and the children of an element. */
  predicate SameStart(f: Facts, g: Facts) {
    NameOf(f) == NameOf(g) && f.Sub(Attributes) == g.Sub(Attributes) && f.Sub(Children) == g.Sub(Children)
    && f.comments == g.comments
  }

  /** The texts of an outcome; everything else is as before. */
  predicate OutcomeTexts(f: Facts, g: Facts, e: PsviElement) {
    FirstTexts(f, g, e) && LastTexts(g, e)
  }

  predicate FirstTexts(f: Facts, g: Facts, e: PsviElement) {
    && g == f.(texts := g.texts) && SameNames(f, g)
    && g.Get(ValidationAttempted) == e.validationAttempted && g.Get(ValidationContext) == e.validationContext
    && g.Get(Validity) == e.validity
  }

  predicate LastTexts(g: Facts, e: PsviElement) {
    && g.Get(SchemaNormalizedValue) == e.normalizedValue && g.Get(CanonicalRepresentation) == e.canonical
    && g.Get(SchemaSpecified) == (if e.schemaSpecified then "schema" else "infoset")
    && g.Get(SchemaDefault) == e.schemaDefault
  }

  predicate SameNames(f: Facts, g: Facts) {
    && g.Get(NamespaceName) == f.Get(NamespaceName) && g.Get(LocalName) == f.Get(LocalName)
    && g.Get(Prefix) == f.Get(Prefix) && g.Get(BaseURI) == f.Get(BaseURI)
  }

  /** The texts of an outcome, one behind the other. */
  function WithFirst(f: Facts, e: PsviElement): Facts {
    f.Text(ValidationAttempted, e.validationAttempted).Text(ValidationContext, e.validationContext)
    .Text(Validity, e.validity)
  }

  function WithLast(f: Facts, e: PsviElement): Facts {
    f.Text(SchemaNormalizedValue, e.normalizedValue).Text(CanonicalRepresentation, e.canonical)
    .Text(SchemaSpecified, SpecifiedText(e.schemaSpecified)).Text(SchemaDefault, e.schemaDefault)
  }

  lemma FirstFound(f: Facts, e: PsviElement)
    ensures FirstTexts(f, WithFirst(f, e), e)
  {
  }

  lemma LastFound(f: Facts, g: Facts, e: PsviElement)
    requires FirstTexts(f, g, e)
    ensures OutcomeTexts(f, WithLast(g, e), e)
  {
  }

  lemma NilFound(f: Facts, g: Facts, e: PsviElement)
    requires FirstTexts(f, g, e)
    ensures FirstTexts(f, g.Text(SchemaErrorCode, ""), e)
  {
  }

  lemma FirstOutcomeFacts(c: Memory, ids: map<Obj, string>, d: seq<Obj>, pre: Nodes, e: PsviElement)
    ensures FactsIn(c, ids, d, pre.Val(ValidationAttempted, e.validationAttempted)
                               .Val(ValidationContext, e.validationContext).Val(Validity, e.validity))
         == WithFirst(FactsIn(c, ids, d, pre), e)
  {
    hide FactsIn, Nodes.Val, Facts.Text;
    var f1 := pre.Val(ValidationAttempted, e.validationAttempted);
    OneVal(c, ids, d, pre, ValidationAttempted, e.validationAttempted);
    OneVal(c, ids, d, f1, ValidationContext, e.validationContext);
    OneVal(c, ids, d, f1.Val(ValidationContext, e.validationContext), Validity, e.validity);
  }

  lemma LastOutcomeFacts(c: Memory, ids: map<Obj, string>, d: seq<Obj>, pre: Nodes, e: PsviElement)
    ensures FactsIn(c, ids, d, pre.Val(SchemaNormalizedValue, e.normalizedValue)
                               .Val(CanonicalRepresentation, e.canonical)
                               .Val(SchemaSpecified, SpecifiedText(e.schemaSpecified))
                               .Val(SchemaDefault, e.schemaDefault))
         == WithLast(FactsIn(c, ids, d, pre), e)
  {
    hide FactsIn, Nodes.Val, Facts.Text;
    var f1 := pre.Val(SchemaNormalizedValue, e.normalizedValue);
    var f2 := f1.Val(CanonicalRepresentation, e.canonical);
    OneVal(c, ids, d, pre, SchemaNormalizedValue, e.normalizedValue);
    OneVal(c, ids, d, f1, CanonicalRepresentation, e.canonical);
    OneVal(c, ids, d, f2, SchemaSpecified, SpecifiedText(e.schemaSpecified));
    OneVal(c, ids, d, f2.Val(SchemaSpecified, SpecifiedText(e.schemaSpecified)), SchemaDefault, e.schemaDefault);
  }

  lemma ElementOutcomeFacts(c: Memory, ids: map<Obj, string>, d: seq<Obj>, pre: Nodes, e: PsviElement)
    ensures OutcomeTexts(FactsIn(c, ids, d, pre), FactsIn(c, ids, d, ElementOutcome(pre, e)), e)
  {
    hide FactsIn, Nodes.Val, Nodes.Absent, Facts.Text, FirstTexts, OutcomeTexts, WithFirst, WithLast;
    var first := pre.Val(ValidationAttempted, e.validationAttempted).Val(ValidationContext, e.validationContext)
                 .Val(Validity, e.validity);
    FirstOutcomeFacts(c, ids, d, pre, e);
    FirstFound(FactsIn(c, ids, d, pre), e);
    OneNil(c, ids, d, first, SchemaErrorCode);
    NilFound(FactsIn(c, ids, d, pre), FactsIn(c, ids, d, first), e);
    LastOutcomeFacts(c, ids, d, first.Absent(SchemaErrorCode), e);
    LastFound(FactsIn(c, ids, d, pre), FactsIn(c, ids, d, first.Absent(SchemaErrorCode)), e);
  }

  lemma PartialOutcomeFacts(c: Memory, ids: map<Obj, string>, d: seq<Obj>, pre: Nodes, e: PsviElement)
    ensures OutcomeTexts(FactsIn(c, ids, d, pre), FactsIn(c, ids, d, PartialOutcome(pre, e)), e)
  {
    hide FactsIn, Nodes.Val, Facts.Text, FirstTexts, OutcomeTexts, WithFirst, WithLast;
    var first := pre.Val(ValidationAttempted, e.validationAttempted).Val(ValidationContext, e.validationContext)
                 .Val(Validity, e.validity);
    FirstOutcomeFacts(c, ids, d, pre, e);
    FirstFound(FactsIn(c, ids, d, pre), e);
    LastOutcomeFacts(c, ids, d, first, e);
    LastFound(FactsIn(c, ids, d, pre), FactsIn(c, ids, d, first), e);
  }

  /** One reference is told under a tag, or its absence. */
  predicate Told(f: Facts, g: Facts, tag: Tag, r: Reference) {
    if r.NoReference? then g == f.Text(tag, "")
    else tag in g.parts && LastReference(g.parts[tag]) == r && g == f.Part(tag, g.parts[tag])
  }

  predicate IsReferenceTag(tag: Tag) { tag.TypeDefinition? || tag.MemberTypeDefinition? || tag.Declaration? }

  predicate IsEmptyTag(tag: Tag) { tag.NilProperty? || tag.IdIdrefTable? || tag.IdentityConstraintTable? }

  /** The texts of an outcome, and what is told of start and children, are as before. */
  predicate SameTexts(f: Facts, g: Facts) {
    && g.Get(ValidationAttempted) == f.Get(ValidationAttempted)
    && g.Get(ValidationContext) == f.Get(ValidationContext) && g.Get(Validity) == f.Get(Validity)
    && g.Get(SchemaNormalizedValue) == f.Get(SchemaNormalizedValue)
    && g.Get(CanonicalRepresentation) == f.Get(CanonicalRepresentation)
    && g.Get(SchemaSpecified) == f.Get(SchemaSpecified) && g.Get(SchemaDefault) == f.Get(SchemaDefault)
  }

  predicate SameReferences(f: Facts, g: Facts) {
    && g.RefIn(TypeDefinition) == f.RefIn(TypeDefinition)
    && g.RefIn(MemberTypeDefinition) == f.RefIn(MemberTypeDefinition)
    && g.RefIn(Tag.Declaration) == f.RefIn(Tag.Declaration)
  }

  /** A text under such a tag is not one of the texts of an outcome or of an attribute. */
  lemma SameAside(f: Facts, tag: Tag)
    requires IsReferenceTag(tag) || IsEmptyTag(tag)
    ensures var g := f.Text(tag, ""); SameTexts(f, g) && SameNames(f, g) && SameInfo(f, g)
  {
    hide SameTexts, SameNames, SameInfo;
    TextsAside(f, tag);
    NamesAside(f, tag);
    InfoAside(f, tag);
  }

  lemma TextKept(f: Facts, tag: Tag, x: Tag)
    requires x != tag
    ensures f.Text(tag, "").Get(x) == f.Get(x)
  {
  }

  lemma TextsAside(f: Facts, tag: Tag)
    requires IsReferenceTag(tag) || IsEmptyTag(tag)
    ensures SameTexts(f, f.Text(tag, ""))
  {
    hide Facts.Text, Facts.Get;
    TextKept(f, tag, ValidationAttempted);
    TextKept(f, tag, ValidationContext);
    TextKept(f, tag, Validity);
    TextKept(f, tag, SchemaNormalizedValue);
    TextKept(f, tag, CanonicalRepresentation);
    TextKept(f, tag, SchemaSpecified);
    TextKept(f, tag, SchemaDefault);
  }

  lemma NamesAside(f: Facts, tag: Tag)
    requires IsReferenceTag(tag) || IsEmptyTag(tag)
    ensures SameNames(f, f.Text(tag, ""))
  {
    hide Facts.Text, Facts.Get;
    TextKept(f, tag, NamespaceName);
    TextKept(f, tag, LocalName);
    TextKept(f, tag, Prefix);
    TextKept(f, tag, BaseURI);
  }

  lemma InfoAside(f: Facts, tag: Tag)
    requires IsReferenceTag(tag) || IsEmptyTag(tag)
    ensures SameInfo(f, f.Text(tag, ""))
  {
    hide Facts.Text, Facts.Get;
    TextKept(f, tag, NamespaceName);
    TextKept(f, tag, LocalName);
    TextKept(f, tag, Prefix);
    TextKept(f, tag, NormalizedValue);
    TextKept(f, tag, Specified);
    TextKept(f, tag, AttributeType);
  }

  lemma SameTextMap(f: Facts, g: Facts)
    requires g.texts == f.texts
    ensures SameTexts(f, g) && SameNames(f, g) && SameInfo(f, g)
  {
  }

  lemma StartKept(f: Facts, g: Facts)
    requires SameNames(f, g) && g.comments == f.comments && g.Sub(InScopeNamespaces) == f.Sub(InScopeNamespaces)
    requires g.Sub(Attributes) == f.Sub(Attributes) && g.Sub(Children) == f.Sub(Children)
    ensures SameStart(f, g)
  {
    hide NamespacesOf, Facts.Get, Facts.Sub;
  }

  lemma PartAside(f: Facts, tag: Tag, items: Items)
    requires IsReferenceTag(tag)
    ensures var g := f.Part(tag, items);
            && g.Sub(InScopeNamespaces) == f.Sub(InScopeNamespaces) && g.Sub(Attributes) == f.Sub(Attributes)
            && g.Sub(Children) == f.Sub(Children) && g.Sub(tag) == items
            && forall x :: IsReferenceTag(x) && x != tag ==> (x in g.parts <==> x in f.parts) && g.Sub(x) == f.Sub(x)
  {
  }

  lemma PartTold(f: Facts, g: Facts, tag: Tag, r: Reference)
    requires IsReferenceTag(tag) && tag !in f.parts && Told(f, g, tag, r)
    ensures g.RefIn(tag) == r && g.refs == f.refs && SameTexts(f, g) && SameStart(f, g)
    ensures forall x :: IsReferenceTag(x) && x != tag ==>
              (x in g.parts <==> x in f.parts) && g.RefIn(x) == f.RefIn(x)
  {
    hide SameTexts, SameNames, SameInfo, SameStart, LastReference, Facts.Get;
    NothingNamed();
    if r.NoReference? {
      SameAside(f, tag);
    } else {
      PartAside(f, tag, g.parts[tag]);
      SameTextMap(f, g);
    }
    StartKept(f, g);
  }

  lemma EmptyTold(f: Facts, tag: Tag)
    requires IsEmptyTag(tag)
    ensures var g := f.Text(tag, ""); g == f.(texts := g.texts) && SameTexts(f, g) && SameStart(f, g)
  {
    hide SameTexts, SameNames, SameInfo, SameStart, Facts.Get;
    SameAside(f, tag);
    StartKept(f, f.Text(tag, ""));
  }

  lemma NotationTold(f: Facts, g: Facts, r: Reference)
    requires Notation !in f.refs
    requires g == if r.NoReference? then f.Text(Notation, "") else f.Named(Notation, r.id)
    requires r.NoReference? || r.tag.Notation?
    ensures g.RefAt(Notation) == r && g.parts == f.parts && SameTexts(f, g) && SameStart(f, g)
  {
    hide NamespacesOf;
  }

  lemma NothingNamed()
    ensures LastReference(NO_ITEMS) == NoReference
  {
  }

  /** The objects an outcome names are told; its texts and everything before are as they were. */
  predicate OutcomeReferences(c: Memory, ids: map<Obj, string>, f: Facts, g: Facts, e: PsviElement) {
    && g.RefIn(TypeDefinition) == TypeNamed(c, ids, e.typeDefinition)
    && g.RefIn(MemberTypeDefinition) == TypeNamed(c, ids, e.memberType)
    && g.RefIn(Tag.Declaration) == DeclNamed(ids, ElementDeclaration, e.declaration)
    && g.RefAt(Notation) == DeclNamed(ids, Notation, e.notation)
    && SameTexts(f, g) && SameStart(f, g)
  }

  lemma TypeRefTold(c: Memory, ids: map<Obj, string>, d: seq<Obj>, pre: Nodes, enclose: Tag, o: Option<Obj>)
    requires TypeLink(c, o) && IsReferenceTag(enclose)
    ensures Told(FactsIn(c, ids, d, pre), FactsIn(c, ids, d, TypeRef(c, pre, enclose, o)), enclose,
                 TypeNamed(c, ids, o))
  {
    hide FactsIn, View, Now, TypeRef;
    TypeRefFacts(c, ids, d, pre, enclose, o);
  }

  lemma DeclRefTold(c: Memory, ids: map<Obj, string>, d: seq<Obj>, pre: Nodes, tag: Tag, o: Option<Obj>)
    ensures Told(FactsIn(c, ids, d, pre), FactsIn(c, ids, d, DeclRef(pre, Tag.Declaration, tag, o)), Tag.Declaration,
                 DeclNamed(ids, tag, o))
  {
    hide FactsIn, View, Now, DeclRef;
    DeclRefFacts(c, ids, d, pre, Tag.Declaration, tag, o);
  }

  /** The types of an outcome. */
  lemma TypesFacts(c: Memory, ids: map<Obj, string>, d: seq<Obj>, pre: Nodes, e: PsviElement)
    requires PsviElementLinked(c, e) && Unassessed(FactsIn(c, ids, d, pre))
    ensures var f := FactsIn(c, ids, d, pre);
            var g := FactsIn(c, ids, d, TypeRef(c, TypeRef(c, pre, TypeDefinition, e.typeDefinition),
                                                MemberTypeDefinition, e.memberType));
            && g.RefIn(TypeDefinition) == TypeNamed(c, ids, e.typeDefinition)
            && g.RefIn(MemberTypeDefinition) == TypeNamed(c, ids, e.memberType)
            && Tag.Declaration !in g.parts && g.refs == f.refs && SameTexts(f, g) && SameStart(f, g)
  {
    hide FactsIn, TypeRef, Told, LastReference, NamespacesOf, ModelLinked, Facts.RefIn, SameTexts, NameOf;
    var f1 := TypeRef(c, pre, TypeDefinition, e.typeDefinition);
    TypeRefTold(c, ids, d, pre, TypeDefinition, e.typeDefinition);
    TypeRefTold(c, ids, d, f1, MemberTypeDefinition, e.memberType);
    PartTold(FactsIn(c, ids, d, pre), FactsIn(c, ids, d, f1), TypeDefinition, TypeNamed(c, ids, e.typeDefinition));
    PartTold(FactsIn(c, ids, d, f1), FactsIn(c, ids, d, TypeRef(c, f1, MemberTypeDefinition, e.memberType)),
             MemberTypeDefinition, TypeNamed(c, ids, e.memberType));
    SameTextsThrough(FactsIn(c, ids, d, pre), FactsIn(c, ids, d, f1),
                     FactsIn(c, ids, d, TypeRef(c, f1, MemberTypeDefinition, e.memberType)));
  }

  lemma SameTextsThrough(f: Facts, g: Facts, h: Facts)
    ensures SameTexts(f, g) && SameTexts(g, h) ==> SameTexts(f, h)
    ensures SameStart(f, g) && SameStart(g, h) ==> SameStart(f, h)
  {
    hide NameOf;
  }

  /** Declaration and notation of an outcome. */
  lemma DeclarationFacts(c: Memory, ids: map<Obj, string>, d: seq<Obj>, pre: Nodes, e: PsviElement)
    requires Tag.Declaration !in FactsIn(c, ids, d, pre).parts && Notation !in FactsIn(c, ids, d, pre).refs
    ensures var f := FactsIn(c, ids, d, pre);
            var g := FactsIn(c, ids, d, DeclRef(pre, Tag.Declaration, ElementDeclaration, e.declaration)
                                        .Ref(Notation, e.notation));
            && g.RefIn(Tag.Declaration) == DeclNamed(ids, ElementDeclaration, e.declaration)
            && g.RefAt(Notation) == DeclNamed(ids, Notation, e.notation)
            && g.RefIn(TypeDefinition) == f.RefIn(TypeDefinition)
            && g.RefIn(MemberTypeDefinition) == f.RefIn(MemberTypeDefinition)
            && SameTexts(f, g) && SameStart(f, g)
  {
    hide FactsIn, DeclRef, Nodes.Ref, Told, LastReference, NamespacesOf, Facts.RefIn, Facts.RefAt, SameTexts, NameOf;
    var f1 := DeclRef(pre, Tag.Declaration, ElementDeclaration, e.declaration);
    DeclRefTold(c, ids, d, pre, ElementDeclaration, e.declaration);
    PartTold(FactsIn(c, ids, d, pre), FactsIn(c, ids, d, f1), Tag.Declaration,
             DeclNamed(ids, ElementDeclaration, e.declaration));
    RefFacts(c, ids, d, f1, Notation, e.notation);
    NotationTold(FactsIn(c, ids, d, f1), FactsIn(c, ids, d, f1.Ref(Notation, e.notation)),
                 DeclNamed(ids, Notation, e.notation));
    SameParts(FactsIn(c, ids, d, f1), FactsIn(c, ids, d, f1.Ref(Notation, e.notation)));
    SameTextsThrough(FactsIn(c, ids, d, pre), FactsIn(c, ids, d, f1), FactsIn(c, ids, d, f1.Ref(Notation, e.notation)));
  }

  lemma SameParts(f: Facts, g: Facts)
    requires g.parts == f.parts
    ensures SameReferences(f, g)
  {
  }

  lemma PartialReferencesFacts(c: Memory, ids: map<Obj, string>, d: seq<Obj>, pre: Nodes, e: PsviElement)
    requires PsviElementLinked(c, e) && Unassessed(FactsIn(c, ids, d, pre))
    ensures OutcomeReferences(c, ids, FactsIn(c, ids, d, pre), FactsIn(c, ids, d, PartialReferences(c, pre, e)), e)
  {
    hide FactsIn, TypeRef, DeclRef, Nodes.Ref, Facts.RefIn, Facts.RefAt, SameTexts, SameStart, PsviElementLinked;
    var f2 := TypeRef(c, TypeRef(c, pre, TypeDefinition, e.typeDefinition), MemberTypeDefinition, e.memberType);
    TypesFacts(c, ids, d, pre, e);
    DeclarationFacts(c, ids, d, f2, e);
    SameTextsThrough(FactsIn(c, ids, d, pre), FactsIn(c, ids, d, f2), FactsIn(c, ids, d, PartialReferences(c, pre, e)));
  }

  /** The empty tables and properties of an element change nothing that is told of it. */
  lemma EmptyFacts(c: Memory, ids: map<Obj, string>, d: seq<Obj>, pre: Nodes, tag: Tag)
    requires IsEmptyTag(tag)
    ensures var f, g := FactsIn(c, ids, d, pre), FactsIn(c, ids, d, pre.Absent(tag));
            g == f.(texts := g.texts) && SameTexts(f, g) && SameStart(f, g) && SameReferences(f, g)
            && g.RefAt(Notation) == f.RefAt(Notation)
  {
    hide FactsIn, Nodes.Absent, SameTexts, SameStart, LastReference;
    OneNil(c, ids, d, pre, tag);
    EmptyTold(FactsIn(c, ids, d, pre), tag);
  }

  lemma ElementReferencesFacts(c: Memory, ids: map<Obj, string>, d: seq<Obj>, pre: Nodes, e: PsviElement)
    requires PsviElementLinked(c, e) && Unassessed(FactsIn(c, ids, d, pre))
    ensures OutcomeReferences(c, ids, FactsIn(c, ids, d, pre), FactsIn(c, ids, d, ElementReferences(c, pre, e)), e)
  {
    hide FactsIn, TypeRef, DeclRef, Nodes.Ref, Nodes.Absent, Facts.RefIn, Facts.RefAt, SameTexts, SameStart,
         PsviElementLinked;
    var f2 := TypeRef(c, TypeRef(c, pre, TypeDefinition, e.typeDefinition), MemberTypeDefinition, e.memberType);
    var f3 := f2.Absent(NilProperty);
    var f5 := DeclRef(f3, Tag.Declaration, ElementDeclaration, e.declaration).Ref(Notation, e.notation);
    var f6 := f5.Absent(IdIdrefTable);
    TypesFacts(c, ids, d, pre, e);
    EmptyFacts(c, ids, d, f2, NilProperty);
    DeclarationFacts(c, ids, d, f3, e);
    EmptyFacts(c, ids, d, f5, IdIdrefTable);
    EmptyFacts(c, ids, d, f6, IdentityConstraintTable);
    SameTextsThrough(FactsIn(c, ids, d, pre), FactsIn(c, ids, d, f2), FactsIn(c, ids, d, f3));
    SameTextsThrough(FactsIn(c, ids, d, pre), FactsIn(c, ids, d, f3), FactsIn(c, ids, d, f5));
    SameTextsThrough(FactsIn(c, ids, d, pre), FactsIn(c, ids, d, f5), FactsIn(c, ids, d, f6));
    SameTextsThrough(FactsIn(c, ids, d, pre), FactsIn(c, ids, d, f6), FactsIn(c, ids, d, ElementReferences(c, pre, e)));
  }

  lemma SchemaFacts(c: Memory, ids: map<Obj, string>, d: seq<Obj>, pre: Nodes, model: Option<seq<NamespaceItem>>)
    ensures var f, g := FactsIn(c, ids, d, pre), FactsIn(c, ids, d, SchemaInformationPlan(c, pre, model));
            SameStart(f, g) && (Unassessed(f) ==> Unassessed(g))
  {
    hide FactsIn, View, Now, Nodes.Group, Nodes.Absent, NamespaceItemNodes, NamespacesOf;
    if model.None? {
      OneNil(c, ids, d, pre, SchemaInformation);
    } else {
      OneGroup(c, ids, d, pre, SchemaInformation, NamespaceItemNodes(c, model.value, |model.value|));
    }
  }

  lemma TailFacts(c: Memory, ids: map<Obj, string>, d: seq<Obj>, pre: Nodes, e: PsviElement,
                  model: Option<seq<NamespaceItem>>)
    requires PsviElementLinked(c, e) && Unassessed(FactsIn(c, ids, d, pre))
    ensures SameStart(FactsIn(c, ids, d, pre), FactsIn(c, ids, d, ElementTail(c, pre, e, model)))
    ensures OutcomeOf(FactsIn(c, ids, d, ElementTail(c, pre, e, model))) == OutcomeToTell(c, ids, e)
  {
    hide FactsIn, SchemaInformationPlan, ElementOutcome, ElementReferences, PsviElementLinked, LastReference,
         NamespacesOf;
    var f1 := SchemaInformationPlan(c, pre, model);
    SchemaFacts(c, ids, d, pre, model);
    ElementOutcomeFacts(c, ids, d, f1, e);
    ElementReferencesFacts(c, ids, d, ElementOutcome(f1, e), e);
  }

  lemma PartialFacts(c: Memory, ids: map<Obj, string>, d: seq<Obj>, e: PsviElement, model: Option<seq<NamespaceItem>>)
    requires PsviElementLinked(c, e)
    ensures OutcomeOf(FactsIn(c, ids, d, PartialBody(c, e, model))) == OutcomeToTell(c, ids, e)
  {
    hide FactsIn, View, SchemaInformationPlan, PartialOutcome, PartialReferences, PsviElementLinked, LastReference,
         NamespacesOf;
    var f1 := SchemaInformationPlan(c, Start, model);
    ViewStart(c, ids, d);
    SchemaFacts(c, ids, d, Start, model);
    PartialOutcomeFacts(c, ids, d, f1, e);
    PartialReferencesFacts(c, ids, d, PartialOutcome(f1, e), e);
  }

  // -------------------------------------------------------------------------
  //  Attributes
  // -------------------------------------------------------------------------

  lemma AttributeInfoFacts(c: Memory, ids: map<Obj, string>, d: seq<Obj>, s: Names.Scope, a: AttrInfo,
                           p: Option<PsviAttribute>)
    ensures var f := FactsIn(c, ids, d, AttributeInfoBody(s, a, p));
            && f.Get(NamespaceName) == a.uri && f.Get(LocalName) == a.localName
            && f.Get(Prefix) == Names.PrefixOf(s, a.uri) && f.Get(NormalizedValue) == a.value
            && f.Get(Specified) == AttributeToTell(c, ids, s, a, p, None).specified
            && f.Get(AttributeType) == a.attrType && ValidationAttempted !in f.texts
            && f.parts == map[] && f.refs == map[] && f.comments == []
  {
    hide FactsIn, View, Nodes.Val, Nodes.Absent, Names.PrefixOf;
    var f1 := Start.Val(NamespaceName, a.uri);
    var f2 := f1.Val(LocalName, a.localName);
    var f3 := f2.Val(Prefix, Names.PrefixOf(s, a.uri));
    var f4 := f3.Val(NormalizedValue, a.value);
    var f5 := f4.Val(Specified, SpecifiedValue(p));
    var f6 := f5.Val(AttributeType, a.attrType);
    ViewStart(c, ids, d);
    OneVal(c, ids, d, Start, NamespaceName, a.uri);
    OneVal(c, ids, d, f1, LocalName, a.localName);
    OneVal(c, ids, d, f2, Prefix, Names.PrefixOf(s, a.uri));
    OneVal(c, ids, d, f3, NormalizedValue, a.value);
    OneVal(c, ids, d, f4, Specified, SpecifiedValue(p));
    OneVal(c, ids, d, f5, AttributeType, a.attrType);
    OneNil(c, ids, d, f6, References);
  }

  /** The texts of an attribute's assessment, one behind the other. */
  function WithAssessment(f: Facts, a: PsviAttribute): Facts {
    WithLastOf(f.Text(ValidationAttempted, a.validationAttempted).Text(ValidationContext, a.validationContext)
               .Text(Validity, a.validity), a)
  }

  function WithLastOf(f: Facts, a: PsviAttribute): Facts {
    f.Text(SchemaErrorCode, "").Text(SchemaNormalizedValue, a.normalizedValue)
    .Text(SchemaSpecified, SpecifiedText(a.schemaSpecified)).Text(SchemaDefault, a.schemaDefault)
  }

  predicate FirstAssessment(f: Facts, g: Facts, a: PsviAttribute) {
    && g == f.(texts := g.texts) && ValidationAttempted in g.texts && SameInfo(f, g)
    && g.Get(ValidationAttempted) == a.validationAttempted
    && g.Get(ValidationContext) == a.validationContext && g.Get(Validity) == a.validity
  }

  predicate AssessmentTexts(f: Facts, g: Facts, a: PsviAttribute) {
    && FirstAssessment(f, g, a) && g.Get(SchemaNormalizedValue) == a.normalizedValue
    && g.Get(SchemaSpecified) == (if a.schemaSpecified then "schema" else "infoset")
    && g.Get(SchemaDefault) == a.schemaDefault
  }

  lemma AssessmentFound(f: Facts, a: PsviAttribute)
    ensures AssessmentTexts(f, WithAssessment(f, a), a)
  {
    hide FirstAssessment;
    var g := f.Text(ValidationAttempted, a.validationAttempted).Text(ValidationContext, a.validationContext)
             .Text(Validity, a.validity);
    FirstAssessmentFound(f, a);
    LastAssessmentFound(f, g, a);
  }

  lemma FirstAssessmentFound(f: Facts, a: PsviAttribute)
    ensures FirstAssessment(f, f.Text(ValidationAttempted, a.validationAttempted)
                               .Text(ValidationContext, a.validationContext).Text(Validity, a.validity), a)
  {
  }

  lemma LastAssessmentFound(f: Facts, g: Facts, a: PsviAttribute)
    requires FirstAssessment(f, g, a)
    ensures AssessmentTexts(f, WithLastOf(g, a), a)
  {
  }

  lemma AttributeOutcomeFacts(c: Memory, ids: map<Obj, string>, d: seq<Obj>, pre: Nodes, a: PsviAttribute)
    ensures AssessmentTexts(FactsIn(c, ids, d, pre), FactsIn(c, ids, d, AttributeOutcome(pre, a)), a)
  {
    hide FactsIn, Nodes.Val, Nodes.Absent, Facts.Text, AssessmentTexts;
    var f1 := pre.Val(ValidationAttempted, a.validationAttempted);
    var f2 := f1.Val(ValidationContext, a.validationContext);
    var f3 := f2.Val(Validity, a.validity);
    var f4 := f3.Absent(SchemaErrorCode);
    var f5 := f4.Val(SchemaNormalizedValue, a.normalizedValue);
    var f6 := f5.Val(SchemaSpecified, SpecifiedText(a.schemaSpecified));
    OneVal(c, ids, d, pre, ValidationAttempted, a.validationAttempted);
    OneVal(c, ids, d, f1, ValidationContext, a.validationContext);
    OneVal(c, ids, d, f2, Validity, a.validity);
    OneNil(c, ids, d, f3, SchemaErrorCode);
    OneVal(c, ids, d, f4, SchemaNormalizedValue, a.normalizedValue);
    OneVal(c, ids, d, f5, SchemaSpecified, SpecifiedText(a.schemaSpecified));
    OneVal(c, ids, d, f6, SchemaDefault, a.schemaDefault);
    AssessmentFound(FactsIn(c, ids, d, pre), a);
  }

  /** The same is told of an attribute itself. */
  predicate SameInfo(f: Facts, g: Facts) {
    && g.Get(NamespaceName) == f.Get(NamespaceName) && g.Get(LocalName) == f.Get(LocalName)
    && g.Get(Prefix) == f.Get(Prefix) && g.Get(NormalizedValue) == f.Get(NormalizedValue)
    && g.Get(Specified) == f.Get(Specified) && g.Get(AttributeType) == f.Get(AttributeType)
  }

  lemma AssessedFacts(c: Memory, ids: map<Obj, string>, d: seq<Obj>, pre: Nodes, a: PsviAttribute)
    requires PsviAttributeLinked(c, a) && FactsIn(c, ids, d, pre).parts == map[]
    ensures var f, g := FactsIn(c, ids, d, pre), FactsIn(c, ids, d, AssessedPlan(c, pre, a));
            && SameInfo(f, g) && g.comments == f.comments && ValidationAttempted in g.texts
            && AssessmentOf(g) == AssessmentToTell(c, ids, a)
  {
    hide FactsIn, TypeRef, TypeHere, DeclRef, AttributeOutcome, Told, LastReference, Facts.RefIn;
    var f1 := AttributeOutcome(pre, a);
    var f2 := TypeRef(c, f1, TypeDefinition, a.typeDefinition);
    var f3 := TypeHere(f2, MemberTypeDefinition, a.memberType);
    var f4 := DeclRef(f3, Tag.Declaration, AttributeDeclaration, a.declaration);
    AttributeOutcomeFacts(c, ids, d, pre, a);
    TypeRefTold(c, ids, d, f1, TypeDefinition, a.typeDefinition);
    AttributePartTold(FactsIn(c, ids, d, f1), FactsIn(c, ids, d, f2), TypeDefinition,
                      TypeNamed(c, ids, a.typeDefinition));
    TypeHereTold(c, ids, d, f2, MemberTypeDefinition, a.memberType);
    AttributePartTold(FactsIn(c, ids, d, f2), FactsIn(c, ids, d, f3), MemberTypeDefinition,
                      TypeNamed(c, ids, a.memberType));
    DeclRefTold(c, ids, d, f3, AttributeDeclaration, a.declaration);
    AttributePartTold(FactsIn(c, ids, d, f3), FactsIn(c, ids, d, f4), Tag.Declaration,
                      DeclNamed(ids, AttributeDeclaration, a.declaration));
  }

  lemma TypeHereTold(c: Memory, ids: map<Obj, string>, d: seq<Obj>, pre: Nodes, enclose: Tag, o: Option<Obj>)
    requires TypeLink(c, o) && IsReferenceTag(enclose)
    ensures Told(FactsIn(c, ids, d, pre), FactsIn(c, ids, d, TypeHere(pre, enclose, o)), enclose, TypeNamed(c, ids, o))
  {
    hide FactsIn, View, Now, TypeHere;
    TypeHereFacts(c, ids, d, pre, enclose, o);
  }

  lemma AttributePartTold(f: Facts, g: Facts, tag: Tag, r: Reference)
    requires IsReferenceTag(tag) && tag !in f.parts && Told(f, g, tag, r)
    ensures SameInfo(f, g) && SameTexts(f, g) && g.comments == f.comments && g.RefIn(tag) == r
    ensures ValidationAttempted in f.texts ==> ValidationAttempted in g.texts
    ensures forall x :: IsReferenceTag(x) && x != tag ==>
              (x in g.parts <==> x in f.parts) && g.RefIn(x) == f.RefIn(x)
  {
    hide SameStart, SameTexts, SameInfo, Facts.RefIn;
    PartTold(f, g, tag, r);
    InfoTold(f, g, tag, r);
  }

  lemma InfoTold(f: Facts, g: Facts, tag: Tag, r: Reference)
    requires IsReferenceTag(tag) && Told(f, g, tag, r)
    ensures SameInfo(f, g) && g.comments == f.comments
    ensures ValidationAttempted in f.texts ==> ValidationAttempted in g.texts
  {
    hide LastReference, SameInfo, SameTexts, SameNames;
    if r.NoReference? {
      SameAside(f, tag);
    } else {
      SameTextMap(f, g);
    }
  }

  lemma AttributeFacts(c: Memory, ids: map<Obj, string>, d: seq<Obj>, s: Names.Scope, infos: seq<AttrInfo>,
                       list: PsviAttributes, i: nat)
    requires i < |infos| && PsviAttributesLinked(c, list)
    ensures AttributeOf(Reader.Elem(Attribute, [], View(c, ids, d, AttributeBody(c, s, infos, list, i))))
         == AttributeToTell(c, ids, s, infos[i], list.AtIndex(i), list.ByName(infos[i]))
  {
    hide FactsIn, View, AttributeInfoBody, AssessedPlan, ActualValuePlan, PsviAttributeLinked, AssessmentOf, ActualsIn,
         AssessmentToTell, ActualToTell;
    var info, p := AttributeInfoBody(s, infos[i], list.AtIndex(i)), list.ByName(infos[i]);
    NoComments();
    AttributeInfoFacts(c, ids, d, s, infos[i], list.AtIndex(i));
    FactsOfView(c, ids, d, AttributeBody(c, s, infos, list, i));
    if p.Some? {
      AssessedFacts(c, ids, d, info, p.value);
      ActualFacts(c, ids, d, AssessedPlan(c, info, p.value), p.value.actual);
      SameAssessment(FactsIn(c, ids, d, AssessedPlan(c, info, p.value)),
                     FactsIn(c, ids, d, ActualValuePlan(AssessedPlan(c, info, p.value), p.value.actual)));
      assert [] + ActualToTell(p.value.actual) == ActualToTell(p.value.actual);
    }
  }

  lemma SameAssessment(f: Facts, g: Facts)
    requires g == f.(comments := g.comments)
    ensures AssessmentOf(g) == AssessmentOf(f)
  {
  }

  lemma NoComments()
    ensures ActualsIn([]) == [] && PartialsIn([]) == []
  {
  }

  lemma {:induction false} AttributeListFacts(c: Memory, ids: map<Obj, string>, d: seq<Obj>, s: Names.Scope,
                                              infos: seq<AttrInfo>, list: PsviAttributes, n: nat)
    requires n <= |infos| && PsviAttributesLinked(c, list)
    ensures AttributesOf(View(c, ids, d, AttributeNodes(c, s, infos, list, n)))
         == AttributesToTell(c, ids, s, infos, list, n)
    decreases n
  {
    hide View, AttributeNodes, AttributesOf, AttributesToTell, PsviAttributesLinked;
    if n == 0 {
      ViewStart(c, ids, d);
      NothingDecoded();
      NoAttributes(c, ids, s, infos, list);
    } else {
      AttributeListFacts(c, ids, d, s, infos, list, n - 1);
      LastAttribute(c, ids, d, s, infos, list, n);
    }
  }

  lemma LastAttribute(c: Memory, ids: map<Obj, string>, d: seq<Obj>, s: Names.Scope, infos: seq<AttrInfo>,
                      list: PsviAttributes, n: nat)
    requires 0 < n <= |infos| && PsviAttributesLinked(c, list)
    requires AttributesOf(View(c, ids, d, AttributeNodes(c, s, infos, list, n - 1)))
          == AttributesToTell(c, ids, s, infos, list, n - 1)
    ensures AttributesOf(View(c, ids, d, AttributeNodes(c, s, infos, list, n)))
         == AttributesToTell(c, ids, s, infos, list, n)
  {
    hide View, Now, AttributeNodes, AttributeBody, AttributesOf, AttributeOf, AttributesToTell, AttributeToTell,
         PsviAttributesLinked, Nodes.Group;
    var front, body := AttributeNodes(c, s, infos, list, n - 1), AttributeBody(c, s, infos, list, n - 1);
    var d1 := Now(c, d, front);
    LastAttributeNode(c, s, infos, list, n);
    GroupItem(c, ids, d, front, Attribute, body);
    OneAttribute(View(c, ids, d, front), Reader.Elem(Attribute, [], View(c, ids, d1, body)));
    AttributeFacts(c, ids, d1, s, infos, list, n - 1);
    NextAttribute(c, ids, s, infos, list, n);
  }

  lemma LastAttributeNode(c: Memory, s: Names.Scope, infos: seq<AttrInfo>, list: PsviAttributes, n: nat)
    requires 0 < n <= |infos|
    ensures AttributeNodes(c, s, infos, list, n)
         == AttributeNodes(c, s, infos, list, n - 1).Group(Attribute, AttributeBody(c, s, infos, list, n - 1))
  {
    hide AttributeBody, Nodes.Group;
  }

  lemma OneAttribute(items: Items, item: Item)
    ensures AttributesOf(Reader.Items.More(items, item)) == AttributesOf(items) + [AttributeOf(item)]
    ensures NamespacesOf(Reader.Items.More(items, item)) == NamespacesOf(items) + [NamespaceOf(item)]
  {
    hide AttributeOf, NamespaceOf;
  }

  lemma NoAttributes(c: Memory, ids: map<Obj, string>, s: Names.Scope, infos: seq<AttrInfo>, list: PsviAttributes)
    ensures AttributesToTell(c, ids, s, infos, list, 0) == [] && AttributeNodes(c, s, infos, list, 0) == Start
  {
  }

  lemma NextAttribute(c: Memory, ids: map<Obj, string>, s: Names.Scope, infos: seq<AttrInfo>, list: PsviAttributes,
                      n: nat)
    requires 0 < n <= |infos|
    ensures AttributesToTell(c, ids, s, infos, list, n)
         == AttributesToTell(c, ids, s, infos, list, n - 1)
            + [AttributeToTell(c, ids, s, infos[n - 1], list.AtIndex(n - 1), list.ByName(infos[n - 1]))]
  {
    hide AttributeToTell;
  }

  // -------------------------------------------------------------------------
  //  Namespaces
  // -------------------------------------------------------------------------

  lemma OneNamespace(c: Memory, ids: map<Obj, string>, d: seq<Obj>, prefix: string, uri: string)
    ensures NamespaceOf(Reader.Elem(Namespace, [],
                                    View(c, ids, d, Start.Val(Prefix, prefix).Val(NamespaceName, uri))))
         == (prefix, uri)
  {
    hide FactsIn, View, Nodes.Val;
    ViewStart(c, ids, d);
    OneVal(c, ids, d, Start, Prefix, prefix);
    OneVal(c, ids, d, Start.Val(Prefix, prefix), NamespaceName, uri);
    FactsOfView(c, ids, d, Start.Val(Prefix, prefix).Val(NamespaceName, uri));
  }

  lemma {:induction false} NamespacesFacts(c: Memory, ids: map<Obj, string>, d: seq<Obj>, s: Names.Scope, n: nat)
    requires n <= |s.uris|
    ensures NamespacesOf(View(c, ids, d, NamespaceNodes(s, n))) == NamespacesToTell(s, n)
    decreases n
  {
    hide View, Now, NamespacesOf, NamespaceOf, Names.PrefixOf, Nodes.Val;
    if n == 0 {
      var body := Start.Val(Prefix, "xml").Val(NamespaceName, XML_URI);
      ViewStart(c, ids, d);
      NothingDecoded();
      GroupItem(c, ids, d, Start, Namespace, body);
      OneNamespace(c, ids, Now(c, d, Start), "xml", XML_URI);
      OneAttribute(View(c, ids, d, Start), Reader.Elem(Namespace, [], View(c, ids, Now(c, d, Start), body)));
    } else {
      var front, prefix := NamespaceNodes(s, n - 1), Names.PrefixOf(s, s.uris[n - 1]);
      var body := Start.Val(Prefix, prefix).Val(NamespaceName, s.uris[n - 1]);
      NamespacesFacts(c, ids, d, s, n - 1);
      GroupItem(c, ids, d, front, Namespace, body);
      OneNamespace(c, ids, Now(c, d, front), prefix, s.uris[n - 1]);
      OneAttribute(View(c, ids, d, front), Reader.Elem(Namespace, [], View(c, ids, Now(c, d, front), body)));
      NextNamespace(s, n);
    }
  }

  lemma NextNamespace(s: Names.Scope, n: nat)
    requires 0 < n <= |s.uris|
    ensures NamespacesToTell(s, n) == NamespacesToTell(s, n - 1) + [(Names.PrefixOf(s, s.uris[n - 1]), s.uris[n - 1])]
  {
    hide Names.PrefixOf;
  }

  // -------------------------------------------------------------------------
  //  The start of an element
  // -------------------------------------------------------------------------

  /** The facts of an element's start, one behind the other. */
  function StartFacts(uri: string, localName: string, prefix: string, attributes: Option<Items>, notes: Option<Items>,
                      namespaces: Items, baseUri: string): Facts {
    var named := NO_FACTS.Text(NamespaceName, uri).Text(LocalName, localName).Text(Prefix, prefix);
    var listed := if attributes.None? then named else named.Part(Attributes, attributes.value);
    var noted := if notes.None? then listed else listed.Part(NamespaceAttributes, notes.value);
    noted.Part(InScopeNamespaces, namespaces).Text(BaseURI, baseUri)
  }

  lemma StartFound(uri: string, localName: string, prefix: string, attributes: Option<Items>, notes: Option<Items>,
                   namespaces: Items, baseUri: string)
    ensures var f := StartFacts(uri, localName, prefix, attributes, notes, namespaces, baseUri);
            && NameOf(f) == NameReport(uri, localName, prefix, baseUri, NamespacesOf(namespaces))
            && f.Sub(Attributes) == (if attributes.None? then NO_ITEMS else attributes.value)
            && f.comments == [] && Unassessed(f) && Children !in f.parts
  {
    hide NamespacesOf;
  }

  lemma AttributesPlanFacts(c: Memory, ids: map<Obj, string>, d: seq<Obj>, s: Names.Scope, pre: Nodes,
                            infos: seq<AttrInfo>, list: PsviAttributes)
    requires PsviAttributesLinked(c, list)
    ensures infos == [] ==> FactsIn(c, ids, d, AttributesPlan(c, s, pre, infos, list)) == FactsIn(c, ids, d, pre)
    ensures infos != [] ==>
              var v := View(c, ids, Now(c, d, pre.Marked([])), AttributeNodes(c, s, infos, list, |infos|));
              && FactsIn(c, ids, d, AttributesPlan(c, s, pre, infos, list))
                 == FactsIn(c, ids, d, pre).Part(Attributes, v)
              && AttributesOf(v) == AttributesToTell(c, ids, s, infos, list, |infos|)
  {
    hide FactsIn, View, Now, AttributeNodes, AttributesOf, AttributesToTell, PsviAttributesLinked;
    MarkFacts(c, ids, d, pre);
    if infos == [] {
      OneBare(c, ids, d, pre.Marked([]), Attributes);
    } else {
      OneGroup(c, ids, d, pre.Marked([]), Attributes, AttributeNodes(c, s, infos, list, |infos|));
      AttributeListFacts(c, ids, Now(c, d, pre.Marked([])), s, infos, list, |infos|);
    }
  }

  lemma MarkFacts(c: Memory, ids: map<Obj, string>, d: seq<Obj>, pre: Nodes)
    ensures FactsIn(c, ids, d, pre.Marked([])) == FactsIn(c, ids, d, pre)
  {
    hide View;
    OneMark(c, ids, d, pre, []);
  }

  lemma HeadFacts(c: Memory, ids: map<Obj, string>, d: seq<Obj>, s: Names.Scope, baseUri: string, localName: string,
                  uri: string, infos: seq<AttrInfo>, list: PsviAttributes, notes: seq<nat>)
    requires AllFindable(infos, list, notes) && PsviAttributesLinked(c, list)
    ensures var f := FactsIn(c, ids, d, ElementHead(c, s, baseUri, localName, uri, infos, list, notes));
            && NameOf(f) == NameReport(uri, localName, Names.PrefixOf(s, uri), baseUri, NamespacesToTell(s, |s.uris|))
            && AttributesOf(f.Sub(Attributes)) == AttributesToTell(c, ids, s, infos, list, |infos|)
            && f.comments == [] && Unassessed(f) && Children !in f.parts
  {
    hide FactsIn, View, Now, AttributesPlan, NoteNodes, AllFindable, Findable, NamespaceNodes, NamespacesOf,
         AttributesOf, AttributesToTell, NamespacesToTell, NameOf, Unassessed, Facts.Sub, PsviAttributesLinked,
         Names.PrefixOf, Nodes.Val, Nodes.Group, Nodes.Blank, Facts.Text, Facts.Part, ElementName;
    var named := ElementName(s, localName, uri);
    var listed := AttributesPlan(c, s, named, infos, list);
    var noted := NotesPlan(listed, infos, list, notes);
    var spaced := noted.Group(InScopeNamespaces, NamespaceNodes(s, |s.uris|));
    NameFacts(c, ids, d, s, localName, uri);
    AttributesPlanFacts(c, ids, d, s, named, infos, list);
    var b := NotesPlanFacts(c, ids, d, listed, infos, list, notes);
    OneGroup(c, ids, d, noted, InScopeNamespaces, NamespaceNodes(s, |s.uris|));
    NamespacesFacts(c, ids, Now(c, d, noted), s, |s.uris|);
    OneVal(c, ids, d, spaced, BaseURI, baseUri);
    var a := if infos == [] then None
             else Some(View(c, ids, Now(c, d, named.Marked([])), AttributeNodes(c, s, infos, list, |infos|)));
    StartFound(uri, localName, Names.PrefixOf(s, uri), a, b,
               View(c, ids, Now(c, d, noted), NamespaceNodes(s, |s.uris|)), baseUri);
    NothingDecoded();
    NoAttributes(c, ids, s, infos, list);
  }

  lemma NotesPlanFacts(c: Memory, ids: map<Obj, string>, d: seq<Obj>, pre: Nodes, infos: seq<AttrInfo>,
                       list: PsviAttributes, notes: seq<nat>)
    returns (v: Option<Items>)
    requires AllFindable(infos, list, notes)
    ensures FactsIn(c, ids, d, NotesPlan(pre, infos, list, notes))
         == if v.None? then FactsIn(c, ids, d, pre) else FactsIn(c, ids, d, pre).Part(NamespaceAttributes, v.value)
  {
    hide FactsIn, View, Now, NoteNodes;
    if notes == [] {
      OneBare(c, ids, d, pre, NamespaceAttributes);
      v := None;
    } else {
      OneGroup(c, ids, d, pre, NamespaceAttributes, NoteNodes(infos, list, notes, |notes|));
      v := Some(View(c, ids, Now(c, d, pre), NoteNodes(infos, list, notes, |notes|)));
    }
  }

  lemma NameFacts(c: Memory, ids: map<Obj, string>, d: seq<Obj>, s: Names.Scope, localName: string, uri: string)
    ensures FactsIn(c, ids, d, ElementName(s, localName, uri))
         == NO_FACTS.Text(NamespaceName, uri).Text(LocalName, localName).Text(Prefix, Names.PrefixOf(s, uri))
  {
    hide FactsIn, View, Nodes.Val, Names.PrefixOf, Facts.Text;
    var f1 := Start.Val(NamespaceName, uri);
    ViewStart(c, ids, d);
    OneVal(c, ids, d, Start, NamespaceName, uri);
    OneVal(c, ids, d, f1, LocalName, localName);
    OneVal(c, ids, d, f1.Val(LocalName, localName), Prefix, Names.PrefixOf(s, uri));
  }

  /** Only comments came. */
  lemma OnlyComments(f: Facts, g: Facts)
    requires g == f.(comments := g.comments)
    ensures NameOf(g) == NameOf(f) && g.Sub(Attributes) == f.Sub(Attributes) && g.Sub(Children) == f.Sub(Children)
    ensures Unassessed(f) <==> Unassessed(g)
    ensures OutcomeOf(g) == OutcomeOf(f)
  {
    hide NamespacesOf, LastReference;
  }

  predicate StartTold(c: Memory, ids: map<Obj, string>, env: Env, e: ElementEvents, f: Facts) {
    && NameOf(f) == NameToTell(env, e)
    && AttributesOf(f.Sub(Attributes)) == AttributesToTell(c, ids, env.scope, e.attrs, e.assessed, |e.attrs|)
    && Unassessed(f) && Children !in f.parts
  }

  /** What an element's start tells, with what is known of the element before its content. */
  lemma ElementStartFacts(c: Memory, ids: map<Obj, string>, d: seq<Obj>, env: Env, e: ElementEvents)
    requires Starts(c, d, env, e) && ContentOk(c, Nested(e))
    ensures var f := FactsIn(c, ids, d, ElementStart(c, d, env, e));
            && StartTold(c, ids, env, e, f) && ActualsIn(f.comments) == []
            && PartialsIn(f.comments) == (if e.partial.None? then [] else [OutcomeToTell(c, ids, e.partial.value)])
  {
    hide FactsIn, HeadOf, Starts, PartialPlan, StartTold, PsviAttributesLinked, PsviElementLinked, OutcomeToTell,
         ActualsIn, PartialsIn;
    HeadTold(c, ids, d, env, e);
    NoComments();
    if e.partial.Some? {
      var head := HeadOf(c, d, env, e);
      PartialTold(c, ids, d, head, e.partial.value);
      StillTold(c, ids, env, e, FactsIn(c, ids, d, head),
                FactsIn(c, ids, d, PartialPlan(c, head, e.partial.value, None)));
    }
  }

  lemma StillTold(c: Memory, ids: map<Obj, string>, env: Env, e: ElementEvents, f: Facts, g: Facts)
    requires StartTold(c, ids, env, e, f) && g == f.(comments := g.comments)
    ensures StartTold(c, ids, env, e, g)
  {
    hide NameOf, Facts.Sub, AttributesOf, AttributesToTell, NameToTell, Unassessed;
    OnlyComments(f, g);
  }

  lemma HeadTold(c: Memory, ids: map<Obj, string>, d: seq<Obj>, env: Env, e: ElementEvents)
    requires Starts(c, d, env, e) && PsviAttributesLinked(c, e.assessed)
    ensures var f := FactsIn(c, ids, d, HeadOf(c, d, env, e)); StartTold(c, ids, env, e, f) && f.comments == []
  {
    hide FactsIn, ElementHead, NamespacesOf, AttributesOf, AttributesToTell, NamespacesToTell, NameOf, Unassessed,
         PsviAttributesLinked, Noted, AllFindable, Names.PrefixOf;
    HeadFacts(c, ids, d, env.scope, env.baseUri, e.localName, e.uri, e.attrs, e.assessed, Noted(c, d, env, e));
  }

  lemma PartialTold(c: Memory, ids: map<Obj, string>, d: seq<Obj>, pre: Nodes, p: PsviElement)
    requires PsviElementLinked(c, p) && FactsIn(c, ids, d, pre).comments == []
    ensures var f, g := FactsIn(c, ids, d, pre), FactsIn(c, ids, d, PartialPlan(c, pre, p, None));
            && g == f.(comments := g.comments) && PartialsIn(g.comments) == [OutcomeToTell(c, ids, p)]
            && ActualsIn(g.comments) == []
  {
    hide FactsIn, View, Now, PartialBody, PsviElementLinked, OutcomeToTell, OutcomeOf, ActualsIn, PartialsIn;
    var d1, body := Now(c, d, pre), Start.Group(PartialElementPSVI, PartialBody(c, p, None));
    OneRemark(c, ids, d, pre, body);
    OneGroup(c, ids, d1, Start, PartialElementPSVI, PartialBody(c, p, None));
    ViewStart(c, ids, d1);
    PartialFacts(c, ids, Now(c, d1, Start), p, None);
    NoComments();
    OneComment([], View(c, ids, d1, body));
    assert [] + [View(c, ids, d1, body)] == [View(c, ids, d1, body)];
    FactsOfView(c, ids, d1, body);
    FactsOfView(c, ids, Now(c, d1, Start), PartialBody(c, p, None));
  }

  // -------------------------------------------------------------------------
  //  Elements
  // -------------------------------------------------------------------------

  /** The children of an element, behind its start. */
  function LevelNodes(known: Nodes, inner: Nodes, v: PsviEvents.ActualValue, any: bool): Nodes {
    if any then known.Group(Children, ActualValuePlan(inner, v)) else ActualValuePlan(known, v).Blank(Children)
  }

  lemma LevelFacts(c: Memory, ids: map<Obj, string>, d: seq<Obj>, env: Env, e: ElementEvents, known: Nodes,
                   inner: Nodes)
    requires var f := FactsIn(c, ids, d, known); StartTold(c, ids, env, e, f) && ActualsIn(f.comments) == []
    requires var any := AnyVisible(e.content, |e.content|);
             (!any ==> inner == Start) && FactsIn(c, ids, Now(c, d, known), inner).comments == []
    ensures var f := FactsIn(c, ids, d, known);
            var g := FactsIn(c, ids, d, LevelNodes(known, inner, e.close.actual, AnyVisible(e.content, |e.content|)));
            && NameOf(g) == NameOf(f) && g.Sub(Attributes) == f.Sub(Attributes) && Unassessed(g)
            && PartialsIn(g.comments) == PartialsIn(f.comments)
            && DecodeAll(g.Sub(Children)) == DecodeAll(View(c, ids, Now(c, d, known), inner))
            && ActualsIn(g.comments) + ActualsIn(FactsOf(g.Sub(Children)).comments) == ActualToTell(e.close.actual)
  {
    hide FactsIn, View, Now, NameOf, AttributesOf, AttributesToTell, NameToTell, ActualValuePlan, ActualsIn, PartialsIn,
         AnyVisible, ActualToTell, DecodeAll, FactsOf;
    var f, v, d1 := FactsIn(c, ids, d, known), e.close.actual, Now(c, d, known);
    NoComments();
    NothingDecoded();
    NoFacts();
    if AnyVisible(e.content, |e.content|) {
      OneGroup(c, ids, d, known, Children, ActualValuePlan(inner, v));
      ActualFacts(c, ids, d1, inner, v);
      FactsOfView(c, ids, d1, ActualValuePlan(inner, v));
      ChildrenOnly(f, View(c, ids, d1, ActualValuePlan(inner, v)));
      assert [] + ActualToTell(v) == ActualToTell(v);
    } else {
      ActualFacts(c, ids, d, known, v);
      OneBare(c, ids, d, ActualValuePlan(known, v), Children);
      OnlyComments(f, FactsIn(c, ids, d, ActualValuePlan(known, v)));
      ViewStart(c, ids, d1);
      assert [] + ActualToTell(v) + [] == ActualToTell(v);
    }
  }

  lemma NoFacts()
    ensures FactsOf(NO_ITEMS) == NO_FACTS
  {
  }

  lemma ChildrenOnly(f: Facts, items: Items)
    ensures var g := f.Part(Children, items);
            && NameOf(g) == NameOf(f) && g.Sub(Attributes) == f.Sub(Attributes) && g.Sub(Children) == items
            && (Unassessed(f) ==> Unassessed(g)) && g.comments == f.comments
  {
    hide NamespacesOf;
  }

  /** The item of an element tells what there is to tell of it, if its content does. */
  lemma ElementDecoded(c: Memory, ids: map<Obj, string>, root: bool, d: seq<Obj>, env: Env, e: ElementEvents,
                       inner: Nodes)
    requires Starts(c, d, env, e) && ContentOk(c, Nested(e))
    requires !AnyVisible(e.content, |e.content|) ==> inner == Start
    requires var within := InsideDefined(c, d, env, e);
             FactsIn(c, ids, within, inner).comments == []
             && DecodeAll(View(c, ids, within, inner)) == AllToTell(c, ids, env, e.content, |e.content|)
    ensures Decode(Reader.Elem(Element, [], View(c, ids, d, ElementNodes(c, root, d, env, e, inner))))
         == ElementToTell(c, ids, env, e)
  {
    hide FactsIn, View, Now, Starts, ElementStart, ElementTail, LevelNodes, NameOf, NameToTell, AttributesOf,
         AttributesToTell, ActualsIn, PartialsIn, AnyVisible, ActualToTell, DecodeAll, AllToTell, FactsOf,
         PsviElementLinked, PsviAttributesLinked, OutcomeOf, OutcomeToTell, DecodeChildren, Facts.Sub, Unassessed;
    var known, any := ElementStart(c, d, env, e), AnyVisible(e.content, |e.content|);
    var level := LevelNodes(known, inner, e.close.actual, any);
    var model := if root then e.close.model else None;
    LevelIs(c, root, d, env, e, inner);
    ElementStartFacts(c, ids, d, env, e);
    LevelFacts(c, ids, d, env, e, known, inner);
    TailFacts(c, ids, d, level, e.close, model);
    FactsOfView(c, ids, d, ElementTail(c, level, e.close, model));
    ChildrenDecoded(View(c, ids, d, ElementTail(c, level, e.close, model)));
  }

  lemma LevelIs(c: Memory, root: bool, d: seq<Obj>, env: Env, e: ElementEvents, inner: Nodes)
    ensures ElementNodes(c, root, d, env, e, inner)
         == ElementTail(c, LevelNodes(ElementStart(c, d, env, e), inner, e.close.actual,
                                      AnyVisible(e.content, |e.content|)),
                        e.close, if root then e.close.model else None)
  {
    hide ElementTail, ActualValuePlan, AnyVisible, ElementStart;
  }

  // -------------------------------------------------------------------------
  //  Content
  // -------------------------------------------------------------------------

  /** One more child. */
  lemma OneChild(c: Memory, ids: map<Obj, string>, d: seq<Obj>, f: Nodes, tag: Tag, children: Nodes)
    ensures DecodeAll(View(c, ids, d, f.Group(tag, children)))
         == DecodeAll(View(c, ids, d, f)) + [Decode(Reader.Elem(tag, [], View(c, ids, Now(c, d, f), children)))]
    ensures FactsIn(c, ids, d, f.Group(tag, children)).comments == FactsIn(c, ids, d, f).comments
  {
    hide FactsIn, View, Now, Decode;
    GroupItem(c, ids, d, f, tag, children);
    OneGroup(c, ids, d, f, tag, children);
  }

  lemma TextDecoded(c: Memory, ids: map<Obj, string>, d: seq<Obj>, text: string)
    ensures Decode(Reader.Elem(Character, [], View(c, ids, d, Start.Val(TextContent, text)))) == TextReport(text)
    ensures Decode(Reader.Elem(CommentItem, [], View(c, ids, d, Start.Val(Tag.Content, text)))) == CommentReport(text)
  {
    hide FactsIn, View, Nodes.Val;
    OneVal(c, ids, d, Start, TextContent, text);
    OneVal(c, ids, d, Start, Tag.Content, text);
    FactsOfView(c, ids, d, Start.Val(TextContent, text));
    FactsOfView(c, ids, d, Start.Val(Tag.Content, text));
  }

  lemma InstructionDecoded(c: Memory, ids: map<Obj, string>, d: seq<Obj>, target: string, data: string)
    ensures Decode(Reader.Elem(ProcessingInstruction, [],
                               View(c, ids, d, Start.Val(Target, target).Val(Tag.Content, data))))
         == InstructionReport(target, data)
  {
    hide FactsIn, View, Nodes.Val;
    OneVal(c, ids, d, Start, Target, target);
    OneVal(c, ids, d, Start.Val(Target, target), Tag.Content, data);
    FactsOfView(c, ids, d, Start.Val(Target, target).Val(Tag.Content, data));
  }

  lemma {:induction false} ContentDecoded(c: Memory, ids: map<Obj, string>, root: bool, d: seq<Obj>, s: Shown,
                                          x: Content)
    requires ContentRuns(c, root, d, s, x) && ContentOk(c, x)
    ensures var r := ShowContent(c, root, d, s, x);
            && DecodeAll(View(c, ids, d, r.nodes)) == DecodeAll(View(c, ids, d, s.nodes)) + ToTell(c, ids, s.env, x)
            && FactsIn(c, ids, d, r.nodes).comments == FactsIn(c, ids, d, s.nodes).comments
            && r.env == EnvAfter(s.env, x)
    decreases x, 1
  {
    hide FactsIn, View, DecodeAll, Decode;
    var before, d1 := DecodeAll(View(c, ids, d, s.nodes)), Now(c, d, s.nodes);
    assert before + [] == before;
    match x
    case Chars(text) =>
      OneChild(c, ids, d, s.nodes, Character, Start.Val(TextContent, text));
      TextDecoded(c, ids, d1, text);
    case CommentText(text) =>
      OneChild(c, ids, d, s.nodes, CommentItem, Start.Val(Tag.Content, text));
      TextDecoded(c, ids, d1, text);
    case Instruction(target, data) =>
      OneChild(c, ids, d, s.nodes, ProcessingInstruction, Start.Val(Target, target).Val(Tag.Content, data));
      InstructionDecoded(c, ids, d1, target, data);
    case Nested(e) => NestedDecoded(c, ids, root, d, s, e);
    case _ =>
  }

  lemma {:induction false} NestedDecoded(c: Memory, ids: map<Obj, string>, root: bool, d: seq<Obj>, s: Shown,
                                         e: ElementEvents)
    requires ContentRuns(c, root, d, s, Nested(e)) && ContentOk(c, Nested(e))
    ensures var r := ShowContent(c, root, d, s, Nested(e));
            && DecodeAll(View(c, ids, d, r.nodes))
               == DecodeAll(View(c, ids, d, s.nodes)) + [ElementToTell(c, ids, Entered(s.env, e), e)]
            && FactsIn(c, ids, d, r.nodes).comments == FactsIn(c, ids, d, s.nodes).comments
            && r.env == EnvAfter(s.env, Nested(e))
    decreases e, 0
  {
    hide FactsIn, View, Now, DecodeAll, Decode, ElementNodes, ShowAll, Starts, InsideDefined, AllRun, AllToTell,
         AnyVisible, ElementToTell, Entered, EndAll, PsviElementLinked, PsviAttributesLinked;
    var before, env := Now(c, d, s.nodes), Entered(s.env, e);
    var within := InsideDefined(c, before, env, e);
    var inner := ShowInside(c, before, env, e);
    assert ElementRuns(c, before, env, e);
    assert InsideRuns(c, before, env, e);
    ContentListDecoded(c, ids, false, within, env, e.content, |e.content|);
    if !AnyVisible(e.content, |e.content|) {
      NothingShown(c, false, within, Shown(Start, env), e.content, |e.content|);
    }
    ElementDecoded(c, ids, root, before, env, e, inner.nodes);
    OneChild(c, ids, d, s.nodes, Element, ElementNodes(c, root, before, env, e, inner.nodes));
  }

  /** All content is told, in order. */
  lemma {:induction false} ContentListDecoded(c: Memory, ids: map<Obj, string>, root: bool, d: seq<Obj>, env: Env,
                                              content: seq<Content>, n: nat)
    requires n <= |content| && AllRun(c, root, d, Shown(Start, env), content, n)
    requires forall i :: 0 <= i < |content| ==> ContentOk(c, content[i])
    ensures var r := ShowAll(c, root, d, Shown(Start, env), content, n);
            && DecodeAll(View(c, ids, d, r.nodes)) == AllToTell(c, ids, env, content, n)
            && FactsIn(c, ids, d, r.nodes).comments == [] && r.env == EnvAfterAll(env, content, n)
    decreases content, n
  {
    hide FactsIn, View, DecodeAll, ShowContent, ContentRuns, ContentOk, ToTell, EnvAfter;
    if n == 0 {
      ViewStart(c, ids, d);
      NothingDecoded();
    } else {
      ContentListDecoded(c, ids, root, d, env, content, n - 1);
      ContentDecoded(c, ids, root, d, ShowAll(c, root, d, Shown(Start, env), content, n - 1), content[n - 1]);
    }
  }

  // -------------------------------------------------------------------------
  //  Documents
  // -------------------------------------------------------------------------

  lemma DocumentStartFacts(c: Memory, ids: map<Obj, string>, d: DocumentEvents)
    ensures var f, r := FactsIn(c, ids, [], DocumentStart(d)), DocumentToTell(c, ids, d);
            && f.Find(CharacterEncodingScheme) == r.encoding && f.Find(Standalone) == r.standalone
            && f.Find(Version) == r.version && f.parts == map[]
  {
    hide FactsIn, View, Nodes.Val, EnvAfterAll, AllToTell;
    ViewStart(c, ids, []);
    if d.declaration.Some? {
      var x := d.declaration.value;
      var f1 := Start.Val(CharacterEncodingScheme, if x.encoding != "" then x.encoding else x.autoEncoding);
      OneVal(c, ids, [], Start, CharacterEncodingScheme, if x.encoding != "" then x.encoding else x.autoEncoding);
      OneVal(c, ids, [], f1, Standalone, x.standalone);
      OneVal(c, ids, [], f1.Val(Standalone, x.standalone), Version, x.version);
    }
  }

  /** The last properties of a document. */
  function DocumentTail(pre: Nodes, baseUri: string): Nodes {
    pre.Absent(DocumentElement).Blank(Notations).Blank(UnparsedEntities)
    .Val(BaseURI, baseUri).Val(AllDeclarationsProcessed, "true")
  }

  lemma DocumentTailFacts(c: Memory, ids: map<Obj, string>, pre: Nodes, baseUri: string)
    ensures var f, g := FactsIn(c, ids, [], pre), FactsIn(c, ids, [], DocumentTail(pre, baseUri));
            && g.Find(CharacterEncodingScheme) == f.Find(CharacterEncodingScheme)
            && g.Find(Standalone) == f.Find(Standalone) && g.Find(Version) == f.Find(Version)
            && g.Get(BaseURI) == baseUri && g.Get(AllDeclarationsProcessed) == "true" && g.parts == f.parts
  {
    hide FactsIn, Nodes.Val, Nodes.Absent, Nodes.Blank;
    var f1 := pre.Absent(DocumentElement);
    var f2 := f1.Blank(Notations);
    var f3 := f2.Blank(UnparsedEntities);
    OneNil(c, ids, [], pre, DocumentElement);
    OneBare(c, ids, [], f1, Notations);
    OneBare(c, ids, [], f2, UnparsedEntities);
    OneVal(c, ids, [], f3, BaseURI, baseUri);
    OneVal(c, ids, [], f3.Val(BaseURI, baseUri), AllDeclarationsProcessed, "true");
  }

  lemma DocumentDecoded(c: Memory, ids: map<Obj, string>, d: DocumentEvents)
    requires DocumentOk(c, d) && DocumentRuns(c, d)
    ensures DecodeDocument(View(c, ids, [], DocumentNodes(c, d).last.children)) == DocumentToTell(c, ids, d)
  {
    hide FactsIn, View, Now, DecodeAll, ShowAll, AllRun, AllToTell, EnvAfterAll, AnyVisible, ContentOk, DocumentStart,
         DecodeChildren, DocumentTail, Nodes.Group, Nodes.Blank, FactsOf;
    var d1, any := Now(c, [], DocumentStart(d)), AnyVisible(d.content, |d.content|);
    var inner := DocumentContent(c, d);
    var level := if any then DocumentStart(d).Group(Children, inner.nodes) else DocumentStart(d).Blank(Children);
    DocumentIs(c, d);
    ContentListDecoded(c, ids, true, d1, EmptyEnv(), d.content, |d.content|);
    DocumentStartFacts(c, ids, d);
    NothingDecoded();
    if any {
      OneGroup(c, ids, [], DocumentStart(d), Children, inner.nodes);
    } else {
      NothingShown(c, true, d1, Shown(Start, EmptyEnv()), d.content, |d.content|);
      OneBare(c, ids, [], DocumentStart(d), Children);
      ViewStart(c, ids, d1);
    }
    DocumentTailFacts(c, ids, level, inner.env.baseUri);
    FactsOfView(c, ids, [], DocumentTail(level, inner.env.baseUri));
    ChildrenDecoded(View(c, ids, [], DocumentTail(level, inner.env.baseUri)));
  }

  lemma DocumentIs(c: Memory, d: DocumentEvents)
    ensures var inner, any := DocumentContent(c, d), AnyVisible(d.content, |d.content|);
            var level := if any then DocumentStart(d).Group(Children, inner.nodes)
                else DocumentStart(d).Blank(Children);
            DocumentNodes(c, d) == More(Start, Branch(Document, Root, DocumentTail(level, inner.env.baseUri)))
  {
    hide DocumentContent, AnyVisible, DocumentStart;
  }

  /**
   * Reading back a document: the lines for every document that is shown to the end read as one document element, and
   * what this element tells, by the names of its children, is the document that the parser reported.
   */
  lemma DocumentReadBack(c: Memory, ids: map<Obj, string>, d: DocumentEvents)
    requires DocumentOk(c, d) && DocumentRuns(c, d)
    ensures var lines := Render(0, ids, Expand(c, [], DocumentNodes(c, d)));
            var read := Reader.ReadAll(Reader.Outermost(NO_ITEMS), lines);
            && read.Some? && read.value.Outermost? && |Kids(read.value.done)| == 1
            && var root := Kids(read.value.done)[0];
               && root.Elem? && root.tag == Document && DecodeDocument(root.children) == DocumentToTell(c, ids, d)
               && root.attrs == [Attr(XmlnsXsi, "http://www.w3.org/2001/XMLSchema-instance"),
                                 Attr(XmlnsPsv, "http://apache.org/xml/2001/PSVInfosetExtension"),
                                 Attr(Xmlns, "http://www.w3.org/2001/05/XMLInfoset")]
  {
    hide Reader.ReadAll, Render, RootAttrs, Expand, View, DecodeDocument, DocumentToTell, DocumentRuns, DocumentOk,
         DocumentTail, Reader.ShownAll, CommentsFlat;
    var f := DocumentNodes(c, d);
    DocumentIs(c, d);
    DocumentFlat(c, d);
    ExpandFlat(c, [], f);
    Reader.ReadRender(Reader.Outermost(NO_ITEMS), ids, Expand(c, [], f));
    DocumentShown(c, ids, f.last.children);
    ViewIs(c, ids, f.last.children);
    DocumentDecoded(c, ids, d);
    RootDeclares();
  }

  lemma RootDeclares()
    ensures RootAttrs() == [Attr(XmlnsXsi, "http://www.w3.org/2001/XMLSchema-instance"),
                            Attr(XmlnsPsv, "http://apache.org/xml/2001/PSVInfosetExtension"),
                            Attr(Xmlns, "http://www.w3.org/2001/05/XMLInfoset")]
  {
  }

  lemma ViewIs(c: Memory, ids: map<Obj, string>, f: Nodes)
    ensures Reader.ShownAll(ids, NO_ITEMS, Expand(c, [], f)) == View(c, ids, [], f)
  {
  }
}
