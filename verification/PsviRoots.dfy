/**
 * The components a document shows in place by itself, read off its events alone: the member types that validated its
 * attributes, and what the components of its schema models use.
 */
module PsviRoots {
  import opened Options
  import opened PsviOutput
  import opened PsviComponents
  import opened PsviPlans
  import opened PsviUses
  import opened PsviExpansion
  import opened PsviEvents
  import opened PsviDocument
  import opened PsviSchema
  import Names = PsviNamespaces

  /** The type is the member type that validated one of the first n attributes. */
  predicate MemberOf(infos: seq<AttrInfo>, list: PsviAttributes, n: nat, o: Obj)
    requires n <= |infos|
  {
    exists i :: 0 <= i < n && MemberAt(infos[i], list, o)
  }

  predicate MemberAt(a: AttrInfo, list: PsviAttributes, o: Obj) {
    (a.localName, a.uri) in list.byName && list.byName[(a.localName, a.uri)].memberType == Some(o)
  }

  /** An attribute somewhere in the content was validated by this member type. */
  predicate MemberIn(x: Content, o: Obj) {
    x.Nested? &&
    var e := x.element;
    MemberOf(e.attrs, e.assessed, |e.attrs|, o) || exists i :: 0 <= i < |e.content| && MemberIn(e.content[i], o)
  }

  /** One of the components uses this local one. */
  predicate UsedByOne(c: Memory, list: seq<Obj>, o: Obj) { exists i :: 0 <= i < |list| && UsedBy(c, list[i], o) }

  predicate IsRoot(c: Memory, d: DocumentEvents, o: Obj) {
    IsLocal(c, o) && ((exists i :: 0 <= i < |d.content| && MemberIn(d.content[i], o))
                      || UsedByOne(c, DocumentListed(d), o))
  }

  function DocumentRoots(c: Memory, d: DocumentEvents): set<Obj> { set o | o in c && IsRoot(c, d, o) }

  // -------------------------------------------------------------------------
  //  Attributes
  // -------------------------------------------------------------------------

  lemma TypeRefUses(c: Memory, f: Nodes, enclose: Tag, o: Option<Obj>)
    ensures LocalUses(c, TypeRef(c, f, enclose, o)) == LocalUses(c, f)
  {
    hide LocalUses, Nodes.Group, Nodes.Absent, Nodes.Ref;
    if o.None? {
      ValUses(c, f, enclose, "");
    } else {
      GroupUses(c, f, enclose, Start.Ref(TagOf(c, o.value), o));
      RefUses(c, Start, TagOf(c, o.value), o);
    }
  }

  lemma ActualUses(c: Memory, f: Nodes, v: ActualValue)
    ensures LocalUses(c, ActualValuePlan(f, v)) == LocalUses(c, f)
  {
    hide LocalUses, ActualValueBody;
    if !v.NoValue? {
      ValueBodyUses(c, v);
      GroupUses(c, Start, Tag.ActualValue, ActualValueBody(v));
      RemarkUses(c, f, Start.Group(Tag.ActualValue, ActualValueBody(v)));
    }
  }

  lemma RemarkUses(c: Memory, f: Nodes, children: Nodes)
    ensures LocalUses(c, f.Noted(children)) == LocalUses(c, f) + LocalUses(c, children)
  {
  }

  lemma ValueBodyUses(c: Memory, v: ActualValue)
    ensures LocalUses(c, ActualValueBody(v)) == {}
  {
    hide LocalUses;
    GroupUses(c, Start, DataType, Start);
    if v.ShownValue? {
      LineUses(c, Start, Node.Text(DataType, v.dataType));
      LineUses(c, Start.Written(DataType, v.dataType), Node.Text(DataValue, v.dataValue));
    }
  }

  lemma OutcomeUses(c: Memory, f: Nodes, a: PsviAttribute)
    ensures LocalUses(c, AttributeOutcome(f, a)) == LocalUses(c, f)
  {
    hide LocalUses, Nodes.Val, Nodes.Absent;
    var f1 := f.Val(ValidationAttempted, a.validationAttempted);
    var f2 := f1.Val(ValidationContext, a.validationContext);
    var f3 := f2.Val(Validity, a.validity);
    var f4 := f3.Absent(SchemaErrorCode);
    var f5 := f4.Val(SchemaNormalizedValue, a.normalizedValue);
    var f6 := f5.Val(SchemaSpecified, SpecifiedText(a.schemaSpecified));
    ValUses(c, f, ValidationAttempted, a.validationAttempted);
    ValUses(c, f1, ValidationContext, a.validationContext);
    ValUses(c, f2, Validity, a.validity);
    ValUses(c, f3, SchemaErrorCode, "");
    ValUses(c, f4, SchemaNormalizedValue, a.normalizedValue);
    ValUses(c, f5, SchemaSpecified, SpecifiedText(a.schemaSpecified));
    ValUses(c, f6, SchemaDefault, a.schemaDefault);
  }

  lemma AssessedUses(c: Memory, f: Nodes, a: PsviAttribute)
    ensures LocalUses(c, AssessedPlan(c, f, a)) == LocalUses(c, f) + Only(c, a.memberType)
  {
    hide LocalUses, AttributeOutcome, TypeRef, TypeHere, DeclRef;
    var f1 := AttributeOutcome(f, a);
    var f2 := TypeRef(c, f1, TypeDefinition, a.typeDefinition);
    var f3 := TypeHere(f2, MemberTypeDefinition, a.memberType);
    OutcomeUses(c, f, a);
    TypeRefUses(c, f1, TypeDefinition, a.typeDefinition);
    TypeHereUses(c, f2, MemberTypeDefinition, a.memberType);
    DeclRefUses(c, f3, Tag.Declaration, AttributeDeclaration, a.declaration);
  }

  lemma InfoUses(c: Memory, s: Names.Scope, a: AttrInfo, p: Option<PsviAttribute>)
    ensures LocalUses(c, AttributeInfoBody(s, a, p)) == {}
  {
    hide NoComponents, Nodes.Val, Names.PrefixOf;
    var f1 := Start.Val(NamespaceName, a.uri);
    var f2 := f1.Val(LocalName, a.localName);
    var f3 := f2.Val(Prefix, Names.PrefixOf(s, a.uri));
    var f4 := f3.Val(NormalizedValue, a.value);
    var f5 := f4.Val(Specified, SpecifiedValue(p));
    NothingNone();
    ValNone(Start, NamespaceName, a.uri);
    ValNone(f1, LocalName, a.localName);
    ValNone(f2, Prefix, Names.PrefixOf(s, a.uri));
    ValNone(f3, NormalizedValue, a.value);
    ValNone(f4, Specified, SpecifiedValue(p));
    ValNone(f5, AttributeType, a.attrType);
    NilNone(f5.Val(AttributeType, a.attrType));
    NoneUsed(c, AttributeInfoBody(s, a, p));
  }

  lemma AttributeUses(c: Memory, s: Names.Scope, infos: seq<AttrInfo>, list: PsviAttributes, i: nat, o: Obj)
    requires i < |infos|
    ensures o in LocalUses(c, AttributeBody(c, s, infos, list, i)) <==> IsLocal(c, o) && MemberAt(infos[i], list, o)
  {
    hide LocalUses, AttributeInfoBody, AssessedPlan, ActualValuePlan;
    var body, p := AttributeInfoBody(s, infos[i], list.AtIndex(i)), list.ByName(infos[i]);
    InfoUses(c, s, infos[i], list.AtIndex(i));
    if p.Some? {
      AssessedUses(c, body, p.value);
      ActualUses(c, AssessedPlan(c, body, p.value), p.value.actual);
    }
  }

  lemma NextAttributeUses(c: Memory, s: Names.Scope, infos: seq<AttrInfo>, list: PsviAttributes, n: nat, o: Obj)
    requires 0 < n <= |infos|
    ensures o in LocalUses(c, AttributeNodes(c, s, infos, list, n)) <==>
              || o in LocalUses(c, AttributeNodes(c, s, infos, list, n - 1))
              || (IsLocal(c, o) && MemberAt(infos[n - 1], list, o))
  {
    hide LocalUses, AttributeBody, MemberAt, Nodes.Group;
    AttributeUses(c, s, infos, list, n - 1, o);
    GroupUses(c, AttributeNodes(c, s, infos, list, n - 1), Attribute, AttributeBody(c, s, infos, list, n - 1));
  }

  lemma NextMember(infos: seq<AttrInfo>, list: PsviAttributes, n: nat, o: Obj)
    requires 0 < n <= |infos|
    ensures MemberOf(infos, list, n, o) <==> MemberOf(infos, list, n - 1, o) || MemberAt(infos[n - 1], list, o)
  {
    hide MemberAt;
  }

  lemma {:induction false} AttributeNodesUse(c: Memory, s: Names.Scope, infos: seq<AttrInfo>, list: PsviAttributes,
                                             n: nat, o: Obj)
    requires n <= |infos|
    ensures o in LocalUses(c, AttributeNodes(c, s, infos, list, n)) <==> IsLocal(c, o) && MemberOf(infos, list, n, o)
    decreases n
  {
    hide LocalUses, AttributeBody, MemberOf, Nodes.Group;
    if n == 0 {
      NoAttributesUse(c, infos, list, o);
    } else {
      AttributeNodesUse(c, s, infos, list, n - 1, o);
      NextAttributeUses(c, s, infos, list, n, o);
      NextMember(infos, list, n, o);
    }
  }

  lemma NoAttributesUse(c: Memory, infos: seq<AttrInfo>, list: PsviAttributes, o: Obj)
    ensures o !in LocalUses(c, Start) && !MemberOf(infos, list, 0, o)
  {
  }

  lemma AttributesUse(c: Memory, s: Names.Scope, f: Nodes, infos: seq<AttrInfo>, list: PsviAttributes, o: Obj)
    requires LocalUses(c, f) == {}
    ensures o in LocalUses(c, AttributesPlan(c, s, f, infos, list))
            <==> IsLocal(c, o) && MemberOf(infos, list, |infos|, o)
  {
    hide LocalUses, AttributeNodes, MemberAt, Nodes.Group;
    LineUses(c, f, Mark([]));
    LineUses(c, f.Marked([]), Bare(Attributes));
    AttributeNodesUse(c, s, infos, list, |infos|, o);
    GroupUses(c, f.Marked([]), Attributes, AttributeNodes(c, s, infos, list, |infos|));
  }

  // -------------------------------------------------------------------------
  //  The start of an element
  // -------------------------------------------------------------------------

  lemma NoteUses(c: Memory, infos: seq<AttrInfo>, list: PsviAttributes, i: nat)
    requires Findable(infos, list, i)
    ensures LocalUses(c, NoteBody(infos, list, i)) == {}
  {
    hide NoComponents, Nodes.Val;
    var a, text := infos[i], BoolText(list.ByName(infos[i]).value.schemaSpecified);
    var f1 := Start.Val(NamespaceName, XMLNS_URI);
    var f2 := f1.Val(LocalName, a.localName);
    var f3 := f2.Val(Prefix, "xmlns");
    var f4 := f3.Val(NormalizedValue, a.value);
    var f5 := f4.Val(Specified, text);
    NothingNone();
    ValNone(Start, NamespaceName, XMLNS_URI);
    ValNone(f1, LocalName, a.localName);
    ValNone(f2, Prefix, "xmlns");
    ValNone(f3, NormalizedValue, a.value);
    ValNone(f4, Specified, text);
    ValNone(f5, AttributeType, a.attrType);
    NilNone(f5.Val(AttributeType, a.attrType));
    NoneUsed(c, NoteBody(infos, list, i));
  }

  lemma {:induction false} NoteNodesUse(c: Memory, infos: seq<AttrInfo>, list: PsviAttributes, notes: seq<nat>, n: nat)
    requires n <= |notes| && forall k :: 0 <= k < n ==> Findable(infos, list, notes[k])
    ensures LocalUses(c, NoteNodes(infos, list, notes, n)) == {}
    decreases n
  {
    hide LocalUses, NoteBody, Nodes.Group;
    GroupUses(c, Start, Attribute, Start);
    if n > 0 {
      NoteNodesUse(c, infos, list, notes, n - 1);
      NoteUses(c, infos, list, notes[n - 1]);
      GroupUses(c, NoteNodes(infos, list, notes, n - 1), Attribute, NoteBody(infos, list, notes[n - 1]));
    }
  }

  lemma NotesUse(c: Memory, f: Nodes, infos: seq<AttrInfo>, list: PsviAttributes, notes: seq<nat>)
    requires AllFindable(infos, list, notes)
    ensures LocalUses(c, NotesPlan(f, infos, list, notes)) == LocalUses(c, f)
  {
    hide LocalUses, NoteNodes, Nodes.Group;
    LineUses(c, f, Bare(NamespaceAttributes));
    NoteNodesUse(c, infos, list, notes, |notes|);
    GroupUses(c, f, NamespaceAttributes, NoteNodes(infos, list, notes, |notes|));
  }

  lemma {:induction false} NamespacesUse(c: Memory, s: Names.Scope, n: nat)
    requires n <= |s.uris|
    ensures LocalUses(c, NamespaceNodes(s, n)) == {}
    decreases n
  {
    hide LocalUses, Nodes.Group, Nodes.Val, Names.PrefixOf, Plainly, Joined;
    GroupUses(c, Start, Namespace, Start);
    if n == 0 {
      OneNamespaceUses(c, Start, "xml", XML_URI);
    } else {
      NamespacesUse(c, s, n - 1);
      OneNamespaceUses(c, NamespaceNodes(s, n - 1), Names.PrefixOf(s, s.uris[n - 1]), s.uris[n - 1]);
    }
  }

  lemma OneNamespaceUses(c: Memory, f: Nodes, prefix: string, uri: string)
    ensures LocalUses(c, f.Group(Namespace, Start.Val(Prefix, prefix).Val(NamespaceName, uri))) == LocalUses(c, f)
  {
    hide LocalUses, Nodes.Val;
    ValUses(c, Start, Prefix, prefix);
    ValUses(c, Start.Val(Prefix, prefix), NamespaceName, uri);
    GroupUses(c, f, Namespace, Start.Val(Prefix, prefix).Val(NamespaceName, uri));
  }

  lemma HeadUses(c: Memory, d: seq<Obj>, env: Env, e: ElementEvents, o: Obj)
    requires Starts(c, d, env, e)
    ensures o in LocalUses(c, HeadOf(c, d, env, e)) <==> IsLocal(c, o) && MemberOf(e.attrs, e.assessed, |e.attrs|, o)
  {
    hide LocalUses, AttributesPlan, NotesPlan, NamespaceNodes, Nodes.Val, Nodes.Group, MemberOf, Names.PrefixOf,
         NotesLeft;
    var s := env.scope;
    var name := ElementName(s, e.localName, e.uri);
    var attributed := AttributesPlan(c, s, name, e.attrs, e.assessed);
    var noted := NotesPlan(attributed, e.attrs, e.assessed, Noted(c, d, env, e));
    ValUses(c, Start, NamespaceName, e.uri);
    ValUses(c, Start.Val(NamespaceName, e.uri), LocalName, e.localName);
    ValUses(c, Start.Val(NamespaceName, e.uri).Val(LocalName, e.localName), Prefix, Names.PrefixOf(s, e.uri));
    GroupUses(c, noted, InScopeNamespaces, NamespaceNodes(s, |s.uris|));
    AttributesUse(c, s, name, e.attrs, e.assessed, o);
    NotesUse(c, attributed, e.attrs, e.assessed, Noted(c, d, env, e));
    NamespacesUse(c, s, |s.uris|);
    ValUses(c, noted.Group(InScopeNamespaces, NamespaceNodes(s, |s.uris|)), BaseURI, env.baseUri);
  }

  lemma ReferencesUse(c: Memory, f: Nodes, e: PsviElement)
    ensures LocalUses(c, PartialReferences(c, f, e)) == LocalUses(c, f)
    ensures LocalUses(c, ElementReferences(c, f, e)) == LocalUses(c, f)
  {
    hide LocalUses, TypeRef, DeclRef, Nodes.Ref, Nodes.Absent;
    var f1 := TypeRef(c, f, TypeDefinition, e.typeDefinition);
    var f2 := TypeRef(c, f1, MemberTypeDefinition, e.memberType);
    var f3 := f2.Absent(NilProperty);
    TypeRefUses(c, f, TypeDefinition, e.typeDefinition);
    TypeRefUses(c, f1, MemberTypeDefinition, e.memberType);
    ValUses(c, f2, NilProperty, "");
    DeclRefUses(c, f2, Tag.Declaration, ElementDeclaration, e.declaration);
    DeclRefUses(c, f3, Tag.Declaration, ElementDeclaration, e.declaration);
    RefUses(c, DeclRef(f2, Tag.Declaration, ElementDeclaration, e.declaration), Notation, e.notation);
    var f4 := DeclRef(f3, Tag.Declaration, ElementDeclaration, e.declaration).Ref(Notation, e.notation);
    RefUses(c, DeclRef(f3, Tag.Declaration, ElementDeclaration, e.declaration), Notation, e.notation);
    ValUses(c, f4, IdIdrefTable, "");
    ValUses(c, f4.Absent(IdIdrefTable), IdentityConstraintTable, "");
  }

  lemma FirstOutcomeUses(c: Memory, f: Nodes, e: PsviElement)
    ensures LocalUses(c, f.Val(ValidationAttempted, e.validationAttempted).Val(ValidationContext, e.validationContext)
                          .Val(Validity, e.validity)) == LocalUses(c, f)
  {
    hide LocalUses, Nodes.Val;
    ValUses(c, f, ValidationAttempted, e.validationAttempted);
    ValUses(c, f.Val(ValidationAttempted, e.validationAttempted), ValidationContext, e.validationContext);
    ValUses(c, f.Val(ValidationAttempted, e.validationAttempted).Val(ValidationContext, e.validationContext),
            Validity, e.validity);
  }

  lemma LastOutcomeUses(c: Memory, f: Nodes, e: PsviElement)
    ensures LocalUses(c, f.Val(SchemaNormalizedValue, e.normalizedValue).Val(CanonicalRepresentation, e.canonical)
                          .Val(SchemaSpecified, SpecifiedText(e.schemaSpecified)).Val(SchemaDefault, e.schemaDefault))
         == LocalUses(c, f)
  {
    hide LocalUses, Nodes.Val;
    var f1 := f.Val(SchemaNormalizedValue, e.normalizedValue);
    var f2 := f1.Val(CanonicalRepresentation, e.canonical);
    ValUses(c, f, SchemaNormalizedValue, e.normalizedValue);
    ValUses(c, f1, CanonicalRepresentation, e.canonical);
    ValUses(c, f2, SchemaSpecified, SpecifiedText(e.schemaSpecified));
    ValUses(c, f2.Val(SchemaSpecified, SpecifiedText(e.schemaSpecified)), SchemaDefault, e.schemaDefault);
  }

  lemma ElementOutcomeUses(c: Memory, f: Nodes, e: PsviElement)
    ensures LocalUses(c, ElementOutcome(f, e)) == LocalUses(c, PartialOutcome(f, e)) == LocalUses(c, f)
  {
    hide LocalUses, Nodes.Val, Nodes.Absent;
    var f1 := f.Val(ValidationAttempted, e.validationAttempted).Val(ValidationContext, e.validationContext)
              .Val(Validity, e.validity);
    FirstOutcomeUses(c, f, e);
    LastOutcomeUses(c, f1, e);
    ValUses(c, f1, SchemaErrorCode, "");
    LastOutcomeUses(c, f1.Absent(SchemaErrorCode), e);
  }

  lemma PartialUses(c: Memory, f: Nodes, e: PsviElement)
    ensures LocalUses(c, PartialPlan(c, f, e, None)) == LocalUses(c, f)
  {
    hide LocalUses, PartialReferences, PartialOutcome;
    GroupUses(c, Start, PartialElementPSVI, PartialBody(c, e, None));
    ValUses(c, Start, SchemaInformation, "");
    ElementOutcomeUses(c, Start.Absent(SchemaInformation), e);
    ReferencesUse(c, PartialOutcome(Start.Absent(SchemaInformation), e), e);
    RemarkUses(c, f, Start.Group(PartialElementPSVI, PartialBody(c, e, None)));
  }

  lemma StartUses(c: Memory, d: seq<Obj>, env: Env, e: ElementEvents, o: Obj)
    requires Starts(c, d, env, e)
    ensures o in LocalUses(c, ElementStart(c, d, env, e))
            <==> IsLocal(c, o) && MemberOf(e.attrs, e.assessed, |e.attrs|, o)
  {
    hide LocalUses, HeadOf, PartialPlan, Starts, MemberOf;
    HeadUses(c, d, env, e, o);
    if e.partial.Some? {
      PartialUses(c, HeadOf(c, d, env, e), e.partial.value);
    }
  }

  // -------------------------------------------------------------------------
  //  Schema models
  // -------------------------------------------------------------------------

  lemma {:induction false} DefinitionsUse(c: Memory, f: Nodes, list: seq<Obj>, n: nat, o: Obj)
    requires n <= |list|
    ensures o in LocalUses(c, DefinitionNodes(c, f, list, n)) <==> o in LocalUses(c, f) || UsedByOne(c, list[..n], o)
    decreases n
  {
    hide LocalUses, Contents, UsedBy, Nodes.Defined, TagOf;
    if n > 0 {
      DefinitionsUse(c, f, list, n - 1, o);
      DefinedUses(c, DefinitionNodes(c, f, list, n - 1), TagOf(c, list[n - 1]), list[n - 1], Contents(c, list[n - 1]));
      ContentsUse(c, list[n - 1], o);
      OneMoreUses(c, list, n, o);
    }
  }

  lemma OneMoreUses(c: Memory, list: seq<Obj>, n: nat, o: Obj)
    requires 0 < n <= |list|
    ensures UsedByOne(c, list[..n], o) <==> UsedByOne(c, list[..n - 1], o) || UsedBy(c, list[n - 1], o)
  {
    hide UsedBy;
    assert list[..n] == list[..n - 1] + [list[n - 1]];
    BothUse(c, list[..n - 1], [list[n - 1]], o);
    assert UsedBy(c, [list[n - 1]][0], o) <==> UsedBy(c, list[n - 1], o);
  }

  lemma BothUse(c: Memory, a: seq<Obj>, b: seq<Obj>, o: Obj)
    ensures UsedByOne(c, a + b, o) <==> UsedByOne(c, a, o) || UsedByOne(c, b, o)
  {
    hide UsedBy;
    var s := a + b;
    if UsedByOne(c, a, o) {
      var i :| 0 <= i < |a| && UsedBy(c, a[i], o);
      assert s[i] == a[i];
    }
    if UsedByOne(c, b, o) {
      var i :| 0 <= i < |b| && UsedBy(c, b[i], o);
      assert s[|a| + i] == b[i];
    }
  }

  lemma AllDefinitionsUse(c: Memory, f: Nodes, list: seq<Obj>, o: Obj)
    ensures o in LocalUses(c, AllDefinitions(c, f, list)) <==> o in LocalUses(c, f) || UsedByOne(c, list, o)
  {
    hide LocalUses, DefinitionNodes, UsedByOne;
    DefinitionsUse(c, f, list, |list|, o);
    assert list[..|list|] == list;
  }

  lemma DeclarationsUse(c: Memory, item: NamespaceItem, o: Obj)
    ensures o in LocalUses(c, DeclarationsBody(c, item)) <==>
              UsedByOne(c, item.types + item.attributes + item.elements, o)
  {
    hide LocalUses, AllDefinitions, UsedByOne;
    var typed := AllDefinitions(c, Start, item.types);
    GroupUses(c, Start, SchemaComponents, Start);
    AllDefinitionsUse(c, Start, item.types, o);
    AllDefinitionsUse(c, typed, item.attributes, o);
    AllDefinitionsUse(c, AllDefinitions(c, typed, item.attributes), item.elements, o);
    BothUse(c, item.types, item.attributes, o);
    BothUse(c, item.types + item.attributes, item.elements, o);
  }

  lemma ComponentsUse(c: Memory, item: NamespaceItem, o: Obj)
    ensures o in LocalUses(c, ComponentsBody(c, item)) <==> UsedByOne(c, ItemListed(item), o)
  {
    hide LocalUses, AllDefinitions, UsedByOne, DeclarationsBody;
    var declared := DeclarationsBody(c, item);
    var first := AllDefinitions(c, declared, item.attributeGroups);
    var list := item.types + item.attributes + item.elements;
    DeclarationsUse(c, item, o);
    AllDefinitionsUse(c, declared, item.attributeGroups, o);
    AllDefinitionsUse(c, first, item.modelGroups, o);
    AllDefinitionsUse(c, AllDefinitions(c, first, item.modelGroups), item.notations, o);
    BothUse(c, list, item.attributeGroups, o);
    BothUse(c, list + item.attributeGroups, item.modelGroups, o);
    BothUse(c, list + item.attributeGroups + item.modelGroups, item.notations, o);
  }

  lemma {:induction false} LocationsUse(c: Memory, locations: seq<string>, n: nat)
    requires n <= |locations|
    ensures LocalUses(c, LocationNodes(locations, n)) == {}
    decreases n
  {
    hide LocalUses, Nodes.Group, Nodes.Val, Nodes.Absent;
    GroupUses(c, Start, SchemaDocument, Start);
    if n > 0 {
      var body := Start.Val(DocumentLocation, locations[n - 1]);
      LocationsUse(c, locations, n - 1);
      ValUses(c, Start, DocumentLocation, locations[n - 1]);
      ValUses(c, body, PsvDocument, "");
      GroupUses(c, LocationNodes(locations, n - 1), SchemaDocument, body.Absent(PsvDocument));
    }
  }

  lemma ItemUses(c: Memory, item: NamespaceItem, o: Obj)
    ensures o in LocalUses(c, NamespaceItemBody(c, item)) <==> UsedByOne(c, ItemListed(item), o)
  {
    hide LocalUses, ComponentsBody, LocationNodes, AnnotationNodes, Nodes.Group, Nodes.Val, Nodes.Absent, UsedByOne,
         ItemListed;
    var f1 := Start.Val(SchemaNamespace, item.namespace);
    var f2 := f1.Group(SchemaComponents, ComponentsBody(c, item));
    var f3 := f2.Group(SchemaDocuments, LocationNodes(item.locations, |item.locations|));
    GroupUses(c, Start, SchemaDocument, Start);
    ValUses(c, Start, SchemaNamespace, item.namespace);
    GroupUses(c, f1, SchemaComponents, ComponentsBody(c, item));
    ComponentsUse(c, item, o);
    GroupUses(c, f2, SchemaDocuments, LocationNodes(item.locations, |item.locations|));
    LocationsUse(c, item.locations, |item.locations|);
    ValUses(c, f3, SchemaAnnotations, "");
    if item.annotations.Some? {
      AnnotationListUses(c, item.annotations.value, |item.annotations.value|);
      GroupUses(c, f3, SchemaAnnotations, AnnotationNodes(item.annotations.value, |item.annotations.value|));
    }
  }

  lemma NothingUsed(c: Memory, o: Obj)
    ensures o !in LocalUses(c, Start) && !UsedByOne(c, [], o)
  {
  }

  lemma {:induction false} ItemsUse(c: Memory, items: seq<NamespaceItem>, n: nat, o: Obj)
    requires n <= |items|
    ensures o in LocalUses(c, NamespaceItemNodes(c, items, n)) <==> UsedByOne(c, Listed(items, n), o)
    decreases n
  {
    hide LocalUses, NamespaceItemBody, ItemListed, Nodes.Group, UsedByOne;
    NothingUsed(c, o);
    if n > 0 {
      ItemsUse(c, items, n - 1, o);
      ItemUses(c, items[n - 1], o);
      GroupUses(c, NamespaceItemNodes(c, items, n - 1), NamespaceSchemaInformation, NamespaceItemBody(c, items[n - 1]));
      BothUse(c, Listed(items, n - 1), ItemListed(items[n - 1]), o);
      assert Listed(items, n - 1) + [] == Listed(items, n - 1);
    }
  }

  lemma ModelUses(c: Memory, f: Nodes, model: Option<seq<NamespaceItem>>, o: Obj)
    ensures o in LocalUses(c, SchemaInformationPlan(c, f, model)) <==>
              o in LocalUses(c, f) || UsedByOne(c, Listed(ItemsOf(model), |ItemsOf(model)|), o)
  {
    hide LocalUses, NamespaceItemNodes, Nodes.Group, Nodes.Absent;
    ValUses(c, f, SchemaInformation, "");
    if model.Some? {
      ItemsUse(c, model.value, |model.value|, o);
      GroupUses(c, f, SchemaInformation, NamespaceItemNodes(c, model.value, |model.value|));
    }
  }

  // -------------------------------------------------------------------------
  //  Elements and documents
  // -------------------------------------------------------------------------

  lemma TailUses(c: Memory, f: Nodes, e: PsviElement, model: Option<seq<NamespaceItem>>, o: Obj)
    ensures o in LocalUses(c, ElementTail(c, f, e, model)) <==>
              o in LocalUses(c, f) || UsedByOne(c, Listed(ItemsOf(model), |ItemsOf(model)|), o)
  {
    hide LocalUses, SchemaInformationPlan, ElementOutcome, ElementReferences, UsedByOne, Listed, ItemsOf;
    var f1 := SchemaInformationPlan(c, f, model);
    ModelUses(c, f, model, o);
    ElementOutcomeUses(c, f1, e);
    ReferencesUse(c, ElementOutcome(f1, e), e);
  }

  lemma ElementNodesUse(c: Memory, root: bool, d: seq<Obj>, env: Env, e: ElementEvents, inner: Nodes, o: Obj)
    requires Starts(c, d, env, e) && (!AnyVisible(e.content, |e.content|) ==> inner == Start)
    ensures var items := ModelItems(root, Nested(e));
            o in LocalUses(c, ElementNodes(c, root, d, env, e, inner)) <==>
              (IsLocal(c, o) && MemberOf(e.attrs, e.assessed, |e.attrs|, o)) || o in LocalUses(c, inner)
              || UsedByOne(c, Listed(items, |items|), o)
  {
    hide LocalUses, ElementStart, ElementTail, ActualValuePlan, Starts, MemberOf, UsedByOne, Listed, AnyVisible,
         Nodes.Group, Nodes.Blank;
    var known := ElementStart(c, d, env, e);
    var level := if AnyVisible(e.content, |e.content|)
                 then known.Group(Children, ActualValuePlan(inner, e.close.actual))
                 else ActualValuePlan(known, e.close.actual).Blank(Children);
    StartUses(c, d, env, e, o);
    ActualUses(c, inner, e.close.actual);
    ActualUses(c, known, e.close.actual);
    GroupUses(c, known, Children, ActualValuePlan(inner, e.close.actual));
    BlankUses(c, ActualValuePlan(known, e.close.actual));
    TailUses(c, level, e.close, if root then e.close.model else None, o);
  }

  lemma BlankUses(c: Memory, f: Nodes)
    ensures LocalUses(c, f.Blank(Children)) == LocalUses(c, f)
  {
    hide LocalUses;
    LineUses(c, f, Bare(Children));
  }

  lemma {:induction false} ContentUses(c: Memory, root: bool, d: seq<Obj>, s: Shown, x: Content, o: Obj)
    requires ContentRuns(c, root, d, s, x)
    ensures var items := ModelItems(root, x);
            o in LocalUses(c, ShowContent(c, root, d, s, x).nodes) <==>
              o in LocalUses(c, s.nodes) || (IsLocal(c, o) && MemberIn(x, o)) || UsedByOne(c, Listed(items, |items|), o)
    decreases x
  {
    hide LocalUses, UsedBy, Nodes.Val, Nodes.Group, ElementNodes, Now, Starts, InsideDefined, MemberOf, AllRun, ShowAll,
         AnyVisible, StartAll, EndAll;
    match x
    case Chars(text) =>
      ValUses(c, Start, TextContent, text);
      GroupUses(c, s.nodes, Character, Start.Val(TextContent, text));
    case CommentText(text) =>
      ValUses(c, Start, Tag.Content, text);
      GroupUses(c, s.nodes, CommentItem, Start.Val(Tag.Content, text));
    case Instruction(target, data) =>
      ValUses(c, Start, Target, target);
      ValUses(c, Start.Val(Target, target), Tag.Content, data);
      GroupUses(c, s.nodes, ProcessingInstruction, Start.Val(Target, target).Val(Tag.Content, data));
    case Nested(e) => NestedUses(c, root, d, s, e, o);
    case _ =>
  }

  lemma {:induction false} NestedUses(c: Memory, root: bool, d: seq<Obj>, s: Shown, e: ElementEvents, o: Obj)
    requires ContentRuns(c, root, d, s, Nested(e))
    ensures var items := ModelItems(root, Nested(e));
            o in LocalUses(c, ShowContent(c, root, d, s, Nested(e)).nodes) <==>
              o in LocalUses(c, s.nodes) || (IsLocal(c, o) && MemberIn(Nested(e), o))
                  || UsedByOne(c, Listed(items, |items|), o)
    decreases e
  {
    hide LocalUses, UsedByOne, Nodes.Group, ElementNodes, Now, Starts, InsideDefined, MemberOf, AllRun, ShowAll,
         AnyVisible, StartAll, EndAll, Listed, MemberIn;
    var before, env := Now(c, d, s.nodes), Entered(s.env, e);
    var within, inner := InsideDefined(c, before, env, e), ShowInside(c, before, env, e);
    assert ElementRuns(c, before, env, e) && InsideRuns(c, before, env, e);
    AllUse(c, within, Shown(Start, env), e.content, |e.content|, o);
    GroupUses(c, Start, Element, Start);
    if !AnyVisible(e.content, |e.content|) {
      NothingShown(c, false, within, Shown(Start, env), e.content, |e.content|);
    }
    ElementNodesUse(c, root, before, env, e, inner.nodes, o);
    GroupUses(c, s.nodes, Element, ElementNodes(c, root, before, env, e, inner.nodes));
    MemberInside(e, o);
  }

  lemma MemberInside(e: ElementEvents, o: Obj)
    ensures MemberIn(Nested(e), o) <==>
              || MemberOf(e.attrs, e.assessed, |e.attrs|, o)
              || exists i :: 0 <= i < |e.content| && MemberIn(e.content[i], o)
  {
  }

  /** Content below the root shows no schema model. */
  lemma {:induction false} AllUse(c: Memory, d: seq<Obj>, s: Shown, content: seq<Content>, n: nat, o: Obj)
    requires n <= |content| && AllRun(c, false, d, s, content, n)
    ensures o in LocalUses(c, ShowAll(c, false, d, s, content, n).nodes) <==>
              o in LocalUses(c, s.nodes) || (IsLocal(c, o) && exists i :: 0 <= i < n && MemberIn(content[i], o))
    decreases content, n
  {
    hide LocalUses, ShowContent, ContentRuns, MemberIn, UsedBy, IsLocal;
    if n > 0 {
      AllUse(c, d, s, content, n - 1, o);
      ContentUses(c, false, d, ShowAll(c, false, d, s, content, n - 1), content[n - 1], o);
    }
  }

  /** In use by the content in front, by the next piece, or by the models. */
  lemma NextRoot(c: Memory, d: seq<Obj>, s: Shown, content: seq<Content>, n: nat, o: Obj)
    requires 0 < n <= |content| && ContentRuns(c, true, d, ShowAll(c, true, d, s, content, n - 1), content[n - 1])
    ensures var more := ModelItems(true, content[n - 1]);
            o in LocalUses(c, ShowAll(c, true, d, s, content, n).nodes) <==>
              || o in LocalUses(c, ShowAll(c, true, d, s, content, n - 1).nodes)
              || (IsLocal(c, o) && MemberIn(content[n - 1], o)) || UsedByOne(c, Listed(more, |more|), o)
  {
    hide LocalUses, ShowContent, ContentRuns, MemberIn, UsedByOne, IsLocal, ModelItems, Listed;
    ContentUses(c, true, d, ShowAll(c, true, d, s, content, n - 1), content[n - 1], o);
  }

  lemma ListedNext(c: Memory, content: seq<Content>, n: nat, o: Obj)
    requires 0 < n <= |content|
    ensures var items, before, more := RootItems(content, n), RootItems(content, n - 1),
            ModelItems(true, content[n - 1]);
            UsedByOne(c, Listed(items, |items|), o) <==>
              UsedByOne(c, Listed(before, |before|), o) || UsedByOne(c, Listed(more, |more|), o)
  {
    hide UsedByOne, Listed, ModelItems;
    var before, more := RootItems(content, n - 1), ModelItems(true, content[n - 1]);
    ListedAppend(before, more, |more|);
    BothUse(c, Listed(before, |before|), Listed(more, |more|), o);
  }

  lemma {:induction false} RootsUse(c: Memory, d: seq<Obj>, s: Shown, content: seq<Content>, n: nat, o: Obj)
    requires n <= |content| && AllRun(c, true, d, s, content, n)
    ensures var items := RootItems(content, n);
            o in LocalUses(c, ShowAll(c, true, d, s, content, n).nodes) <==>
              || o in LocalUses(c, s.nodes) || (IsLocal(c, o) && exists i :: 0 <= i < n && MemberIn(content[i], o))
              || UsedByOne(c, Listed(items, |items|), o)
    decreases content, n
  {
    hide LocalUses, ShowContent, ContentRuns, MemberIn, UsedByOne, IsLocal, ModelItems, RootItems, Listed;
    if n == 0 {
      NoRoots(c, content, o);
    } else {
      RootsUse(c, d, s, content, n - 1, o);
      NextRoot(c, d, s, content, n, o);
      ListedNext(c, content, n, o);
    }
  }

  lemma NoRoots(c: Memory, content: seq<Content>, o: Obj)
    ensures var items := RootItems(content, 0); !UsedByOne(c, Listed(items, |items|), o)
  {
  }

  /** The local components in place in the tree of a document are its roots, and no others. */
  lemma DocumentUse(c: Memory, d: DocumentEvents)
    requires DocumentRuns(c, d)
    ensures LocalUses(c, DocumentNodes(c, d)) == DocumentRoots(c, d)
  {
    hide LocalUses, ShowAll, AllRun, AnyVisible, UsedByOne, Listed, RootItems, MemberIn, DocumentStart, Now,
         Nodes.Group;
    forall o ensures o in LocalUses(c, DocumentNodes(c, d)) <==> o in DocumentRoots(c, d) {
      OneDocumentUse(c, d, o);
    }
  }

  lemma UsedIsLocal(c: Memory, list: seq<Obj>, o: Obj)
    ensures UsedByOne(c, list, o) ==> IsLocal(c, o)
  {
  }

  lemma DocumentStartUses(c: Memory, d: DocumentEvents)
    ensures LocalUses(c, DocumentStart(d)) == {}
  {
    hide LocalUses, Nodes.Val;
    GroupUses(c, Start, Children, Start);
    if d.declaration.Some? {
      var x := d.declaration.value;
      var encoding := if x.encoding != "" then x.encoding else x.autoEncoding;
      var f1 := Start.Val(CharacterEncodingScheme, encoding);
      ValUses(c, Start, CharacterEncodingScheme, encoding);
      ValUses(c, f1, Standalone, x.standalone);
      ValUses(c, f1.Val(Standalone, x.standalone), Version, x.version);
    }
  }

  /** The properties of a document behind its children. */
  lemma LastPropertiesUse(c: Memory, f: Nodes, baseUri: string)
    ensures LocalUses(c, f.Absent(DocumentElement).Blank(Notations).Blank(UnparsedEntities)
                          .Val(BaseURI, baseUri).Val(AllDeclarationsProcessed, "true")) == LocalUses(c, f)
  {
    hide LocalUses, Nodes.Val;
    var f1 := f.Absent(DocumentElement);
    var f2 := f1.Blank(Notations);
    var f3 := f2.Blank(UnparsedEntities);
    LineUses(c, f, Node.Nil(DocumentElement));
    LineUses(c, f1, Bare(Notations));
    LineUses(c, f2, Bare(UnparsedEntities));
    ValUses(c, f3, BaseURI, baseUri);
    ValUses(c, f3.Val(BaseURI, baseUri), AllDeclarationsProcessed, "true");
  }

  lemma OneTreeUses(c: Memory, n: Node)
    requires n.Branch?
    ensures LocalUses(c, More(Start, n)) == LocalUses(c, n.children)
  {
  }

  lemma OneDocumentUse(c: Memory, d: DocumentEvents, o: Obj)
    requires DocumentRuns(c, d)
    ensures o in LocalUses(c, DocumentNodes(c, d)) <==> o in DocumentRoots(c, d)
  {
    hide LocalUses, ShowAll, AllRun, AnyVisible, UsedByOne, Listed, RootItems, MemberIn, DocumentStart, Now,
         Nodes.Group, Nodes.Blank, Nodes.Absent, Nodes.Val;
    var before, inner := Now(c, [], DocumentStart(d)), DocumentContent(c, d);
    RootsUse(c, before, Shown(Start, EmptyEnv()), d.content, |d.content|, o);
    GroupUses(c, Start, Children, Start);
    DocumentStartUses(c, d);
    if !AnyVisible(d.content, |d.content|) {
      NothingShown(c, true, before, Shown(Start, EmptyEnv()), d.content, |d.content|);
    }
    var level := if AnyVisible(d.content, |d.content|) then DocumentStart(d).Group(Children, inner.nodes)
                 else DocumentStart(d).Blank(Children);
    GroupUses(c, DocumentStart(d), Children, inner.nodes);
    BlankUses(c, DocumentStart(d));
    LastPropertiesUse(c, level, inner.env.baseUri);
    OneTreeUses(c, DocumentNodes(c, d).last);
    UsedIsLocal(c, DocumentListed(d), o);
  }
}
