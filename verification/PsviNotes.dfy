/**
 * The places noted when an element's attributes have been shown, which decide whether the element starts. Only
 * the attributes' member types matter, and of those only anonymous ones that were not defined before.
 */
module PsviNotes {
  import opened Options
  import opened PsviOutput
  import opened PsviComponents
  import opened PsviPlans
  import opened PsviExpansion
  import opened PsviEvents
  import opened PsviDocument
  import opened PsviPlaces
  import opened PsviTypeNotes
  import Names = PsviNamespaces

  function AfterMember(c: Memory, b: Notebook, p: Option<PsviAttribute>): Notebook {
    if p.None? then b else AfterOption(c, b, p.value.memberType)
  }

  /** The notebook after the member types of the first n attributes. */
  function AfterMembers(c: Memory, b: Notebook, infos: seq<AttrInfo>, list: PsviAttributes, n: nat): Notebook
    requires n <= |infos|
  {
    if n == 0 then b
    else AfterMember(c, AfterMembers(c, b, infos, list, n - 1), list.ByName(infos[n - 1]))
  }

  // -------------------------------------------------------------------------
  //  One attribute
  // -------------------------------------------------------------------------

  lemma InfoAfter(c: Memory, b: Notebook, s: Names.Scope, a: AttrInfo, p: Option<PsviAttribute>)
    ensures After(c, b, AttributeInfoBody(s, a, p)) == b
  {
    hide After, Plainly, PlainlyBut, Nodes.Val;
    var f1 := Start.Val(NamespaceName, a.uri);
    var f2 := f1.Val(LocalName, a.localName);
    var f3 := f2.Val(Prefix, Names.PrefixOf(s, a.uri));
    var f4 := f3.Val(NormalizedValue, a.value);
    var f5 := f4.Val(Specified, SpecifiedValue(p));
    var f6 := f5.Val(AttributeType, a.attrType);
    AfterStart(c, b);
    AfterVal(c, b, Start, NamespaceName, a.uri);
    AfterVal(c, b, f1, LocalName, a.localName);
    AfterVal(c, b, f2, Prefix, Names.PrefixOf(s, a.uri));
    AfterVal(c, b, f3, NormalizedValue, a.value);
    AfterVal(c, b, f4, Specified, SpecifiedValue(p));
    AfterVal(c, b, f5, AttributeType, a.attrType);
    AfterLine(c, b, f6, Node.Nil(References));
  }

  lemma AssessedAfter(c: Memory, b: Notebook, pre: Nodes, a: PsviAttribute)
    ensures After(c, b, AssessedPlan(c, pre, a)) == AfterMember(c, After(c, b, pre), Some(a))
  {
    hide After, AfterType, Plainly, PlainlyBut, Nodes.Val, TypeRef, TypeHere, DeclRef;
    var f1 := pre.Val(ValidationAttempted, a.validationAttempted);
    var f2 := f1.Val(ValidationContext, a.validationContext);
    var f3 := f2.Val(Validity, a.validity);
    var f4 := f3.Absent(SchemaErrorCode);
    var f5 := f4.Val(SchemaNormalizedValue, a.normalizedValue);
    var f6 := f5.Val(SchemaSpecified, SpecifiedText(a.schemaSpecified));
    var f7 := f6.Val(SchemaDefault, a.schemaDefault);
    AfterVal(c, b, pre, ValidationAttempted, a.validationAttempted);
    AfterVal(c, b, f1, ValidationContext, a.validationContext);
    AfterVal(c, b, f2, Validity, a.validity);
    AfterLine(c, b, f3, Node.Nil(SchemaErrorCode));
    AfterVal(c, b, f4, SchemaNormalizedValue, a.normalizedValue);
    AfterVal(c, b, f5, SchemaSpecified, SpecifiedText(a.schemaSpecified));
    AfterVal(c, b, f6, SchemaDefault, a.schemaDefault);
    TypeRefAfter(c, b, f7, TypeDefinition, a.typeDefinition);
    TypeHereAfter(c, b, TypeRef(c, f7, TypeDefinition, a.typeDefinition), MemberTypeDefinition, a.memberType);
    DeclRefAfter(c, b, TypeHere(TypeRef(c, f7, TypeDefinition, a.typeDefinition), MemberTypeDefinition, a.memberType),
                 Tag.Declaration, AttributeDeclaration, a.declaration);
  }

  lemma RefAfter(c: Memory, b: Notebook, pre: Nodes, enclose: Tag, tag: Tag, o: Obj)
    ensures After(c, b, pre.Group(enclose, Start.Ref(tag, Some(o)))) == After(c, b, pre)
  {
    hide After;
    AfterGroup(c, b, pre, enclose, Start.Ref(tag, Some(o)));
    AfterStart(c, After(c, b, pre));
    AfterLine(c, After(c, b, pre), Start, Link(tag, o, false));
  }

  lemma TypeRefAfter(c: Memory, b: Notebook, pre: Nodes, enclose: Tag, o: Option<Obj>)
    ensures After(c, b, TypeRef(c, pre, enclose, o)) == After(c, b, pre)
  {
    hide After;
    if o.None? {
      AfterLine(c, b, pre, Node.Nil(enclose));
    } else {
      RefAfter(c, b, pre, enclose, TagOf(c, o.value), o.value);
    }
  }

  lemma DeclRefAfter(c: Memory, b: Notebook, pre: Nodes, enclose: Tag, tag: Tag, o: Option<Obj>)
    ensures After(c, b, DeclRef(pre, enclose, tag, o)) == After(c, b, pre)
  {
    hide After;
    if o.None? {
      AfterLine(c, b, pre, Node.Nil(enclose));
    } else {
      RefAfter(c, b, pre, enclose, tag, o.value);
    }
  }

  lemma ActualAfter(c: Memory, b: Notebook, pre: Nodes, v: ActualValue)
    ensures After(c, b, ActualValuePlan(pre, v)) == After(c, b, pre)
  {
    hide After;
    if !v.NoValue? {
      var b' := After(c, b, pre);
      AfterRemark(c, b, pre, Start.Group(Tag.ActualValue, ActualValueBody(v)));
      AfterGroup(c, b', Start, Tag.ActualValue, ActualValueBody(v));
      AfterStart(c, b');
      if v.ShownValue? {
        AfterLine(c, b', Start, Text(DataType, v.dataType));
        AfterLine(c, b', Start.Written(DataType, v.dataType), Text(DataValue, v.dataValue));
      }
    }
  }

  lemma AttributeAfter(c: Memory, b: Notebook, s: Names.Scope, infos: seq<AttrInfo>, list: PsviAttributes, i: nat)
    requires i < |infos|
    ensures After(c, b, AttributeBody(c, s, infos, list, i)) == AfterMember(c, b, list.ByName(infos[i]))
  {
    hide After, AfterType, AttributeInfoBody, AssessedPlan, ActualValuePlan;
    var p, info := list.ByName(infos[i]), AttributeInfoBody(s, infos[i], list.AtIndex(i));
    InfoAfter(c, b, s, infos[i], list.AtIndex(i));
    if p.Some? {
      AssessedAfter(c, b, info, p.value);
      ActualAfter(c, b, AssessedPlan(c, info, p.value), p.value.actual);
    }
  }

  // -------------------------------------------------------------------------
  //  All attributes
  // -------------------------------------------------------------------------

  lemma {:induction false} AttributesAfter(c: Memory, b: Notebook, s: Names.Scope, infos: seq<AttrInfo>,
                                           list: PsviAttributes, n: nat)
    requires n <= |infos|
    ensures After(c, b, AttributeNodes(c, s, infos, list, n)) == AfterMembers(c, b, infos, list, n)
  {
    hide After, AfterMember, AttributeBody;
    if n == 0 {
      AfterStart(c, b);
    } else {
      AttributesAfter(c, b, s, infos, list, n - 1);
      AfterGroup(c, b, AttributeNodes(c, s, infos, list, n - 1), Attribute, AttributeBody(c, s, infos, list, n - 1));
      AttributeAfter(c, AfterMembers(c, b, infos, list, n - 1), s, infos, list, n - 1);
    }
  }

  /**
   * The places noted in the end are what the member types leave: each anonymous type that is defined at its
   * attribute replaces them by those of the last annotation in its definition. Nothing else matters.
   */
  lemma NotesFromMembers(c: Memory, d: seq<Obj>, s: Names.Scope, infos: seq<AttrInfo>, list: PsviAttributes)
    ensures NotesLeft(c, d, s, infos, list) == AfterMembers(c, Notebook(d, []), infos, list, |infos|).notes
  {
    hide AttributeNodes, AfterMembers, After;
    var b := Notebook(d, []);
    MarkedAfter(c, b);
    if infos == [] {
      AfterLine(c, b, Start.Marked([]), Bare(Attributes));
      NoMembers(c, b, infos, list);
    } else {
      AfterGroup(c, b, Start.Marked([]), Attributes, AttributeNodes(c, s, infos, list, |infos|));
      AttributesAfter(c, b, s, infos, list, |infos|);
    }
    NotesAfter(c, d, AttributesPlan(c, s, Start, infos, list));
  }

  lemma NotesAfter(c: Memory, d: seq<Obj>, f: Nodes)
    ensures NotesIn(Expand(c, d, f), []) == After(c, Notebook(d, []), f).notes
  {
  }

  lemma NoMembers(c: Memory, b: Notebook, infos: seq<AttrInfo>, list: PsviAttributes)
    ensures AfterMembers(c, b, infos, list, 0) == b
  {
  }

  lemma MarkedAfter(c: Memory, b: Notebook)
    requires b.notes == []
    ensures After(c, b, Start.Marked([])) == b
  {
    AfterStart(c, b);
    AfterMore(c, b, Start, Mark([]));
    assert b.defined + [] == b.defined;
  }

  /** An anonymous member type that is not among the objects d. */
  function NewMember(c: Memory, d: seq<Obj>, p: Option<PsviAttribute>): Option<Obj> {
    if p.Some? && p.value.memberType.Some? && New(c, d, p.value.memberType.value) then p.value.memberType else None
  }

  /** None of the attributes from i on, up to n, has one. */
  predicate NoNewMember(c: Memory, d: seq<Obj>, infos: seq<AttrInfo>, list: PsviAttributes, i: nat, n: nat)
    requires n <= |infos|
  {
    forall k :: i <= k < n ==> NewMember(c, d, list.ByName(infos[k])).None?
  }

  lemma {:induction false} NothingMore(c: Memory, d: seq<Obj>, b: Notebook, infos: seq<AttrInfo>,
                                       list: PsviAttributes, i: nat, n: nat)
    requires i <= n <= |infos| && NoNewMember(c, d, infos, list, i, n)
    requires forall o :: o in d ==> o in AfterMembers(c, b, infos, list, i).defined
    ensures AfterMembers(c, b, infos, list, n) == AfterMembers(c, b, infos, list, i)
    decreases n
  {
    if i < n {
      NothingMore(c, d, b, infos, list, i, n - 1);
      NoMember(c, d, AfterMembers(c, b, infos, list, n - 1), list.ByName(infos[n - 1]));
    }
  }

  lemma NoMember(c: Memory, d: seq<Obj>, b: Notebook, p: Option<PsviAttribute>)
    requires NewMember(c, d, p).None? && forall o :: o in d ==> o in b.defined
    ensures AfterMember(c, b, p) == b
  {
    hide AfterType;
    if p.Some? && p.value.memberType.Some? {
      NotNew(c, b, p.value.memberType.value);
    }
  }

  /** Without new anonymous member types nothing is noted, and the element starts. */
  lemma NoNewMemberStarts(c: Memory, d: seq<Obj>, env: Env, e: ElementEvents)
    requires NoNewMember(c, d, e.attrs, e.assessed, 0, |e.attrs|)
    ensures Noted(c, d, env, e) == [] && Starts(c, d, env, e)
  {
    NotesFromMembers(c, d, env.scope, e.attrs, e.assessed);
    NothingMore(c, d, Notebook(d, []), e.attrs, e.assessed, 0, |e.attrs|);
  }

  // -------------------------------------------------------------------------
  //  What a member type notes
  // -------------------------------------------------------------------------

  lemma {:induction false} DefinedGrows(c: Memory, b: Notebook, infos: seq<AttrInfo>, list: PsviAttributes, n: nat)
    requires n <= |infos|
    ensures b.defined <= AfterMembers(c, b, infos, list, n).defined
  {
    hide Contents, Expand;
    if n > 0 {
      DefinedGrows(c, b, infos, list, n - 1);
    }
  }

  lemma MemberStep(c: Memory, b: Notebook, infos: seq<AttrInfo>, list: PsviAttributes, k: nat)
    requires k < |infos|
    requires NewMember(c, AfterMembers(c, b, infos, list, k).defined, list.ByName(infos[k])).Some?
    ensures var before := AfterMembers(c, b, infos, list, k);
            var o := NewMember(c, before.defined, list.ByName(infos[k]));
            AfterMembers(c, b, infos, list, k + 1) == AfterType(c, before, o.value)
  {
  }

  /** There is an attribute at the place, and it was assessed. */
  predicate AssessedAt(e: ElementEvents, i: nat) {
    i < |e.attrs| && (e.attrs[i].localName, e.attrs[i].uri) in e.assessed.byName
  }

  /** An element starts exactly if all places its attributes' member types leave are those of assessed attributes. */
  lemma StartsIffAssessed(c: Memory, d: seq<Obj>, env: Env, e: ElementEvents)
    ensures var notes := AfterMembers(c, Notebook(d, []), e.attrs, e.assessed, |e.attrs|).notes;
            Starts(c, d, env, e) <==> forall k :: 0 <= k < |notes| ==> AssessedAt(e, notes[k])
  {
    hide AfterMembers, NotesLeft;
    NotesFromMembers(c, d, env.scope, e.attrs, e.assessed);
    AssessedPlaces(e, AfterMembers(c, Notebook(d, []), e.attrs, e.assessed, |e.attrs|).notes);
  }

  lemma AssessedPlaces(e: ElementEvents, notes: seq<nat>)
    ensures AllFindable(e.attrs, e.assessed, notes) <==> forall k :: 0 <= k < |notes| ==> AssessedAt(e, notes[k])
  {
    forall k | 0 <= k < |notes| ensures Findable(e.attrs, e.assessed, notes[k]) <==> AssessedAt(e, notes[k]) {
    }
  }

  /**
   * The last attribute that brings a new anonymous member type decides: the element starts exactly if the places
   * noted when that type has been shown are those of assessed attributes of the element.
   */
  lemma LastMemberDecides(c: Memory, d: seq<Obj>, env: Env, e: ElementEvents, k: nat)
    requires k < |e.attrs| && NoNewMember(c, d, e.attrs, e.assessed, k + 1, |e.attrs|)
    requires var b := AfterMembers(c, Notebook(d, []), e.attrs, e.assessed, k);
             var o := NewMember(c, b.defined, e.assessed.ByName(e.attrs[k]));
             o.Some? && IsSimple(c, o.value)
    ensures var b := AfterMembers(c, Notebook(d, []), e.attrs, e.assessed, k);
            var o := NewMember(c, b.defined, e.assessed.ByName(e.attrs[k])).value;
            var noted := AfterSimple(c, b.(defined := b.defined + [o]), c[o].simpleType).notes;
            && Noted(c, d, env, e) == noted
            && (Starts(c, d, env, e) <==> forall i :: 0 <= i < |noted| ==> AssessedAt(e, noted[i]))
  {
    hide AfterSimple, AfterMember, AfterMembers, NewMember, NotesLeft, AllFindable, NoNewMember, AssessedAt;
    AssessedPlaces(e, Noted(c, d, env, e));
    var b := AfterMembers(c, Notebook(d, []), e.attrs, e.assessed, k);
    var o := NewMember(c, b.defined, e.assessed.ByName(e.attrs[k])).value;
    MemberStep(c, Notebook(d, []), e.attrs, e.assessed, k);
    NotesFromMembers(c, d, env.scope, e.attrs, e.assessed);
    NewTypeShown(c, b, o, e.assessed.ByName(e.attrs[k]));
    DefinedGrows(c, Notebook(d, []), e.attrs, e.assessed, k + 1);
    NothingMore(c, d, Notebook(d, []), e.attrs, e.assessed, k + 1, |e.attrs|);
  }

  lemma NewTypeShown(c: Memory, b: Notebook, o: Obj, p: Option<PsviAttribute>)
    requires NewMember(c, b.defined, p) == Some(o) && IsSimple(c, o)
    ensures AfterType(c, b, o) == AfterSimple(c, b.(defined := b.defined + [o]), c[o].simpleType)
  {
    hide AfterSimple;
  }

  // -------------------------------------------------------------------------
  //  Documents
  // -------------------------------------------------------------------------

  /** No attribute in the content has an anonymous member type. */
  predicate NamedMembers(c: Memory, x: Content) {
    x.Nested? ==>
      NoNewMember(c, [], x.element.attrs, x.element.assessed, 0, |x.element.attrs|) &&
      forall i :: 0 <= i < |x.element.content| ==> NamedMembers(c, x.element.content[i])
  }

  lemma {:induction false} NamedMembersRun(c: Memory, root: bool, d: seq<Obj>, s: Shown, x: Content)
    requires NamedMembers(c, x)
    ensures ContentRuns(c, root, d, s, x)
    decreases x
  {
    hide Starts, InsideDefined, Now;
    if x.Nested? {
      var e, before, env := x.element, Now(c, d, s.nodes), Entered(s.env, x.element);
      assert NoNewMember(c, before, e.attrs, e.assessed, 0, |e.attrs|);
      NoNewMemberStarts(c, before, env, e);
      AllNamedRun(c, false, InsideDefined(c, before, env, e), Shown(Start, env), e.content, |e.content|);
      assert ElementRuns(c, before, env, e);
    }
  }

  lemma {:induction false} AllNamedRun(c: Memory, root: bool, d: seq<Obj>, s: Shown, content: seq<Content>, n: nat)
    requires n <= |content| && forall i :: 0 <= i < |content| ==> NamedMembers(c, content[i])
    ensures AllRun(c, root, d, s, content, n)
    decreases content, n
  {
    if n > 0 {
      AllNamedRun(c, root, d, s, content, n - 1);
      NamedMembersRun(c, root, d, ShowAll(c, root, d, s, content, n - 1), content[n - 1]);
    }
  }

  /** A document without anonymous member types is shown to the end. */
  lemma NamedDocumentRuns(c: Memory, d: DocumentEvents)
    requires forall i :: 0 <= i < |d.content| ==> NamedMembers(c, d.content[i])
    ensures DocumentRuns(c, d)
  {
    AllNamedRun(c, true, Now(c, [], DocumentStart(d)), Shown(Start, EmptyEnv()), d.content, |d.content|);
  }

  // -------------------------------------------------------------------------
  //  A document that is not shown to the end
  // -------------------------------------------------------------------------

  /** An anonymous type whose annotation has an ordinary attribute and then a namespace declaration. */
  const NOTING_TYPE := SimpleType("", "urn:a", true, None, None, None, None, "false", false, false, false, "",
                                  "atomic", None, None, Some([NOTING_ANNOTATION]))

  const NOTING_ANNOTATION := Annotation.Annotation([], [], [DomAttr("", "id", "", "x", true, "CDATA"),
                                                 DomAttr(XMLNS_URI, "xs", "xmlns", XML_SCHEMA_URI, true, "CDATA")],
                                        NoAnnotation)

  const ASSESSED := PsviAttribute(false, "full", "a", "valid", "1", "", None, Some(1), None, NoValue)

  const UNASSESSED := PsviElement(None, "none", "", "notKnown", "", "", false, "", None, None, None, None, NoValue)

  /** A single element with a single attribute, whose member type is that type. */
  function StoppedDocument(): DocumentEvents {
    var assessed := PsviAttributes([Some(ASSESSED)], map[("a", "") := ASSESSED]);
    DocumentEvents(None, [Nested(ElementEvents([], "root", "", [AttrInfo("", "a", "CDATA", "1")], assessed, None, [],
                                               UNASSESSED))])
  }

  function NotingMemory(): Memory { map[1 := OfSimpleType(NOTING_TYPE)] }

  /** The place noted is 1, and the element has no second attribute. */
  lemma SomeDocumentStops()
    ensures var c, d := NotingMemory(), StoppedDocument();
            AllLinked(c) && DocumentOk(c, d) && !DocumentRuns(c, d)
  {
    hide Starts, DocumentRuns;
    ElementStops();
    FirstDoesNotStart(NotingMemory(), StoppedDocument(), StoppedDocument().content[0].element);
  }

  lemma ElementStops()
    ensures !Starts(NotingMemory(), [], EmptyEnv(), StoppedDocument().content[0].element)
  {
    hide Starts, Noted, AfterMember, AfterSimple, PlacesOf;
    var c, e := NotingMemory(), StoppedDocument().content[0].element;
    assert IsLocal(c, 1) && e.assessed.ByName(e.attrs[0]) == Some(ASSESSED);
    NotingPlaces();
    LastMemberDecides(c, [], EmptyEnv(), e, 0);
    OwnDecides(c, Notebook([] + [1], []), NOTING_TYPE);
    assert !Findable(e.attrs, e.assessed, PlacesOf(NOTING_ANNOTATION)[0]);
  }

  lemma NotingPlaces()
    ensures PlacesOf(NOTING_ANNOTATION) == [1]
  {
    var attrs := NOTING_ANNOTATION.attrs;
    assert NamespaceIndices(attrs, 1) == [];
  }

  lemma FirstDoesNotStart(c: Memory, d: DocumentEvents, e: ElementEvents)
    requires d.declaration.None? && d.content == [Nested(e)] && e.mappings == [] && !Starts(c, [], EmptyEnv(), e)
    ensures !DocumentRuns(c, d)
  {
    hide Starts, InsideRuns, ShowContent;
    assert Now(c, [], Start) == [];
    assert Entered(EmptyEnv(), e) == EmptyEnv();
    assert !ContentRuns(c, true, [], Shown(Start, EmptyEnv()), Nested(e));
  }
}
