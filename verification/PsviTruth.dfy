/** On the lines of a document, every definition and every schema is true. */
module PsviTruth {
  import opened Options
  import opened PsviOutput
  import opened PsviComponents
  import opened PsviPlans
  import opened PsviExpansion
  import opened PsviEvents
  import opened PsviDocument
  import opened PsviItems
  import opened PsviDescriptions
  import opened PsviDescribed
  import Reader = PsviReader

  /** Every definition in the trees has the contents of its component, and every schema is that of a model. */
  predicate Faithful(c: Memory, models: Models, f: Nodes)
    decreases f
  {
    f.More? ==> Faithful(c, models, f.front) && FaithfulNode(c, models, f.last)
  }

  predicate FaithfulNode(c: Memory, models: Models, n: Node)
    decreases n
  {
    match n
    case Branch(tag, head, children) =>
      && Faithful(c, models, children)
      && (head.Named? ==> head.obj in c && tag == TagOf(c, head.obj) && children == Contents(c, head.obj))
      && (tag.SchemaInformation? ==> exists m :: m in models && children == NamespaceItemNodes(c, m, |m|))
    case Remark(children) => Faithful(c, models, children)
    case _ => true
  }

  // -------------------------------------------------------------------------
  //  Trees that are faithful
  // -------------------------------------------------------------------------

  /** Trees that define nothing, and show no schema, are. */
  lemma {:induction false} NothingToCheck(c: Memory, models: Models, f: Nodes)
    requires Fixed(f) == [] && NoSchema(f)
    ensures Faithful(c, models, f)
    decreases f
  {
    if f.More? {
      FrontNothing(f);
      NothingToCheck(c, models, f.front);
      if f.last.Branch? || f.last.Remark? {
        NothingInside(f.last);
        NothingToCheck(c, models, f.last.children);
      }
    }
  }

  lemma FrontNothing(f: Nodes)
    requires f.More? && Fixed(f) == [] && NoSchema(f)
    ensures Fixed(f.front) == [] && NoSchema(f.front) && FixedNode(f.last) == [] && SchemaFormsNode(f.last) == []
  {
  }

  lemma NothingInside(n: Node)
    requires (n.Branch? || n.Remark?) && FixedNode(n) == [] && SchemaFormsNode(n) == []
    ensures Fixed(n.children) == [] && NoSchema(n.children)
    ensures n.Branch? ==> !n.head.Named? && !n.tag.SchemaInformation?
  {
    assert |Deeper(SchemaForms(n.children), 1)| == |SchemaForms(n.children)|;
  }

  lemma FaithfulLine(c: Memory, models: Models, f: Nodes, n: Node)
    requires Faithful(c, models, f) && !n.Branch? && !n.Remark?
    ensures Faithful(c, models, More(f, n))
  {
  }

  lemma FaithfulGroup(c: Memory, models: Models, f: Nodes, tag: Tag, children: Nodes)
    requires Faithful(c, models, f) && Faithful(c, models, children) && !tag.SchemaInformation?
    ensures Faithful(c, models, f.Group(tag, children))
  {
  }

  lemma FaithfulVal(c: Memory, models: Models, f: Nodes, tag: Tag, text: string)
    requires Faithful(c, models, f)
    ensures Faithful(c, models, f.Val(tag, text)) && Faithful(c, models, f.Absent(tag))
  {
    hide Faithful;
    FaithfulLine(c, models, f, f.Val(tag, text).last);
    FaithfulLine(c, models, f, f.Absent(tag).last);
  }

  lemma FaithfulDefinition(c: Memory, models: Models, f: Nodes, o: Obj)
    requires Faithful(c, models, f) && o in c && Faithful(c, models, Contents(c, o))
    ensures Faithful(c, models, f.Defined(TagOf(c, o), o, Contents(c, o)))
  {
    hide Contents;
  }

  lemma NothingPlain(c: Memory, models: Models, f: Nodes)
    requires Plainly(Start, f)
    ensures Faithful(c, models, f)
  {
    NothingToCheck(c, models, f);
  }

  lemma {:induction false} FaithfulChain(c: Memory, models: Models, f: Nodes, a: Annotation)
    requires Faithful(c, models, f)
    ensures Faithful(c, models, AnnotationChain(f, a))
    decreases a
  {
    hide Faithful, AnnotationBody, Nodes.Group, Plainly;
    if a.Annotation? {
      NothingPlain(c, models, AnnotationBody(a));
      FaithfulGroup(c, models, f, Tag.Annotation, AnnotationBody(a));
      FaithfulChain(c, models, f.Group(Tag.Annotation, AnnotationBody(a)), a.next);
    }
  }

  lemma FaithfulAnnotation(c: Memory, models: Models, f: Nodes, a: Annotation)
    requires Faithful(c, models, f)
    ensures Faithful(c, models, AnnotationPlan(f, a))
  {
    hide Faithful, AnnotationChain;
    FaithfulChain(c, models, f, a);
    FaithfulVal(c, models, f, Tag.Annotation, "");
  }

  lemma FaithfulDeclRef(c: Memory, models: Models, f: Nodes, enclose: Tag, tag: Tag, o: Option<Obj>)
    requires Faithful(c, models, f) && !enclose.SchemaInformation? && !tag.SchemaInformation?
    ensures Faithful(c, models, DeclRef(f, enclose, tag, o))
  {
    hide Faithful, Nodes.Group, Nodes.Ref, Plainly;
    FaithfulVal(c, models, f, enclose, "");
    NothingPlain(c, models, Start.Ref(tag, o));
    FaithfulGroup(c, models, f, enclose, Start.Ref(tag, o));
  }

  lemma FaithfulTypeRef(c: Memory, models: Models, f: Nodes, enclose: Tag, o: Option<Obj>)
    requires Faithful(c, models, f) && !enclose.SchemaInformation?
    ensures Faithful(c, models, TypeRef(c, f, enclose, o))
  {
    hide Faithful, Nodes.Group, Nodes.Ref, Plainly;
    FaithfulVal(c, models, f, enclose, "");
    if o.Some? {
      NothingPlain(c, models, Start.Ref(TagOf(c, o.value), o));
      FaithfulGroup(c, models, f, enclose, Start.Ref(TagOf(c, o.value), o));
    }
  }

  // -------------------------------------------------------------------------
  //  Components
  // -------------------------------------------------------------------------

  lemma {:induction false} ConstraintsFaithful(c: Graph, models: Models, list: seq<Obj>, n: nat)
    requires n <= |list| && ConstraintsLinked(c, Some(list))
    ensures Faithful(c, models, IdConstraintNodes(c, list, n))
    decreases n
  {
    hide Faithful, IdConstraintContents, Contents, Nodes.Defined;
    if n == 0 {
      NothingToCheck(c, models, Start);
    } else {
      var o := list[n - 1];
      ConstraintsFaithful(c, models, list, n - 1);
      ConstraintContents(c, o);
      NothingToCheck(c, models, Contents(c, o));
      FaithfulDefinition(c, models, IdConstraintNodes(c, list, n - 1), o);
    }
  }

  lemma ConstraintContents(c: Memory, o: Obj)
    requires IsConstraint(c, o)
    ensures IdConstraintContents(c, o) == Contents(c, o) && TagOf(c, o) == IdentityConstraintDefinition
    ensures Fixed(Contents(c, o)) == []
  {
    hide IdConstraintBody;
  }

  lemma ElementFaithful(c: Graph, models: Models, x: ElementDecl)
    requires ElementLinked(c, x)
    ensures Faithful(c, models, ElementDeclBody(c, x))
  {
    hide Faithful, ElementDeclHead, IdConstraintNodes, DeclRef, AnnotationPlan, Nodes.Val, Nodes.Group,
         Nodes.Absent, Plainly;
    var f0 := ElementDeclHead(x);
    var f1 := IdConstraintsPlan(c, f0, x.identityConstraints);
    var f2 := DeclRef(f1, SubstitutionGroupAffiliation, ElementDeclaration, x.affiliation);
    var f3 := f2.Val(SubstitutionGroupExclusions, x.exclusions);
    var f4 := f3.Val(DisallowedSubstitutions, x.disallowed);
    NothingPlain(c, models, f0);
    FaithfulVal(c, models, f0, IdentityConstraintDefinitions, "");
    if x.identityConstraints.Some? {
      var list := x.identityConstraints.value;
      ConstraintsFaithful(c, models, list, |list|);
      FaithfulGroup(c, models, f0, IdentityConstraintDefinitions, IdConstraintNodes(c, list, |list|));
    }
    FaithfulDeclRef(c, models, f1, SubstitutionGroupAffiliation, ElementDeclaration, x.affiliation);
    FaithfulVal(c, models, f2, SubstitutionGroupExclusions, x.exclusions);
    FaithfulVal(c, models, f3, DisallowedSubstitutions, x.disallowed);
    FaithfulVal(c, models, f4, Abstract, BoolText(x.isAbstract));
    FaithfulAnnotation(c, models, f4.Val(Abstract, BoolText(x.isAbstract)), x.annotation);
  }

  lemma ContentsFaithful(c: Graph, models: Models, o: Obj)
    requires o in c
    ensures Faithful(c, models, Contents(c, o))
  {
    hide Faithful, ElementDeclBody, ElementLinked, ComplexTypeBody, SimpleTypeBody, AttributeDeclBody,
         AttributeGroupBody, ModelGroupDefBody, NotationDeclBody, IdConstraintBody, ComplexTypeLinked,
         SimpleTypeLinked;
    assert Linked(c, c[o]);
    if c[o].OfElement? {
      ElementFaithful(c, models, c[o].element);
    } else {
      NothingToCheck(c, models, Contents(c, o));
    }
  }

  // -------------------------------------------------------------------------
  //  Schema models
  // -------------------------------------------------------------------------

  lemma {:induction false} DefinitionsFaithful(c: Graph, models: Models, f: Nodes, list: seq<Obj>, n: nat)
    requires n <= |list| && Faithful(c, models, f) && forall i :: 0 <= i < |list| ==> list[i] in c
    ensures Faithful(c, models, DefinitionNodes(c, f, list, n))
    decreases n
  {
    hide Faithful, Contents, TagOf, Nodes.Defined;
    if n > 0 {
      DefinitionsFaithful(c, models, f, list, n - 1);
      ContentsFaithful(c, models, list[n - 1]);
      FaithfulDefinition(c, models, DefinitionNodes(c, f, list, n - 1), list[n - 1]);
    }
  }

  lemma AllFaithful(c: Graph, models: Models, f: Nodes, list: seq<Obj>)
    requires Faithful(c, models, f) && forall i :: 0 <= i < |list| ==> list[i] in c
    ensures Faithful(c, models, AllDefinitions(c, f, list))
  {
    hide Faithful, DefinitionNodes;
    DefinitionsFaithful(c, models, f, list, |list|);
  }

  lemma ComponentsFaithful(c: Graph, models: Models, x: NamespaceItem)
    requires ItemLinked(c, x)
    ensures Faithful(c, models, ComponentsBody(c, x))
  {
    hide Faithful, AllDefinitions;
    var typed := AllDefinitions(c, Start, x.types);
    var attributed := AllDefinitions(c, typed, x.attributes);
    var declared := AllDefinitions(c, attributed, x.elements);
    var grouped := AllDefinitions(c, declared, x.attributeGroups);
    NothingToCheck(c, models, Start);
    AllFaithful(c, models, Start, x.types);
    AllFaithful(c, models, typed, x.attributes);
    AllFaithful(c, models, attributed, x.elements);
    AllFaithful(c, models, declared, x.attributeGroups);
    AllFaithful(c, models, grouped, x.modelGroups);
    AllFaithful(c, models, AllDefinitions(c, grouped, x.modelGroups), x.notations);
  }

  lemma NamespaceFaithful(c: Graph, models: Models, x: NamespaceItem)
    requires ItemLinked(c, x)
    ensures Faithful(c, models, NamespaceItemBody(c, x))
  {
    hide Faithful, ComponentsBody, LocationNodes, AnnotationNodes, Nodes.Val, Nodes.Group, Nodes.Absent, Plainly,
         ItemLinked;
    var f1 := Start.Val(SchemaNamespace, x.namespace);
    var f2 := f1.Group(SchemaComponents, ComponentsBody(c, x));
    var f3 := f2.Group(SchemaDocuments, LocationNodes(x.locations, |x.locations|));
    NothingToCheck(c, models, Start);
    FaithfulVal(c, models, Start, SchemaNamespace, x.namespace);
    ComponentsFaithful(c, models, x);
    FaithfulGroup(c, models, f1, SchemaComponents, ComponentsBody(c, x));
    NothingPlain(c, models, LocationNodes(x.locations, |x.locations|));
    FaithfulGroup(c, models, f2, SchemaDocuments, LocationNodes(x.locations, |x.locations|));
    FaithfulVal(c, models, f3, SchemaAnnotations, "");
    if x.annotations.Some? {
      NothingPlain(c, models, AnnotationNodes(x.annotations.value, |x.annotations.value|));
      FaithfulGroup(c, models, f3, SchemaAnnotations, AnnotationNodes(x.annotations.value, |x.annotations.value|));
    }
  }

  lemma {:induction false} NamespacesFaithful(c: Graph, models: Models, items: seq<NamespaceItem>, n: nat)
    requires n <= |items| && forall i :: 0 <= i < |items| ==> ItemLinked(c, items[i])
    ensures Faithful(c, models, NamespaceItemNodes(c, items, n))
    decreases n
  {
    hide Faithful, NamespaceItemBody, ItemLinked, Nodes.Group;
    if n == 0 {
      NothingToCheck(c, models, Start);
    } else {
      NamespacesFaithful(c, models, items, n - 1);
      NamespaceFaithful(c, models, items[n - 1]);
      FaithfulGroup(c, models, NamespaceItemNodes(c, items, n - 1), NamespaceSchemaInformation,
                    NamespaceItemBody(c, items[n - 1]));
    }
  }

  /** The models are linked. */
  ghost predicate ModelsOk(c: Memory, models: Models) {
    forall m, i :: m in models && 0 <= i < |m| ==> ItemLinked(c, m[i])
  }

  lemma SchemaFaithful(c: Graph, models: Models, f: Nodes, model: Option<seq<NamespaceItem>>)
    requires Faithful(c, models, f) && ModelsOk(c, models) && (model.Some? ==> model.value in models)
    ensures Faithful(c, models, SchemaInformationPlan(c, f, model))
  {
    hide NamespaceItemNodes, ItemLinked;
    if model.Some? {
      NamespacesFaithful(c, models, model.value, |model.value|);
    }
  }

  // -------------------------------------------------------------------------
  //  Elements and documents
  // -------------------------------------------------------------------------

  lemma OutcomeFaithful(c: Memory, models: Models, f: Nodes, e: PsviElement)
    requires Faithful(c, models, f)
    ensures Faithful(c, models, ElementOutcome(f, e))
  {
    hide Faithful, Nodes.Val, Nodes.Absent;
    var f1 := f.Val(ValidationAttempted, e.validationAttempted);
    var f2 := f1.Val(ValidationContext, e.validationContext);
    var f3 := f2.Val(Validity, e.validity);
    var f4 := f3.Absent(SchemaErrorCode);
    var f5 := f4.Val(SchemaNormalizedValue, e.normalizedValue);
    var f6 := f5.Val(CanonicalRepresentation, e.canonical);
    var f7 := f6.Val(SchemaSpecified, SpecifiedText(e.schemaSpecified));
    FaithfulVal(c, models, f, ValidationAttempted, e.validationAttempted);
    FaithfulVal(c, models, f1, ValidationContext, e.validationContext);
    FaithfulVal(c, models, f2, Validity, e.validity);
    FaithfulVal(c, models, f3, SchemaErrorCode, "");
    FaithfulVal(c, models, f4, SchemaNormalizedValue, e.normalizedValue);
    FaithfulVal(c, models, f5, CanonicalRepresentation, e.canonical);
    FaithfulVal(c, models, f6, SchemaSpecified, SpecifiedText(e.schemaSpecified));
    FaithfulVal(c, models, f7, SchemaDefault, e.schemaDefault);
  }

  lemma FaithfulRef(c: Memory, models: Models, f: Nodes, tag: Tag, o: Option<Obj>)
    requires Faithful(c, models, f)
    ensures Faithful(c, models, f.Ref(tag, o))
  {
    hide Faithful;
    FaithfulLine(c, models, f, f.Ref(tag, o).last);
  }

  lemma ReferencesFaithful(c: Memory, models: Models, f: Nodes, e: PsviElement)
    requires Faithful(c, models, f)
    ensures Faithful(c, models, ElementReferences(c, f, e))
  {
    hide Faithful, TypeRef, DeclRef, Nodes.Ref, Nodes.Absent;
    var f1 := TypeRef(c, f, TypeDefinition, e.typeDefinition);
    var f2 := TypeRef(c, f1, MemberTypeDefinition, e.memberType);
    var f3 := f2.Absent(NilProperty);
    var f4 := DeclRef(f3, Tag.Declaration, ElementDeclaration, e.declaration);
    var f5 := f4.Ref(Notation, e.notation);
    FaithfulTypeRef(c, models, f, TypeDefinition, e.typeDefinition);
    FaithfulTypeRef(c, models, f1, MemberTypeDefinition, e.memberType);
    FaithfulVal(c, models, f2, NilProperty, "");
    FaithfulDeclRef(c, models, f3, Tag.Declaration, ElementDeclaration, e.declaration);
    FaithfulRef(c, models, f4, Notation, e.notation);
    FaithfulVal(c, models, f5, IdIdrefTable, "");
    FaithfulVal(c, models, f5.Absent(IdIdrefTable), IdentityConstraintTable, "");
  }

  lemma TailFaithful(c: Graph, models: Models, f: Nodes, e: PsviElement, model: Option<seq<NamespaceItem>>)
    requires Faithful(c, models, f) && ModelsOk(c, models) && (model.Some? ==> model.value in models)
    ensures Faithful(c, models, ElementTail(c, f, e, model))
  {
    hide Faithful, SchemaInformationPlan, ElementOutcome, ElementReferences, ModelsOk;
    SchemaFaithful(c, models, f, model);
    OutcomeFaithful(c, models, SchemaInformationPlan(c, f, model), e);
    ReferencesFaithful(c, models, ElementOutcome(SchemaInformationPlan(c, f, model), e), e);
  }

  lemma ActualFaithful(c: Memory, models: Models, f: Nodes, v: PsviEvents.ActualValue)
    requires Faithful(c, models, f)
    ensures Faithful(c, models, ActualValuePlan(f, v))
  {
    hide ActualValueBody, Plainly;
    if !v.NoValue? {
      NothingPlain(c, models, ActualValueBody(v));
      FaithfulGroup(c, models, Start, Tag.ActualValue, ActualValueBody(v));
    }
  }

  /** What is shown of an element before its content defines nothing, and gives no schema. */
  lemma StartFaithful(c: Memory, models: Models, d: seq<Obj>, env: Env, e: ElementEvents)
    ensures Faithful(c, models, ElementStart(c, d, env, e))
  {
    hide Faithful, HeadOf, PartialPlan, Starts;
    if !Starts(c, d, env, e) {
      NothingToCheck(c, models, Start);
    } else {
      NothingToCheck(c, models, HeadOf(c, d, env, e));
      if e.partial.Some? {
        PartialFaithful(c, models, HeadOf(c, d, env, e), e.partial.value);
      }
    }
  }

  lemma PartialFaithful(c: Memory, models: Models, f: Nodes, e: PsviElement)
    requires Faithful(c, models, f)
    ensures Faithful(c, models, PartialPlan(c, f, e, None))
  {
    hide Faithful, PartialBody, Nodes.Group, Nodes.Noted;
    NothingToCheck(c, models, Start);
    PartialBodyFaithful(c, models, e);
    FaithfulGroup(c, models, Start, PartialElementPSVI, PartialBody(c, e, None));
    FaithfulRemark(c, models, f, Start.Group(PartialElementPSVI, PartialBody(c, e, None)));
  }

  lemma FaithfulRemark(c: Memory, models: Models, f: Nodes, children: Nodes)
    requires Faithful(c, models, f) && Faithful(c, models, children)
    ensures Faithful(c, models, f.Noted(children))
  {
  }

  lemma PartialBodyFaithful(c: Memory, models: Models, e: PsviElement)
    ensures Faithful(c, models, PartialBody(c, e, None))
  {
    hide Faithful, TypeRef, DeclRef, Nodes.Ref, Nodes.Val, Nodes.Absent;
    var f0 := Start.Absent(SchemaInformation);
    var f1 := f0.Val(ValidationAttempted, e.validationAttempted);
    var f2 := f1.Val(ValidationContext, e.validationContext);
    var f3 := f2.Val(Validity, e.validity);
    var f4 := f3.Val(SchemaNormalizedValue, e.normalizedValue);
    var f5 := f4.Val(CanonicalRepresentation, e.canonical);
    var f6 := f5.Val(SchemaSpecified, SpecifiedText(e.schemaSpecified));
    var f7 := f6.Val(SchemaDefault, e.schemaDefault);
    var f8 := TypeRef(c, f7, TypeDefinition, e.typeDefinition);
    var f9 := TypeRef(c, f8, MemberTypeDefinition, e.memberType);
    NothingToCheck(c, models, Start);
    FaithfulVal(c, models, Start, SchemaInformation, "");
    FaithfulVal(c, models, f0, ValidationAttempted, e.validationAttempted);
    FaithfulVal(c, models, f1, ValidationContext, e.validationContext);
    FaithfulVal(c, models, f2, Validity, e.validity);
    FaithfulVal(c, models, f3, SchemaNormalizedValue, e.normalizedValue);
    FaithfulVal(c, models, f4, CanonicalRepresentation, e.canonical);
    FaithfulVal(c, models, f5, SchemaSpecified, SpecifiedText(e.schemaSpecified));
    FaithfulVal(c, models, f6, SchemaDefault, e.schemaDefault);
    FaithfulTypeRef(c, models, f7, TypeDefinition, e.typeDefinition);
    FaithfulTypeRef(c, models, f8, MemberTypeDefinition, e.memberType);
    FaithfulDeclRef(c, models, f9, Tag.Declaration, ElementDeclaration, e.declaration);
    FaithfulRef(c, models, DeclRef(f9, Tag.Declaration, ElementDeclaration, e.declaration), Notation, e.notation);
  }

  lemma ElementNodesFaithful(c: Graph, models: Models, root: bool, d: seq<Obj>, env: Env, e: ElementEvents,
                             inner: Nodes)
    requires Faithful(c, models, inner) && ModelsOk(c, models)
    requires root && e.close.model.Some? ==> e.close.model.value in models
    ensures Faithful(c, models, ElementNodes(c, root, d, env, e, inner))
  {
    hide Faithful, ElementStart, ElementTail, ActualValuePlan, AnyVisible, Nodes.Group, Nodes.Blank, ModelsOk;
    var known, v := ElementStart(c, d, env, e), e.close.actual;
    StartFaithful(c, models, d, env, e);
    ActualFaithful(c, models, inner, v);
    ActualFaithful(c, models, known, v);
    FaithfulGroup(c, models, known, Children, ActualValuePlan(inner, v));
    FaithfulBlank(c, models, ActualValuePlan(known, v), Children);
    var level := if AnyVisible(e.content, |e.content|) then known.Group(Children, ActualValuePlan(inner, v))
                 else ActualValuePlan(known, v).Blank(Children);
    TailFaithful(c, models, level, e.close, if root then e.close.model else None);
  }

  lemma FaithfulBlank(c: Memory, models: Models, f: Nodes, tag: Tag)
    requires Faithful(c, models, f)
    ensures Faithful(c, models, f.Blank(tag))
  {
    hide Faithful;
    FaithfulLine(c, models, f, Bare(tag));
  }

  /** The model reported with a root element. */
  predicate ModelKnown(models: Models, root: bool, x: Content) {
    root && x.Nested? && x.element.close.model.Some? ==> x.element.close.model.value in models
  }

  lemma {:induction false} ContentFaithful(c: Graph, models: Models, root: bool, d: seq<Obj>, s: Shown, x: Content)
    requires Faithful(c, models, s.nodes) && ModelsOk(c, models) && ModelKnown(models, root, x)
    ensures Faithful(c, models, ShowContent(c, root, d, s, x).nodes)
    decreases x
  {
    hide Faithful, ModelsOk, ElementNodes, InsideDefined, Now, Nodes.Val, Nodes.Group, Plainly, ShowAll, StartAll,
         EndAll;
    match x
    case Chars(text) =>
      NothingPlain(c, models, Start.Val(TextContent, text));
      FaithfulGroup(c, models, s.nodes, Character, Start.Val(TextContent, text));
    case CommentText(text) =>
      NothingPlain(c, models, Start.Val(Tag.Content, text));
      FaithfulGroup(c, models, s.nodes, CommentItem, Start.Val(Tag.Content, text));
    case Instruction(target, data) =>
      InstructionFaithful(c, models, s.nodes, target, data);
    case Nested(e) =>
      var before, env := Now(c, d, s.nodes), Entered(s.env, e);
      NothingToCheck(c, models, Start);
      ContentListFaithful(c, models, false, InsideDefined(c, before, env, e), Shown(Start, env), e.content,
                          |e.content|);
      var inner := ShowInside(c, before, env, e);
      ElementNodesFaithful(c, models, root, before, env, e, inner.nodes);
      FaithfulGroup(c, models, s.nodes, Element, ElementNodes(c, root, before, env, e, inner.nodes));
    case _ =>
  }

  lemma InstructionFaithful(c: Memory, models: Models, f: Nodes, target: string, data: string)
    requires Faithful(c, models, f)
    ensures Faithful(c, models, f.Group(ProcessingInstruction, Start.Val(Target, target).Val(Tag.Content, data)))
  {
    hide Faithful, Nodes.Val, Nodes.Group;
    NothingToCheck(c, models, Start);
    FaithfulVal(c, models, Start, Target, target);
    FaithfulVal(c, models, Start.Val(Target, target), Tag.Content, data);
    FaithfulGroup(c, models, f, ProcessingInstruction, Start.Val(Target, target).Val(Tag.Content, data));
  }

  lemma {:induction false} ContentListFaithful(c: Graph, models: Models, root: bool, d: seq<Obj>, s: Shown,
                                               content: seq<Content>, n: nat)
    requires n <= |content| && Faithful(c, models, s.nodes) && ModelsOk(c, models)
    requires forall i :: 0 <= i < n ==> ModelKnown(models, root, content[i])
    ensures Faithful(c, models, ShowAll(c, root, d, s, content, n).nodes)
    decreases content, n
  {
    hide Faithful, ModelsOk, ShowContent, ModelKnown;
    if n > 0 {
      ContentListFaithful(c, models, root, d, s, content, n - 1);
      ContentFaithful(c, models, root, d, ShowAll(c, root, d, s, content, n - 1), content[n - 1]);
    }
  }

  /** The models reported with the elements that stand directly in the document. */
  function ModelsOf(d: DocumentEvents): Models {
    set i | 0 <= i < |d.content| && d.content[i].Nested? && d.content[i].element.close.model.Some? ::
      d.content[i].element.close.model.value
  }

  lemma ModelsLinked(c: Memory, d: DocumentEvents)
    requires DocumentOk(c, d)
    ensures ModelsOk(c, ModelsOf(d))
    ensures forall i :: 0 <= i < |d.content| ==> ModelKnown(ModelsOf(d), true, d.content[i])
  {
    hide ItemLinked, PsviAttributesLinked;
    forall m, k | m in ModelsOf(d) && 0 <= k < |m| ensures ItemLinked(c, m[k]) {
      var i :| 0 <= i < |d.content| && d.content[i].Nested? && d.content[i].element.close.model == Some(m);
      assert ContentOk(c, d.content[i]);
    }
  }

  lemma DocumentFaithful(c: Graph, d: DocumentEvents)
    requires DocumentOk(c, d)
    ensures Faithful(c, ModelsOf(d), DocumentNodes(c, d).last.children)
  {
    hide Faithful, ModelsOk, ShowAll, AnyVisible, Now, ModelsOf, ModelKnown, DocumentStart, Nodes.Val, Nodes.Group,
         Nodes.Absent, Nodes.Blank, Plainly, ContentOk;
    var models, before, inner := ModelsOf(d), Now(c, [], DocumentStart(d)), DocumentContent(c, d);
    ModelsLinked(c, d);
    NothingToCheck(c, models, Start);
    ContentListFaithful(c, models, true, before, Shown(Start, EmptyEnv()), d.content, |d.content|);
    DocumentStartPlain(d);
    NothingToCheck(c, models, DocumentStart(d));
    FaithfulGroup(c, models, DocumentStart(d), Children, inner.nodes);
    FaithfulBlank(c, models, DocumentStart(d), Children);
    var f0 := if AnyVisible(d.content, |d.content|) then DocumentStart(d).Group(Children, inner.nodes)
              else DocumentStart(d).Blank(Children);
    var f1 := f0.Absent(DocumentElement);
    var f2 := f1.Blank(Notations);
    var f3 := f2.Blank(UnparsedEntities);
    FaithfulVal(c, models, f0, DocumentElement, "");
    FaithfulBlank(c, models, f1, Notations);
    FaithfulBlank(c, models, f2, UnparsedEntities);
    FaithfulVal(c, models, f3, BaseURI, inner.env.baseUri);
    FaithfulVal(c, models, f3.Val(BaseURI, inner.env.baseUri), AllDeclarationsProcessed, "true");
  }

  lemma DocumentStartPlain(d: DocumentEvents)
    ensures Fixed(DocumentStart(d)) == [] && NoSchema(DocumentStart(d))
  {
  }

  // -------------------------------------------------------------------------
  //  What is read from faithful trees is true
  // -------------------------------------------------------------------------

  lemma {:induction false} FaithfulIsTrue(c: Graph, ids: Ids, models: Models, d: seq<Obj>, f: Nodes)
    requires Faithful(c, models, f) && ModelsOk(c, models)
    ensures Truthful(c, ids, models, View(c, ids, d, f))
    decreases Undefined(c, d), f
  {
    hide View, Truthful, TruthfulItem, FaithfulNode, ModelsOk, Contents, Reader.Shown;
    if f.Start? {
      ViewStart(c, ids, d);
      NothingTrue(c, ids, models);
    } else {
      FrontFaithful(c, models, f);
      NowUndefined(c, d, f.front);
      FaithfulIsTrue(c, ids, models, d, f.front);
      ViewMore(c, ids, d, f.front, f.last);
      StepIsTrue(c, ids, models, Now(c, d, f.front), View(c, ids, d, f.front), f.last);
    }
  }

  lemma FrontFaithful(c: Memory, models: Models, f: Nodes)
    requires Faithful(c, models, f) && f.More?
    ensures Faithful(c, models, f.front) && FaithfulNode(c, models, f.last)
  {
  }

  lemma NothingTrue(c: Memory, ids: Ids, models: Models)
    ensures Truthful(c, ids, models, NO_ITEMS)
  {
  }

  lemma NowUndefined(c: Memory, d: seq<Obj>, f: Nodes)
    ensures Undefined(c, Now(c, d, f)) <= Undefined(c, d)
  {
  }

  lemma OneTrue(c: Memory, ids: Ids, models: Models, items: Items, item: Item)
    requires Truthful(c, ids, models, items) && TruthfulItem(c, ids, models, item)
    ensures Truthful(c, ids, models, Reader.Items.More(items, item))
  {
    hide TruthfulItem;
  }

  lemma LineTrue(c: Memory, ids: Ids, models: Models, item: Item)
    requires item.TextElem? || item.EmptyElem?
    ensures TruthfulItem(c, ids, models, item)
  {
  }

  lemma {:induction false} StepIsTrue(c: Graph, ids: Ids, models: Models, d: seq<Obj>, items: Items, n: Node)
    requires Truthful(c, ids, models, items) && FaithfulNode(c, models, n) && ModelsOk(c, models)
    ensures Truthful(c, ids, models, Reader.Shown(ids, items, Step(c, d, n)))
    decreases Undefined(c, d), n, 1
  {
    hide Truthful, TruthfulItem, FaithfulNode, ModelsOk, Contents, View, Expand;
    match n
    case Branch(tag, head, children) => BranchIsTrue(c, ids, models, d, items, tag, head, children);
    case Text(tag, text) =>
      LineTrue(c, ids, models, Reader.TextElem(tag, text));
      OneTrue(c, ids, models, items, Reader.TextElem(tag, text));
    case Nil(tag) =>
      LineTrue(c, ids, models, Reader.EmptyElem(tag, NilAttrs()));
      OneTrue(c, ids, models, items, Reader.EmptyElem(tag, NilAttrs()));
    case Bare(tag) =>
      LineTrue(c, ids, models, Reader.EmptyElem(tag, []));
      OneTrue(c, ids, models, items, Reader.EmptyElem(tag, []));
    case Link(tag, o, _) =>
      LineTrue(c, ids, models, Reader.EmptyElem(tag, RefAttrs(ids, o)));
      OneTrue(c, ids, models, items, Reader.EmptyElem(tag, RefAttrs(ids, o)));
    case Remark(children) => RemarkIsTrue(c, ids, models, d, items, children);
    case Inline(o) => InlineIsTrue(c, ids, models, d, items, o);
    case Mark(_) =>
  }

  lemma {:induction false} RemarkIsTrue(c: Graph, ids: Ids, models: Models, d: seq<Obj>, items: Items, children: Nodes)
    requires Truthful(c, ids, models, items) && FaithfulNode(c, models, Remark(children)) && ModelsOk(c, models)
    ensures Truthful(c, ids, models, Reader.Shown(ids, items, Step(c, d, Remark(children))))
    decreases Undefined(c, d), Remark(children), 0
  {
    hide Truthful, ModelsOk, Expand, Faithful;
    FaithfulIsTrue(c, ids, models, d, children);
    assert TruthfulItem(c, ids, models, Reader.Comment(View(c, ids, d, children)));
    OneTrue(c, ids, models, items, Reader.Comment(View(c, ids, d, children)));
  }

  /** An element is true if its children are, and it describes its component, or tells its model. */
  lemma ElementTrue(c: Memory, ids: Ids, models: Models, tag: Tag, head: Head, children: Items)
    requires Truthful(c, ids, models, children)
    requires head.Named? ==> head.obj in c && Describes(c, ids, c[head.obj], tag, children)
    requires tag.SchemaInformation? ==> exists m :: m in models && SchemaTold(c, ids, m, Kids(children))
    ensures TruthfulItem(c, ids, models, Reader.Elem(tag, HeadAttrs(ids, head), children))
  {
    hide Truthful, Describes, SchemaTold;
  }

  lemma {:induction false} BranchIsTrue(c: Graph, ids: Ids, models: Models, d: seq<Obj>, items: Items, tag: Tag,
                                        head: Head, children: Nodes)
    requires Truthful(c, ids, models, items) && FaithfulNode(c, models, Branch(tag, head, children))
             && ModelsOk(c, models)
    ensures Truthful(c, ids, models, Reader.Shown(ids, items, Step(c, d, Branch(tag, head, children))))
    decreases Undefined(c, d), Branch(tag, head, children), 0
  {
    hide Truthful, TruthfulItem, Expand, Faithful, Contents, Describes, SchemaTold, ItemLinked, NamespaceItemNodes,
         Kids, TagOf;
    var inside := d + HeadObj(head);
    var told := View(c, ids, inside, children);
    MoreUndefined(c, d, HeadObj(head));
    FaithfulIsTrue(c, ids, models, inside, children);
    if head.Named? {
      ContentsDescribe(c, ids, inside, head.obj);
    }
    if tag.SchemaInformation? {
      var m :| m in models && children == NamespaceItemNodes(c, m, |m|);
      SchemaDescribed(c, ids, inside, m, |m|);
      assert m[..|m|] == m;
    }
    ElementTrue(c, ids, models, tag, head, told);
    OneTrue(c, ids, models, items, Reader.Elem(tag, HeadAttrs(ids, head), told));
  }

  lemma MoreUndefined(c: Memory, d: seq<Obj>, more: seq<Obj>)
    ensures Undefined(c, d + more) <= Undefined(c, d)
  {
  }

  lemma {:induction false} InlineIsTrue(c: Graph, ids: Ids, models: Models, d: seq<Obj>, items: Items, o: Obj)
    requires Truthful(c, ids, models, items) && ModelsOk(c, models)
    ensures Truthful(c, ids, models, Reader.Shown(ids, items, Step(c, d, Inline(o))))
    decreases Undefined(c, d), Inline(o), 0
  {
    hide Truthful, TruthfulItem, Expand, Faithful, Contents, Describes, SchemaTold, ModelsOk, TagOf;
    if IsLocal(c, o) && o !in d {
      var told := View(c, ids, d + [o], Contents(c, o));
      UndefinedAfter(c, d, o);
      assert o in Undefined(c, d);
      ContentsFaithful(c, models, o);
      FaithfulIsTrue(c, ids, models, d + [o], Contents(c, o));
      ContentsDescribe(c, ids, d + [o], o);
      ElementTrue(c, ids, models, TagOf(c, o), Named(o), told);
      OneTrue(c, ids, models, items, Reader.Elem(TagOf(c, o), IdAttrs(ids, o), told));
    } else {
      var item := Reader.EmptyElem(TagOf(c, o), RefAttrs(ids, o));
      LineTrue(c, ids, models, item);
      OneTrue(c, ids, models, items, item);
    }
  }

  /**
   * The lines of a document read as one element in which everything is true: each element with an id describes a
   * component that has this id, whether it is defined by itself, inside another component or with the schema, and each
   * schema tells the namespaces of a model that was reported with a root element, with all their components.
   */
  lemma DocumentTrue(c: Graph, ids: Ids, d: DocumentEvents)
    requires DocumentOk(c, d)
    ensures var read := Reader.ReadAll(Reader.Outermost(NO_ITEMS), Render(0, ids, Expand(c, [], DocumentNodes(c, d))));
            && read.Some? && read.value.Outermost? && |Kids(read.value.done)| == 1
            && var root := Kids(read.value.done)[0];
               root.Elem? && root.tag == Document && Truthful(c, ids, ModelsOf(d), root.children)
  {
    hide Reader.ReadAll, Render, RootAttrs, Expand, View, Truthful, Faithful, ModelsOf, ModelsOk, Reader.ShownAll,
         CommentsFlat, DocumentContent, DocumentStart, AnyVisible, ContentOk, ModelKnown;
    var f := DocumentNodes(c, d);
    DocumentFlat(c, d);
    ExpandFlat(c, [], f);
    Reader.ReadRender(Reader.Outermost(NO_ITEMS), ids, Expand(c, [], f));
    DocumentShown(c, ids, f.last.children);
    ModelsLinked(c, d);
    DocumentFaithful(c, d);
    FaithfulIsTrue(c, ids, ModelsOf(d), [], f.last.children);
    ViewIs(c, ids, f.last.children);
  }

  lemma ViewIs(c: Memory, ids: Ids, f: Nodes)
    ensures Reader.ShownAll(ids, NO_ITEMS, Expand(c, [], f)) == View(c, ids, [], f)
  {
  }
}
