/** Which references on the lines for a document name an id that stands on one of its lines. */
module PsviReferences {
  import opened PsviOutput
  import opened PsviComponents
  import opened PsviPlans
  import opened PsviUses
  import opened PsviExpansion
  import opened PsviDocument
  import opened PsviSchema
  import opened PsviRoots
  import opened PsviTheorems

  /** Every definition the walk adds is a local component's, or an identity constraint's of one it defines. */
  lemma {:induction false} DefinedOrigin(c: Graph, d: seq<Obj>, f: Nodes, x: Obj)
    requires x in Fixed(Expand(c, d, f))
    ensures x in Fixed(f) || IsLocal(c, x) || OwnerDefined(c, Fixed(Expand(c, d, f)), x)
    decreases Undefined(c, d), f
  {
    var e := Expand(c, d, f.front);
    var d1 := d + Fixed(e);
    assert Undefined(c, d1) <= Undefined(c, d);
    if x in Fixed(e) {
      DefinedOrigin(c, d, f.front, x);
      if OwnerDefined(c, Fixed(e), x) {
        OwnerKept(c, Fixed(e), Fixed(Expand(c, d, f)), x);
      }
    } else {
      StepOrigin(c, d1, f.last, x);
      if OwnerDefined(c, FixedNode(Step(c, d1, f.last)), x) {
        OwnerKept(c, FixedNode(Step(c, d1, f.last)), Fixed(Expand(c, d, f)), x);
      }
    }
  }

  lemma {:induction false} StepOrigin(c: Graph, d: seq<Obj>, n: Node, x: Obj)
    requires x in FixedNode(Step(c, d, n))
    ensures x in FixedNode(n) || IsLocal(c, x) || OwnerDefined(c, FixedNode(Step(c, d, n)), x)
    decreases Undefined(c, d), n
  {
    match n
    case Branch(_, head, children) =>
      var e := d + HeadObj(head);
      assert Undefined(c, e) <= Undefined(c, d);
      if x !in HeadObj(head) {
        DefinedOrigin(c, e, children, x);
        if OwnerDefined(c, Fixed(Expand(c, e, children)), x) {
          OwnerKept(c, Fixed(Expand(c, e, children)), FixedNode(Step(c, d, n)), x);
        }
      }
    case Remark(children) => DefinedOrigin(c, d, children, x);
    case Inline(o) => InlineOrigin(c, d, o, x);
    case _ =>
  }

  lemma InlineMakes(c: Memory, d: seq<Obj>, o: Obj)
    ensures FixedNode(Step(c, d, Inline(o)))
         == if IsLocal(c, o) && o !in d then [o] + Fixed(Expand(c, d + [o], Contents(c, o))) else []
    ensures Fixed(Contents(c, o)) == OwnConstraints(c, o)
  {
    hide Expand, Contents, Fixed;
  }

  lemma {:induction false} InlineOrigin(c: Graph, d: seq<Obj>, o: Obj, x: Obj)
    requires x in FixedNode(Step(c, d, Inline(o)))
    ensures IsLocal(c, x) || OwnerDefined(c, FixedNode(Step(c, d, Inline(o))), x)
    decreases Undefined(c, d), Inline(o), 0
  {
    var e := d + [o];
    var made := Fixed(Expand(c, e, Contents(c, o)));
    InlineMakes(c, d, o);
    hide Expand, Step, Fixed, FixedNode, Contents;
    assert o in Undefined(c, d);
    UndefinedAfter(c, d, o);
    if x != o {
      DefinedOrigin(c, e, Contents(c, o), x);
      if OwnerDefined(c, made, x) {
        OwnerKept(c, made, [o] + made, x);
      } else if x in OwnConstraints(c, o) {
        assert o in [o] + made;
      }
    }
  }

  /** One of the objects s is a local component that owns the identity constraint x. */
  ghost predicate OwnerDefined(c: Memory, s: seq<Obj>, x: Obj) {
    exists o :: o in s && IsLocal(c, o) && x in OwnConstraints(c, o)
  }

  lemma OwnerKept(c: Memory, a: seq<Obj>, b: seq<Obj>, x: Obj)
    requires OwnerDefined(c, a, x) && forall o :: o in a ==> o in b
    ensures OwnerDefined(c, b, x)
  {
    var o :| o in a && IsLocal(c, o) && x in OwnConstraints(c, o);
    assert o in b;
  }

  lemma KeptIn(c: Memory, d: seq<Obj>, f: Nodes, x: Obj)
    requires x in Fixed(f)
    ensures x in Fixed(Expand(c, d, f))
  {
    FixedKept(c, d, f);
    assert x in multiset(Fixed(f));
    assert x in multiset(Fixed(Expand(c, d, f)));
  }

  /** With a local component the walk defines, its identity constraints are defined. */
  lemma {:induction false} OwnedDefined(c: Graph, d: seq<Obj>, f: Nodes, o: Obj, x: Obj)
    requires IsLocal(c, o) && o in Fixed(Expand(c, d, f)) && o !in Fixed(f) && x in OwnConstraints(c, o)
    ensures x in Fixed(Expand(c, d, f))
    decreases Undefined(c, d), f
  {
    var e := Expand(c, d, f.front);
    var d1 := d + Fixed(e);
    assert Undefined(c, d1) <= Undefined(c, d);
    if o in Fixed(e) {
      OwnedDefined(c, d, f.front, o, x);
    } else {
      StepOwned(c, d1, f.last, o, x);
    }
  }

  lemma {:induction false} StepOwned(c: Graph, d: seq<Obj>, n: Node, o: Obj, x: Obj)
    requires IsLocal(c, o) && o in FixedNode(Step(c, d, n)) && o !in FixedNode(n) && x in OwnConstraints(c, o)
    ensures x in FixedNode(Step(c, d, n))
    decreases Undefined(c, d), n
  {
    match n
    case Branch(_, head, children) =>
      var e := d + HeadObj(head);
      assert Undefined(c, e) <= Undefined(c, d);
      OwnedDefined(c, e, children, o, x);
    case Remark(children) => OwnedDefined(c, d, children, o, x);
    case Inline(p) => InlineOwned(c, d, p, o, x);
    case _ =>
  }

  lemma {:induction false} InlineOwned(c: Graph, d: seq<Obj>, p: Obj, o: Obj, x: Obj)
    requires IsLocal(c, o) && o in FixedNode(Step(c, d, Inline(p))) && x in OwnConstraints(c, o)
    ensures x in FixedNode(Step(c, d, Inline(p)))
    decreases Undefined(c, d), Inline(p), 0
  {
    var e := d + [p];
    assert p in Undefined(c, d) && p !in Undefined(c, e);
    assert Undefined(c, e) <= Undefined(c, d);
    if o == p {
      KeptIn(c, e, Contents(c, p), x);
    } else {
      if o in OwnConstraints(c, p) {
        ConstraintNotLocal(c, p, o);
      }
      OwnedDefined(c, e, Contents(c, p), o, x);
    }
  }

  /**
   * Whether the document has a definition of o: of a local component if the roots lead to it, of an identity
   * constraint if its declaration is listed or the roots lead to it, of any other component if it is listed.
   */
  ghost predicate IsDefined(c: Memory, roots: set<Obj>, listed: seq<Obj>, o: Obj) {
    if IsLocal(c, o) then Reachable(c, roots, o)
    else o in listed || OwnerListed(c, listed, o) || OwnerReachable(c, roots, o)
  }

  ghost predicate OwnerListed(c: Memory, list: seq<Obj>, x: Obj) {
    exists o :: o in list && x in OwnConstraints(c, o)
  }

  ghost predicate OwnerReachable(c: Memory, roots: set<Obj>, x: Obj) {
    exists o :: IsLocal(c, o) && Reachable(c, roots, o) && x in OwnConstraints(c, o)
  }

  /**
   * Anonymous types and local declarations are defined exactly if they are in use: validated an attribute as a member
   * type, or are used by a component of the schema models, or by one that is defined for such a reason.
   */
  lemma DefinedIffUsed(c: Graph, d: DocumentEvents, o: Obj)
    requires DocumentOk(c, d) && DocumentRuns(c, d) && forall x :: x in DocumentListed(d) ==> !IsLocal(c, x)
    requires IsLocal(c, o)
    ensures o in Fixed(Expand(c, [], DocumentNodes(c, d))) <==> Reachable(c, DocumentRoots(c, d), o)
  {
    hide Expand, Fixed, DocumentNodes, DocumentRoots, Reachable, DocumentListed, DocumentRuns, ContentOk;
    DocumentUse(c, d);
    LocalDefinedIffReachable(c, d, o);
  }

  lemma {:induction false} ListedIn(c: Memory, list: seq<Obj>, x: Obj)
    ensures x in WithConstraints(c, list) <==> x in list || OwnerListed(c, list, x)
    decreases |list|
  {
    if list != [] {
      var front, last := list[..|list| - 1], list[|list| - 1];
      assert list == front + [last];
      ListedIn(c, front, x);
      if x in OwnConstraints(c, last) {
        assert last in list;
      }
      if OwnerListed(c, front, x) {
        var o :| o in front && x in OwnConstraints(c, o);
        assert o in list;
      }
    }
  }

  lemma DefinedIff(c: Graph, d: DocumentEvents, o: Obj)
    requires DocumentOk(c, d) && forall x :: x in DocumentListed(d) ==> !IsLocal(c, x)
    ensures o in Fixed(Expand(c, [], DocumentNodes(c, d))) <==>
              IsDefined(c, LocalUses(c, DocumentNodes(c, d)), DocumentListed(d), o)
  {
    if IsLocal(c, o) {
      LocalDefinedIffReachable(c, d, o);
    } else {
      hide Expand, Fixed, DocumentNodes, WithConstraints, Listed, RootItems, ContentOk, Reachable,
           DocumentListed, OwnConstraints;
      var f, list := DocumentNodes(c, d), DocumentListed(d);
      DocumentFixed(c, d);
      ListedIn(c, list, o);
      if o in Fixed(Expand(c, [], f)) {
        DefinedOrigin(c, [], f, o);
        if OwnerDefined(c, Fixed(Expand(c, [], f)), o) {
          var p :| p in Fixed(Expand(c, [], f)) && IsLocal(c, p) && o in OwnConstraints(c, p);
          LocalDefinedIffReachable(c, d, p);
        }
      }
      if o in Fixed(f) {
        KeptIn(c, [], f, o);
      }
      if OwnerReachable(c, LocalUses(c, f), o) {
        var p :| IsLocal(c, p) && Reachable(c, LocalUses(c, f), p) && o in OwnConstraints(c, p);
        ReachedOwner(c, d, p, o);
      }
    }
  }

  lemma ReachedOwner(c: Graph, d: DocumentEvents, p: Obj, x: Obj)
    requires DocumentOk(c, d) && forall x :: x in DocumentListed(d) ==> !IsLocal(c, x)
    requires IsLocal(c, p) && Reachable(c, LocalUses(c, DocumentNodes(c, d)), p) && x in OwnConstraints(c, p)
    ensures x in Fixed(Expand(c, [], DocumentNodes(c, d)))
  {
    hide Expand, Fixed, DocumentNodes, WithConstraints, Listed, RootItems, ContentOk, Reachable, DocumentListed;
    LocalDefinedIffReachable(c, d, p);
    DocumentFixed(c, d);
    if p in Fixed(DocumentNodes(c, d)) {
      ConstraintsOrigin(c, DocumentListed(d), p);
      var o :| o in DocumentListed(d) && p in OwnConstraints(c, o);
      ConstraintNotLocal(c, o, p);
    }
    OwnedDefined(c, [], DocumentNodes(c, d), p, x);
  }

  /**
   * On the lines for a document, a reference names an id that stands on some line, and that id belongs to the
   * same object, exactly if the document defines the object. If it is shown to the end,
   * its roots are read off its events.
   */
  lemma ReferenceResolvesIff(c: Graph, ids: map<Obj, string>, d: DocumentEvents, k: nat)
    requires DocumentOk(c, d) && forall x :: x in DocumentListed(d) ==> !IsLocal(c, x)
    requires var m := Mentions(Expand(c, [], DocumentNodes(c, d))); k < |m| && m[k].Use?
    ensures var f := Expand(c, [], DocumentNodes(c, d));
            var shown, m := IdsShown(Render(0, ids, f)), Mentions(f);
            && |shown| == |m| && shown[k].name == Ref
            && (IsDefined(c, LocalUses(c, DocumentNodes(c, d)), DocumentListed(d), m[k].obj) <==>
                exists j :: 0 <= j < |m| && m[j] == Def(m[k].obj) && shown[j] == Attr(Id, shown[k].value))
    ensures DocumentRuns(c, d) ==> LocalUses(c, DocumentNodes(c, d)) == DocumentRoots(c, d)
  {
    hide IdsShown, Render, Expand, DocumentNodes, Mentions, IsDefined, DocumentListed, ContentOk, MentionAttrs,
         LocalUses, DocumentRoots, DocumentRuns;
    var f := Expand(c, [], DocumentNodes(c, d));
    if DocumentRuns(c, d) {
      DocumentUse(c, d);
    }
    var m := Mentions(f);
    RenderShowsMentions(0, ids, f);
    DefinedIff(c, d, m[k].obj);
    MentionsDefine(f, m[k].obj);
    if Def(m[k].obj) in m {
      var j :| 0 <= j < |m| && m[j] == Def(m[k].obj);
      assert MentionAttrs(ids, m)[j] == MentionAttr(ids, m[j]) == Attr(Id, IdOf(ids, m[k].obj));
      assert MentionAttrs(ids, m)[k] == MentionAttr(ids, m[k]);
    }
  }
}
