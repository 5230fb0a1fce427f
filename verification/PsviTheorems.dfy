/** The main results about the definitions and references in the output for a document. */
module PsviTheorems {
  import opened PsviOutput
  import opened PsviComponents
  import opened PsviPlans
  import opened PsviUses
  import opened PsviExpansion
  import opened PsviEvents
  import opened PsviDocument
  import opened PsviSchema
  import opened PsviIds
  import opened PsviRequests
  import Stops = PsviStops

  // -------------------------------------------------------------------------
  //  No component is defined twice
  // -------------------------------------------------------------------------

  lemma DistinctCount(s: seq<Obj>)
    ensures Distinct(s) <==> forall x :: multiset(s)[x] <= 1
    decreases |s|
  {
    if s != [] {
      var front, last := s[..|s| - 1], s[|s| - 1];
      assert s == front + [last];
      DistinctCount(front);
      DistinctAppend(front, [last]);
      if Distinct(s) {
        forall x ensures multiset(s)[x] <= 1 {
          assert multiset(s)[x] == multiset(front)[x] + multiset([last])[x];
          assert x in multiset(front) <==> x in front;
        }
      }
      if forall x :: multiset(s)[x] <= 1 {
        assert forall x :: multiset(front)[x] <= multiset(s)[x];
        assert multiset(s)[last] == multiset(front)[last] + 1;
        assert last in front <==> last in multiset(front);
      }
    }
  }

  lemma FewerDistinct(a: seq<Obj>, b: seq<Obj>)
    requires multiset(a) <= multiset(b) && Distinct(b)
    ensures Distinct(a)
  {
    DistinctCount(a);
    DistinctCount(b);
  }

  /** The walk drops none of the definitions the trees ask for. */
  lemma {:induction false} FixedKept(c: Memory, d: seq<Obj>, f: Nodes)
    ensures multiset(Fixed(f)) <= multiset(Fixed(Expand(c, d, f)))
    decreases f
  {
    if f.More? {
      FixedKept(c, d, f.front);
      var d1 := d + Fixed(Expand(c, d, f.front));
      match f.last
      case Branch(_, head, children) => FixedKept(c, d1 + HeadObj(head), children);
      case Remark(children) => FixedKept(c, d1, children);
      case _ =>
    }
  }

  lemma LongerKept(a: seq<Obj>, b: seq<Obj>, x: Obj, more: seq<Obj>)
    requires multiset(a) <= multiset(b)
    ensures multiset(a + [x]) <= multiset(b + ([x] + more))
  {
    assert multiset(b + ([x] + more)) == multiset(b) + multiset([x]) + multiset(more);
  }

  lemma {:induction false} ListKept(c: Memory, list: seq<Obj>)
    ensures multiset(list) <= multiset(WithConstraints(c, list))
    decreases |list|
  {
    if list != [] {
      var front, last := list[..|list| - 1], list[|list| - 1];
      ListKept(c, front);
      assert list == front + [last];
      LongerKept(front, WithConstraints(c, front), last, OwnConstraints(c, last));
    }
  }

  lemma {:induction false} ConstraintsOrigin(c: Memory, list: seq<Obj>, x: Obj)
    requires x in WithConstraints(c, list)
    ensures x in list || exists o :: o in list && x in OwnConstraints(c, o)
    decreases |list|
  {
    var last := list[|list| - 1];
    if x in WithConstraints(c, list[..|list| - 1]) {
      ConstraintsOrigin(c, list[..|list| - 1], x);
    } else {
      assert last in list;
    }
  }

  /** The listed objects are components, and not identity constraints. */
  ghost predicate Proper(c: Memory, list: seq<Obj>) {
    forall x :: x in list ==> x in c && !IsConstraint(c, x)
  }

  lemma {:induction false} DistinctWithConstraints(c: Graph, list: seq<Obj>)
    requires OneOwner(c) && Proper(c, list) && Distinct(list)
    ensures Distinct(WithConstraints(c, list))
    decreases |list|
  {
    if list != [] {
      var front, last := list[..|list| - 1], list[|list| - 1];
      var before, own := WithConstraints(c, front), OwnConstraints(c, last);
      assert list == front + [last];
      DistinctAppend(front, [last]);
      DistinctWithConstraints(c, front);
      forall x | x in own ensures IsConstraint(c, x) { ConstraintNotLocal(c, last, x); }
      forall x | x in before ensures x != last && x !in own {
        ConstraintsOrigin(c, front, x);
        if x !in front {
          var o :| o in front && x in OwnConstraints(c, o);
          ConstraintNotLocal(c, o, x);
        }
      }
      DistinctAppend([last], own);
      DistinctAppend(before, [last] + own);
    }
  }

  lemma GlobalsCanDefine(c: Graph, list: seq<Obj>)
    requires OneOwner(c) && Proper(c, list) && Distinct(list) && forall x :: x in list ==> !IsLocal(c, x)
    ensures CanDefine(c, [], WithConstraints(c, list))
  {
    var given := WithConstraints(c, list);
    DistinctWithConstraints(c, list);
    assert [] + given == given;
    forall x | x in given ensures !IsLocal(c, x) {
      ConstraintsOrigin(c, list, x);
      if x !in list {
        var o :| o in list && x in OwnConstraints(c, o);
        ConstraintNotLocal(c, o, x);
      }
    }
    forall o, x | IsLocal(c, o) && o !in [] && x in OwnConstraints(c, o) ensures x !in given {
      if x in given {
        ConstraintNotLocal(c, o, x);
        ConstraintsOrigin(c, list, x);
      }
    }
  }

  lemma {:induction false} RootsProper(c: Memory, content: seq<Content>, n: nat)
    requires n <= |content| && forall i :: 0 <= i < |content| ==> ContentOk(c, content[i])
    ensures forall i :: 0 <= i < |RootItems(content, n)| ==> ItemLinked(c, RootItems(content, n)[i])
    decreases n
  {
    hide ItemLinked;
    if n > 0 {
      RootsProper(c, content, n - 1);
      assert ContentOk(c, content[n - 1]);
    }
  }

  lemma ItemProper(c: Memory, item: NamespaceItem)
    requires ItemLinked(c, item)
    ensures Proper(c, ItemListed(item))
  {
  }

  lemma {:induction false} ListedProper(c: Memory, items: seq<NamespaceItem>, n: nat)
    requires n <= |items| && forall i :: 0 <= i < |items| ==> ItemLinked(c, items[i])
    ensures Proper(c, Listed(items, n))
    decreases n
  {
    hide ItemLinked, ItemListed;
    if n > 0 {
      ListedProper(c, items, n - 1);
      ItemProper(c, items[n - 1]);
    }
  }

  lemma OnceIffListedOnce(c: Graph, d: DocumentEvents)
    requires DocumentOk(c, d) && OneOwner(c)
    requires forall x :: x in DocumentListed(d) ==> !IsLocal(c, x)
    ensures Distinct(Fixed(Expand(c, [], DocumentNodes(c, d)))) <==> Distinct(DocumentListed(d))
  {
    hide Expand, Fixed, DocumentNodes, WithConstraints, OneOwner, CanDefine, Listed, RootItems, ContentOk,
         Distinct;
    var f, list := DocumentNodes(c, d), DocumentListed(d);
    var made := Fixed(Expand(c, [], f));
    DocumentFixed(c, d);
    if Distinct(list) {
      RootsProper(c, d.content, |d.content|);
      ListedProper(c, RootItems(d.content, |d.content|), |RootItems(d.content, |d.content|)|);
      GlobalsCanDefine(c, list);
      ExpandOnce(c, [], f);
      assert [] + made == made;
    }
    if Distinct(made) {
      FixedKept(c, [], f);
      FewerDistinct(WithConstraints(c, list), made);
      ListKept(c, list);
      FewerDistinct(list, WithConstraints(c, list));
    }
  }

  // -------------------------------------------------------------------------
  //  Which local components a document defines
  // -------------------------------------------------------------------------

  /** Anonymous types and local declarations are defined exactly if they are in use somewhere in the output. */
  lemma LocalDefinedIffReachable(c: Graph, d: DocumentEvents, o: Obj)
    requires DocumentOk(c, d) && forall x :: x in DocumentListed(d) ==> !IsLocal(c, x)
    requires IsLocal(c, o)
    ensures o in Fixed(Expand(c, [], DocumentNodes(c, d))) <==> Reachable(c, LocalUses(c, DocumentNodes(c, d)), o)
  {
    hide Expand, Fixed, DocumentNodes, WithConstraints, Listed, RootItems, ContentOk, Reachable;
    var list := DocumentListed(d);
    DocumentFixed(c, d);
    forall x | x in WithConstraints(c, list) ensures !IsLocal(c, x) {
      ConstraintsOrigin(c, list, x);
      if x !in list {
        var p :| p in list && x in OwnConstraints(c, p);
        ConstraintNotLocal(c, p, x);
      }
    }
    DefinedIffReachable(c, DocumentNodes(c, d), o);
  }

  // -------------------------------------------------------------------------
  //  References name ids on earlier lines
  // -------------------------------------------------------------------------

  /** The id and ref attributes on the lines, in order. */
  function IdsShown(lines: seq<Token>): seq<Attr> {
    if lines == [] then [] else IdsShown(lines[..|lines| - 1]) + IdsOnLine(lines[|lines| - 1])
  }

  function IdsOnLine(line: Token): seq<Attr> {
    if line.Open? || line.Empty? then IdAttributes(line.attrs) else []
  }

  function IdAttributes(attrs: seq<Attr>): seq<Attr> {
    if attrs == [] then []
    else
      var last := attrs[|attrs| - 1];
      IdAttributes(attrs[..|attrs| - 1]) + if last.name.Id? || last.name.Ref? then [last] else []
  }

  function MentionAttr(ids: map<Obj, string>, m: Mention): Attr {
    Attr(if m.Def? then Id else Ref, IdOf(ids, m.obj))
  }

  function MentionAttrs(ids: map<Obj, string>, m: seq<Mention>): (r: seq<Attr>)
    ensures |r| == |m| && forall k :: 0 <= k < |m| ==> r[k] == MentionAttr(ids, m[k])
  {
    if m == [] then [] else MentionAttrs(ids, m[..|m| - 1]) + [MentionAttr(ids, m[|m| - 1])]
  }

  lemma {:induction false} IdsShownAppend(a: seq<Token>, b: seq<Token>)
    ensures IdsShown(a + b) == IdsShown(a) + IdsShown(b)
    decreases |b|
  {
    if b == [] {
      assert a + b == a;
    } else {
      IdsShownAppend(a, b[..|b| - 1]);
      assert (a + b)[..|a + b| - 1] == a + b[..|b| - 1] && (a + b)[|a + b| - 1] == b[|b| - 1];
      var last := IdsOnLine(b[|b| - 1]);
      assert (IdsShown(a) + IdsShown(b[..|b| - 1])) + last == IdsShown(a) + (IdsShown(b[..|b| - 1]) + last);
    }
  }

  lemma OneLine(line: Token)
    ensures IdsShown([line]) == IdsOnLine(line)
  {
    assert [line][..0] == [];
  }

  lemma OneAttr(a: Attr)
    ensures IdAttributes([a]) == if a.name.Id? || a.name.Ref? then [a] else []
  {
    assert [a][..0] == [];
  }

  lemma RootHasNoIds()
    ensures IdAttributes(RootAttrs()) == []
  {
    var a := RootAttrs();
    OneAttr(a[0]);
    assert a[..2][..1] == [a[0]] && a[..2][1] == a[1];
    assert IdAttributes(a[..2]) == [];
  }

  lemma RefLine(ids: map<Obj, string>, o: Obj)
    ensures IdAttributes(RefAttrs(ids, o)) == [Attr(Ref, IdOf(ids, o))]
  {
    var a := RefAttrs(ids, o);
    OneAttr(a[0]);
    assert a[..1] == [a[0]];
  }

  lemma HeadIds(ids: map<Obj, string>, h: Head)
    ensures IdAttributes(HeadAttrs(ids, h)) == if h.Named? then [Attr(Id, IdOf(ids, h.obj))] else []
  {
    if h.Root? {
      RootHasNoIds();
    } else if h.Named? {
      OneAttr(Attr(Id, IdOf(ids, h.obj)));
    }
  }

  lemma MentionAttrsAppend(ids: map<Obj, string>, a: seq<Mention>, b: seq<Mention>)
    ensures MentionAttrs(ids, a + b) == MentionAttrs(ids, a) + MentionAttrs(ids, b)
  {
  }

  /** The ids and refs on the lines are those of the trees, in order. */
  lemma {:induction false} RenderShowsMentions(i: nat, ids: map<Obj, string>, f: Nodes)
    ensures IdsShown(Render(i, ids, f)) == MentionAttrs(ids, Mentions(f))
    decreases f, 1
  {
    hide IdsShown, MentionAttrs;
    if f.More? {
      RenderShowsMentions(i, ids, f.front);
      NodeShowsMentions(i, ids, f.last);
      IdsShownAppend(Render(i, ids, f.front), RenderNode(i, ids, f.last));
      MentionAttrsAppend(ids, Mentions(f.front), MentionsNode(f.last));
    } else {
      NothingShownHere(ids);
    }
  }

  lemma NothingShownHere(ids: map<Obj, string>)
    ensures IdsShown([]) == [] && MentionAttrs(ids, []) == []
  {
  }

  lemma {:induction false} NodeShowsMentions(i: nat, ids: map<Obj, string>, n: Node)
    ensures IdsShown(RenderNode(i, ids, n)) == MentionAttrs(ids, MentionsNode(n))
    decreases n, 0
  {
    hide IdsShown, MentionAttrs, Render, Mentions, RenderNode;
    match n
    case Branch(tag, head, children) =>
      RenderShowsMentions(i + 1, ids, children);
      BranchMentions(i, ids, tag, head, children);
    case Remark(children) =>
      RenderShowsMentions(i + 1, ids, children);
      RemarkMentions(i, ids, children);
    case _ => LineShowsMentions(i, ids, n);
  }

  lemma LineShowsMentions(i: nat, ids: map<Obj, string>, n: Node)
    requires !n.Branch? && !n.Remark?
    ensures IdsShown(RenderNode(i, ids, n)) == MentionAttrs(ids, MentionsNode(n))
  {
    hide IdsShown, MentionAttrs, IdAttributes, RefAttrs, NilAttrs;
    NothingShownHere(ids);
    match n
    case Link(tag, o, back) => LinkShows(i, ids, tag, o, back);
    case Text(tag, text) => OneLine(Value(i, tag, text));
    case Nil(tag) =>
      NoAttr();
      OneLine(Empty(i, tag, NilAttrs()));
    case Bare(tag) =>
      NoAttr();
      OneLine(Empty(i, tag, []));
    case Inline(_) =>
    case Mark(_) =>
  }

  lemma LinkShows(i: nat, ids: map<Obj, string>, tag: Tag, o: Obj, back: bool)
    ensures IdsShown([Empty(i, tag, RefAttrs(ids, o))]) == MentionAttrs(ids, [Use(o, back)])
  {
    hide IdsShown, MentionAttrs, IdAttributes, RefAttrs;
    RefLine(ids, o);
    OneLine(Empty(i, tag, RefAttrs(ids, o)));
    OneMention(ids, Use(o, back));
  }

  lemma OneMention(ids: map<Obj, string>, m: Mention)
    ensures MentionAttrs(ids, [m]) == [MentionAttr(ids, m)]
  {
  }

  lemma NoAttr()
    ensures IdAttributes([]) == [] && IdAttributes(NilAttrs()) == []
  {
    OneAttr(NilAttrs()[0]);
  }

  lemma BranchMentions(i: nat, ids: map<Obj, string>, tag: Tag, head: Head, children: Nodes)
    requires IdsShown(Render(i + 1, ids, children)) == MentionAttrs(ids, Mentions(children))
    ensures IdsShown(RenderNode(i, ids, Branch(tag, head, children)))
         == MentionAttrs(ids, MentionsNode(Branch(tag, head, children)))
  {
    hide IdsShown, IdAttributes, HeadAttrs, Render, Mentions;
    var open, close := Open(i, tag, HeadAttrs(ids, head)), Close(i, tag);
    HeadIds(ids, head);
    OneLine(open);
    OneLine(close);
    IdsShownAppend([open], Render(i + 1, ids, children));
    IdsShownAppend([open] + Render(i + 1, ids, children), [close]);
    MentionAttrsAppend(ids, if head.Named? then [Def(head.obj)] else [], Mentions(children));
  }

  lemma RemarkMentions(i: nat, ids: map<Obj, string>, children: Nodes)
    requires IdsShown(Render(i + 1, ids, children)) == MentionAttrs(ids, Mentions(children))
    ensures IdsShown(RenderNode(i, ids, Remark(children))) == MentionAttrs(ids, Mentions(children))
  {
    hide IdsShown, Render, Mentions;
    OneLine(CommentStart(i));
    OneLine(CommentEnd(i));
    IdsShownAppend([CommentStart(i)], Render(i + 1, ids, children));
    IdsShownAppend([CommentStart(i)] + Render(i + 1, ids, children), [CommentEnd(i)]);
  }

  // -------------------------------------------------------------------------
  //  Ids on the lines
  // -------------------------------------------------------------------------

  /** The objects whose definitions are mentioned, in order. */
  function Defs(m: seq<Mention>): seq<Obj> {
    if m == [] then [] else Defs(m[..|m| - 1]) + if m[|m| - 1].Def? then [m[|m| - 1].obj] else []
  }

  lemma {:induction false} DefsAppend(a: seq<Mention>, b: seq<Mention>)
    ensures Defs(a + b) == Defs(a) + Defs(b)
    decreases |b|
  {
    if b == [] {
      assert a + b == a;
    } else {
      DefsAppend(a, b[..|b| - 1]);
      assert (a + b)[..|a + b| - 1] == a + b[..|b| - 1] && (a + b)[|a + b| - 1] == b[|b| - 1];
    }
  }

  /** The definitions among the mentions are the objects the trees define, in order and as often. */
  lemma {:induction false} MentionedDefinitions(f: Nodes)
    ensures Defs(Mentions(f)) == Fixed(f)
    decreases f
  {
    if f.More? {
      MentionedDefinitions(f.front);
      NodeDefinitions(f.last);
      DefsAppend(Mentions(f.front), MentionsNode(f.last));
    }
  }

  lemma {:induction false} NodeDefinitions(n: Node)
    ensures Defs(MentionsNode(n)) == FixedNode(n)
    decreases n
  {
    match n
    case Branch(_, head, children) =>
      MentionedDefinitions(children);
      var own := if head.Named? then [Def(head.obj)] else [];
      assert own[..0] == [];
      DefsAppend(own, Mentions(children));
    case Link(_, o, back) => assert [Use(o, back)][..0] == [];
    case Remark(children) => MentionedDefinitions(children);
    case _ =>
  }

  /** No object is defined twice among the mentions. */
  predicate DefinedOnceIn(m: seq<Mention>) {
    forall i, j :: 0 <= i < j < |m| && m[i].Def? && m[j].Def? ==> m[i].obj != m[j].obj
  }

  lemma {:induction false} InDefs(m: seq<Mention>, o: Obj)
    ensures o in Defs(m) <==> Def(o) in m
  {
    if m != [] {
      InDefs(m[..|m| - 1], o);
      assert m == m[..|m| - 1] + [m[|m| - 1]];
    }
  }

  lemma {:induction false} DistinctDefs(m: seq<Mention>)
    ensures Distinct(Defs(m)) <==> DefinedOnceIn(m)
    decreases |m|
  {
    if m != [] {
      var front, last := m[..|m| - 1], m[|m| - 1];
      DistinctDefs(front);
      if last.Def? {
        InDefs(front, last.obj);
        DistinctAppend(Defs(front), [last.obj]);
        LastDefinition(m);
      } else {
        assert Defs(m) == Defs(front);
      }
    }
  }

  lemma LastDefinition(m: seq<Mention>)
    requires m != [] && m[|m| - 1].Def?
    ensures DefinedOnceIn(m) <==> DefinedOnceIn(m[..|m| - 1]) && m[|m| - 1] !in m[..|m| - 1]
  {
    var front, last := m[..|m| - 1], m[|m| - 1];
    if last in front {
      var i :| 0 <= i < |front| && front[i] == last;
      assert m[i] == last;
    }
  }

  /**
   * On the lines for a document, the id attributes stand for the definitions, in order, and an object has two
   * of them if and only if the schema models shown list it twice. The models list only named or global
   * components, and an identity constraint belongs to one element declaration.
   */
  lemma DefinedOnceIffListedOnce(c: Graph, ids: map<Obj, string>, d: DocumentEvents)
    requires DocumentOk(c, d) && OneOwner(c)
    requires forall x :: x in DocumentListed(d) ==> !IsLocal(c, x)
    ensures var f := Expand(c, [], DocumentNodes(c, d));
            var shown, m := IdsShown(Render(0, ids, f)), Mentions(f);
            && |shown| == |m|
            && (forall k :: 0 <= k < |m| ==> shown[k] == MentionAttr(ids, m[k]))
            && ((forall i, j :: 0 <= i < j < |m| && shown[i].name == Id && shown[j].name == Id ==> m[i].obj != m[j].obj)
                <==> Distinct(DocumentListed(d)))
  {
    hide Expand, Fixed, DocumentNodes, WithConstraints, OneOwner, CanDefine, Listed, RootItems, ContentOk,
         Distinct, IdsShown, Mentions, Render, MentionAttrs, DocumentListed;
    var f := Expand(c, [], DocumentNodes(c, d));
    RenderShowsMentions(0, ids, f);
    OnceIffListedOnce(c, d);
    MentionedDefinitions(f);
    DistinctDefs(Mentions(f));
  }

  /**
   * In the lines for a document, every reference printed for an anonymous type or a local declaration
   * carries the very string of an id printed before it, and that id belongs to the same object.
   */
  lemma RefsNameEarlierIds(c: Memory, ids: map<Obj, string>, d: DocumentEvents, k: nat)
    requires k < |Mentions(Expand(c, [], DocumentNodes(c, d)))|
    requires var m := Mentions(Expand(c, [], DocumentNodes(c, d)))[k]; m.Use? && m.back
    ensures var f := Expand(c, [], DocumentNodes(c, d));
            var shown := IdsShown(Render(0, ids, f));
            && |shown| == |Mentions(f)| && shown[k].name == Ref
            && exists j :: 0 <= j < k && shown[j] == Attr(Id, shown[k].value)
                           && Mentions(f)[j] == Def(Mentions(f)[k].obj)
  {
    hide IdsShown, Render, Expand, DocumentNodes, Mentions;
    var f := Expand(c, [], DocumentNodes(c, d));
    var m := Mentions(f);
    RenderShowsMentions(0, ids, f);
    ReferencesResolve(c, [], DocumentNodes(c, d));
    assert Def(m[k].obj) in m[..k];
    var j :| 0 <= j < k && m[j] == Def(m[k].obj);
    assert MentionAttrs(ids, m)[j] == Attr(Id, IdOf(ids, m[k].obj));
  }

  /**
   * Two anonymous types that both have an id on the lines for a document have different ones there; the
   * table is the one the writer hands out with the lines.
   */
  lemma AnonymousIdsOnLinesDiffer(c: Memory, table: IdTable, d: DocumentEvents, j: nat, k: nat)
    requires TableOk(c, table) && Known(table.ids, Expand(c, [], DocumentNodes(c, d)))
    requires var m := Mentions(Expand(c, [], DocumentNodes(c, d)));
             j < |m| && k < |m| && IsNumbered(c, m[j].obj) && IsNumbered(c, m[k].obj) && m[j].obj != m[k].obj
    ensures var shown := IdsShown(Render(0, table.ids, Expand(c, [], DocumentNodes(c, d))));
            j < |shown| && k < |shown| && shown[j].value != shown[k].value
  {
    hide IdsShown, Render, Expand, DocumentNodes, Mentions, TableOk, IsNumbered;
    var f := Expand(c, [], DocumentNodes(c, d));
    var m := Mentions(f);
    RenderShowsMentions(0, table.ids, f);
    MentionsKnown(table.ids, f, m[j]);
    MentionsKnown(table.ids, f, m[k]);
    AnonymousIdsDiffer(c, table, m[j].obj, m[k].obj);
    assert MentionAttrs(table.ids, m)[j] == MentionAttr(table.ids, m[j]);
    assert MentionAttrs(table.ids, m)[k] == MentionAttr(table.ids, m[k]);
  }

  /** The prefix that an object's namespace has where the document first mentions the object. */
  function FirstPrefix(c: Memory, d: DocumentEvents, o: Obj): string {
    var k := FirstMention(RequestsOf(c, d), o);
    if k < |RequestsOf(c, d)| then RequestsOf(c, d)[k].prefix else ""
  }

  /**
   * Two different objects with plain names and prefixes that are mentioned on the lines for a document have the
   * same string there exactly if their ids take no number and have the same kind and name, and the same prefix,
   * each where the document mentions it first.
   */
  lemma SameIdOnLinesIff(c: Memory, d: DocumentEvents, j: nat, k: nat)
    requires DocumentRuns(c, d)
    requires var m := Mentions(Expand(c, [], DocumentNodes(c, d)));
             j < |m| && k < |m| && m[j].obj != m[k].obj &&
             forall o :: o in [m[j].obj, m[k].obj] ==> o in c && PlainlyNamed(c[o], FirstPrefix(c, d, o))
    ensures var ids, f := DocumentTable(c, d).ids, Expand(c, [], DocumentNodes(c, d));
            var shown, o, p := IdsShown(Render(0, ids, f)), Mentions(f)[j].obj, Mentions(f)[k].obj;
            && |shown| == |Mentions(f)| && o in ids && p in ids
            && (shown[j].value == shown[k].value <==>
                SameLabel(c[o], FirstPrefix(c, d, o), c[p], FirstPrefix(c, d, p)))
  {
    hide IdsShown, Render, Expand, DocumentNodes, Mentions, PlainlyNamed, SameLabel, RequestsOf, DocumentRuns, MintAll;
    var ids, f := DocumentTable(c, d).ids, Expand(c, [], DocumentNodes(c, d));
    var m := Mentions(f);
    RenderShowsMentions(0, ids, f);
    RequestOfMention(c, d, j);
    RequestOfMention(c, d, k);
    SameIdIff(c, RequestsOf(c, d), m[j].obj, m[k].obj);
    assert MentionAttrs(ids, m)[j] == MentionAttr(ids, m[j]);
    assert MentionAttrs(ids, m)[k] == MentionAttr(ids, m[k]);
  }

  lemma RequestOfMention(c: Memory, d: DocumentEvents, k: nat)
    requires k < |Mentions(Expand(c, [], DocumentNodes(c, d)))|
    ensures var o := Mentions(Expand(c, [], DocumentNodes(c, d)))[k].obj;
            FirstMention(RequestsOf(c, d), o) <= k < |RequestsOf(c, d)|
  {
    hide Expand, DocumentNodes, Mentions, Mentioned, RequestsOf;
    Stops.RequestsAreMentions(c, d);
    MentionedObjects(Expand(c, [], DocumentNodes(c, d)));
    assert RequestsOf(c, d)[k].obj == Objects(RequestsOf(c, d))[k];
  }

  lemma {:induction false} MentionedObjects(f: Nodes)
    ensures |Mentioned(f)| == |Mentions(f)|
    ensures forall k :: 0 <= k < |Mentions(f)| ==> Mentioned(f)[k] == Mentions(f)[k].obj
    decreases f
  {
    if f.More? {
      MentionedObjects(f.front);
      if f.last.Branch? || f.last.Remark? {
        MentionedObjects(f.last.children);
      }
    }
  }

  lemma {:induction false} MentionsKnown(ids: map<Obj, string>, f: Nodes, m: Mention)
    requires Known(ids, f) && m in Mentions(f)
    ensures m.obj in ids
    decreases f
  {
    if m in Mentions(f.front) {
      MentionsKnown(ids, f.front, m);
    } else if (f.last.Branch? || f.last.Remark?) && m in Mentions(f.last.children) {
      MentionsKnown(ids, f.last.children, m);
    }
  }
}
