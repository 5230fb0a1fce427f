/** The attributes of an annotation or of an element inside one: what the two groups shown for them hold. */
module PsviDomAttributes {
  import opened Options
  import opened PsviOutput
  import opened PsviComponents
  import opened PsviPlans

  /** The places of the first n attributes that are, or are not, namespace declarations. */
  function Chosen(attrs: seq<DomAttr>, n: nat, wanted: bool): (r: seq<nat>)
    requires n <= |attrs|
    ensures forall k :: 0 <= k < |r| ==> r[k] < n
  {
    if n == 0 then []
    else Chosen(attrs, n - 1, wanted) + if IsNamespaceDecl(attrs[n - 1]) == wanted then [n - 1] else []
  }

  /** A group keeps the order of the attributes and holds each one that belongs to it, once. */
  lemma {:induction false} SelectKeepsOrder(attrs: seq<DomAttr>, n: nat, wanted: bool)
    requires n <= |attrs|
    ensures var places, s := Chosen(attrs, n, wanted), Select(attrs, n, wanted);
            && |places| == |s| && (forall k :: 0 <= k < |s| ==> s[k] == attrs[places[k]])
            && (forall j, k :: 0 <= j < k < |places| ==> places[j] < places[k])
            && (forall i :: 0 <= i < n && IsNamespaceDecl(attrs[i]) == wanted ==> i in places)
  {
    if n > 0 {
      SelectKeepsOrder(attrs, n - 1, wanted);
      var before, places := Chosen(attrs, n - 1, wanted), Chosen(attrs, n, wanted);
      assert before <= places;
      forall i | i in before ensures i in places {
        var k :| 0 <= k < |before| && before[k] == i;
        assert places[k] == i;
      }
    }
  }

  lemma {:induction false} SelectPartitions(attrs: seq<DomAttr>, n: nat)
    requires n <= |attrs|
    ensures multiset(Select(attrs, n, false)) + multiset(Select(attrs, n, true)) == multiset(attrs[..n])
    ensures forall a :: a in Select(attrs, n, true) ==> IsNamespaceDecl(a)
    ensures forall a :: a in Select(attrs, n, false) ==> !IsNamespaceDecl(a)
    decreases n
  {
    hide IsNamespaceDecl;
    if n > 0 {
      var last := attrs[n - 1];
      SelectPartitions(attrs, n - 1);
      assert attrs[..n] == attrs[..n - 1] + [last];
      OneMore(attrs[..n - 1], last);
      if IsNamespaceDecl(last) {
        OneMore(Select(attrs, n - 1, true), last);
        assert Select(attrs, n, false) == Select(attrs, n - 1, false);
      } else {
        OneMore(Select(attrs, n - 1, false), last);
        assert Select(attrs, n, true) == Select(attrs, n - 1, true);
      }
    }
  }

  lemma OneMore(s: seq<DomAttr>, a: DomAttr)
    ensures multiset(s + [a]) == multiset(s) + multiset{a}
    ensures forall x :: x in s + [a] <==> x in s || x == a
  {
  }

  // -------------------------------------------------------------------------
  //  Reading the attributes back from the trees
  // -------------------------------------------------------------------------

  function TextOf(n: Node): string {
    if n.Text? then n.text else ""
  }

  /** The texts of sibling trees. */
  function Texts(f: Nodes): seq<string> {
    if f.Start? then [] else Texts(f.front) + [TextOf(f.last)]
  }

  function AttrOfTexts(t: seq<string>): Option<DomAttr> {
    if |t| != 7 then None else Some(DomAttr(t[0], t[1], t[2], t[3], t[4] == "true", t[5]))
  }

  function AttrsShown(f: Nodes): seq<Option<DomAttr>> {
    if f.Start? then []
    else AttrsShown(f.front) + [if f.last.Branch? then AttrOfTexts(Texts(f.last.children)) else None]
  }

  lemma TextsVal(f: Nodes, tag: Tag, text: string)
    ensures Texts(f.Val(tag, text)) == Texts(f) + [text]
  {
  }

  lemma AttrReadsBack(a: DomAttr)
    ensures AttrOfTexts(Texts(DomAttrBody(a))) == Some(a)
  {
    hide Plainly, PlainlyBut, Nodes.Val;
    var f1 := Start.Val(NamespaceName, a.namespace);
    var f2 := f1.Val(LocalName, a.localName);
    var f3 := f2.Val(Prefix, a.prefix);
    var f4 := f3.Val(NormalizedValue, a.value);
    var f5 := f4.Val(Specified, BoolText(a.specified));
    TextsVal(Start, NamespaceName, a.namespace);
    TextsVal(f1, LocalName, a.localName);
    TextsVal(f2, Prefix, a.prefix);
    TextsVal(f3, NormalizedValue, a.value);
    TextsVal(f4, Specified, BoolText(a.specified));
    TextsVal(f5, AttributeType, a.typeName);
    assert Texts(DomAttrBody(a)) == Texts(f5.Val(AttributeType, a.typeName)) + [""];
    assert Texts(Start) == [];
    assert BoolText(a.specified) == "true" <==> a.specified;
  }

  lemma {:induction false} AttrsReadBack(attrs: seq<DomAttr>)
    ensures var shown := AttrsShown(DomAttrNodes(attrs));
            |shown| == |attrs| && forall k :: 0 <= k < |attrs| ==> shown[k] == Some(attrs[k])
    decreases |attrs|
  {
    hide DomAttrBody, Plainly, Quiet, CommentsFlat, Fixed, Texts, AttrOfTexts;
    if attrs != [] {
      AttrsReadBack(attrs[..|attrs| - 1]);
      AttrReadsBack(attrs[|attrs| - 1]);
    }
  }

  /** The attributes in a group's element; an empty tag is an empty group. */
  function GroupShown(n: Node): seq<Option<DomAttr>> {
    if n.Branch? then AttrsShown(n.children) else []
  }

  /** A group shows exactly these attributes, in order, and is opened only if there are any. */
  predicate Shows(n: Node, tag: Tag, attrs: seq<DomAttr>) {
    && (if attrs == [] then n == Bare(tag) else n.Branch? && n.tag == tag && n.head.Plain?)
    && |GroupShown(n)| == |attrs| && forall k :: 0 <= k < |attrs| ==> GroupShown(n)[k] == Some(attrs[k])
  }

  lemma GroupShows(pre: Nodes, tag: Tag, attrs: seq<DomAttr>)
    ensures AttrGroup(pre, tag, attrs).More? && AttrGroup(pre, tag, attrs).front == pre
    ensures Shows(AttrGroup(pre, tag, attrs).last, tag, attrs)
  {
    if attrs == [] {
      assert GroupShown(Bare(tag)) == [];
    } else {
      OpenGroupShows(pre, tag, attrs);
    }
  }

  lemma OpenGroupShows(pre: Nodes, tag: Tag, attrs: seq<DomAttr>)
    requires attrs != []
    ensures AttrGroup(pre, tag, attrs).More? && AttrGroup(pre, tag, attrs).front == pre
    ensures Shows(AttrGroup(pre, tag, attrs).last, tag, attrs)
  {
    hide DomAttrNodes, Plainly, Quiet, CommentsFlat, Fixed, AttrsShown;
    AttrsReadBack(attrs);
  }

  /**
   * The two groups together hold every attribute exactly once, ordinary ones in the first and namespace
   * declarations in the second; SelectKeepsOrder adds that each group keeps their order. The places that stay
   * noted are those of the second group.
   */
  lemma AttributesPartitioned(pre: Nodes, attrs: seq<DomAttr>)
    ensures var r := DomAttributes(pre, attrs);
            var plain, spaces := Select(attrs, |attrs|, false), Select(attrs, |attrs|, true);
            && r.More? && r.front.More? && r.front.front.More? && r.front.front.front == pre
            && Shows(r.front.front.last, Attributes, plain) && Shows(r.front.last, NamespaceAttributes, spaces)
            && r.last == Mark(Chosen(attrs, |attrs|, true))
            && multiset(plain) + multiset(spaces) == multiset(attrs)
            && (forall a :: a in plain ==> !IsNamespaceDecl(a)) && (forall a :: a in spaces ==> IsNamespaceDecl(a))
  {
    hide AttrGroup, Shows, Plainly, Quiet, CommentsFlat, Fixed, Select;
    var plain, spaces := Select(attrs, |attrs|, false), Select(attrs, |attrs|, true);
    SelectPartitions(attrs, |attrs|);
    assert attrs[..|attrs|] == attrs;
    GroupShows(pre, Attributes, plain);
    GroupShows(AttrGroup(pre, Attributes, plain), NamespaceAttributes, spaces);
    IndicesChosen(attrs, |attrs|);
  }

  lemma {:induction false} IndicesChosen(attrs: seq<DomAttr>, n: nat)
    requires n <= |attrs|
    ensures NamespaceIndices(attrs, n) == Chosen(attrs, n, true)
  {
    if n > 0 {
      IndicesChosen(attrs, n - 1);
    }
  }
}
