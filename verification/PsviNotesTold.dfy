/** What an element shows as its namespace attributes: the attributes at the places noted, in order. */
module PsviNotesTold {
  import opened Options
  import opened PsviOutput
  import opened PsviComponents
  import opened PsviExpansion
  import opened PsviEvents
  import opened PsviDocument
  import opened PsviItems
  import opened PsviReports
  import ReadBack = PsviReadBack
  import Names = PsviNamespaces
  import Reader = PsviReader

  /** An attribute that is shown as a namespace declaration, whatever it is. */
  function NoteToTell(a: AttrInfo, schemaSpecified: bool): AttributeReport {
    AttributeReport("http://www.w3.org/2000/xmlns/", a.localName, "xmlns", a.value,
                    if schemaSpecified then "true" else "false", a.attrType, None, [])
  }

  function NotesToTell(infos: seq<AttrInfo>, list: PsviAttributes, notes: seq<nat>, n: nat): (r: seq<AttributeReport>)
    requires n <= |notes| && AllFindable(infos, list, notes)
    ensures |r| == n
    ensures forall k :: 0 <= k < n ==>
              r[k] == NoteToTell(infos[notes[k]], list.ByName(infos[notes[k]]).value.schemaSpecified)
  {
    if n == 0 then []
    else
      assert Findable(infos, list, notes[n - 1]);
      NotesToTell(infos, list, notes, n - 1)
      + [NoteToTell(infos[notes[n - 1]], list.ByName(infos[notes[n - 1]]).value.schemaSpecified)]
  }

  lemma NoteFacts(c: Memory, ids: map<Obj, string>, d: seq<Obj>, a: AttrInfo, schemaSpecified: bool)
    ensures FactsIn(c, ids, d, NoteInfo(a, schemaSpecified))
         == NO_FACTS.Text(NamespaceName, XMLNS_URI).Text(LocalName, a.localName).Text(Prefix, "xmlns")
            .Text(NormalizedValue, a.value).Text(Specified, BoolText(schemaSpecified)).Text(AttributeType, a.attrType)
            .Text(References, "")
  {
    hide FactsIn, Nodes.Val, Nodes.Absent, Facts.Text, BoolText;
    var f1 := Start.Val(NamespaceName, XMLNS_URI);
    var f2 := f1.Val(LocalName, a.localName);
    var f3 := f2.Val(Prefix, "xmlns");
    var f4 := f3.Val(NormalizedValue, a.value);
    var f5 := f4.Val(Specified, BoolText(schemaSpecified));
    ViewStart(c, ids, d);
    OneVal(c, ids, d, Start, NamespaceName, XMLNS_URI);
    OneVal(c, ids, d, f1, LocalName, a.localName);
    OneVal(c, ids, d, f2, Prefix, "xmlns");
    OneVal(c, ids, d, f3, NormalizedValue, a.value);
    OneVal(c, ids, d, f4, Specified, BoolText(schemaSpecified));
    OneVal(c, ids, d, f5, AttributeType, a.attrType);
    OneNil(c, ids, d, f5.Val(AttributeType, a.attrType), References);
  }

  lemma NoteFound(a: AttrInfo, specified: string)
    ensures var f := NO_FACTS.Text(NamespaceName, XMLNS_URI).Text(LocalName, a.localName).Text(Prefix, "xmlns")
                     .Text(NormalizedValue, a.value).Text(Specified, specified).Text(AttributeType, a.attrType)
                     .Text(References, "");
            && f.Get(NamespaceName) == XMLNS_URI && f.Get(LocalName) == a.localName && f.Get(Prefix) == "xmlns"
            && f.Get(NormalizedValue) == a.value && f.Get(Specified) == specified && f.Get(AttributeType) == a.attrType
            && ValidationAttempted !in f.texts && f.comments == []
  {
  }

  lemma NoteDecoded(c: Memory, ids: map<Obj, string>, d: seq<Obj>, a: AttrInfo, schemaSpecified: bool)
    ensures AttributeOf(Reader.Elem(Attribute, [], View(c, ids, d, NoteInfo(a, schemaSpecified))))
         == NoteToTell(a, schemaSpecified)
  {
    hide View, FactsIn, NoteInfo, FactsOf, Facts.Text, Facts.Get, AssessmentOf, ActualsIn;
    NoteFacts(c, ids, d, a, schemaSpecified);
    NoteFound(a, BoolText(schemaSpecified));
    ReadBack.FactsOfView(c, ids, d, NoteInfo(a, schemaSpecified));
    ReadBack.NoComments();
  }

  lemma {:induction false} NotesDecoded(c: Memory, ids: map<Obj, string>, d: seq<Obj>, infos: seq<AttrInfo>,
                                        list: PsviAttributes, notes: seq<nat>, n: nat)
    requires n <= |notes| && AllFindable(infos, list, notes)
    ensures AttributesOf(View(c, ids, d, NoteNodes(infos, list, notes, n))) == NotesToTell(infos, list, notes, n)
    decreases n
  {
    hide View, Now, NoteInfo, AttributesOf, AttributeOf, NoteToTell, Nodes.Group;
    if n == 0 {
      ViewStart(c, ids, d);
      ReadBack.NothingDecoded();
    } else {
      assert Findable(infos, list, notes[n - 1]);
      var front, a := NoteNodes(infos, list, notes, n - 1), infos[notes[n - 1]];
      var specified := list.ByName(a).value.schemaSpecified;
      NotesDecoded(c, ids, d, infos, list, notes, n - 1);
      GroupItem(c, ids, d, front, Attribute, NoteInfo(a, specified));
      ReadBack.OneAttribute(View(c, ids, d, front),
                            Reader.Elem(Attribute, [], View(c, ids, Now(c, d, front), NoteInfo(a, specified))));
      NoteDecoded(c, ids, Now(c, d, front), a, specified);
    }
  }

  lemma PlanFacts(c: Memory, ids: map<Obj, string>, d: seq<Obj>, pre: Nodes, infos: seq<AttrInfo>, list: PsviAttributes,
                  notes: seq<nat>) returns (items: Items)
    requires AllFindable(infos, list, notes)
    ensures FactsIn(c, ids, d, NotesPlan(pre, infos, list, notes))
         == if notes == [] then FactsIn(c, ids, d, pre) else FactsIn(c, ids, d, pre).Part(NamespaceAttributes, items)
    ensures AttributesOf(items) == NotesToTell(infos, list, notes, |notes|) && (notes == [] ==> items == NO_ITEMS)
  {
    hide FactsIn, View, Now, NoteNodes, AttributesOf, NotesToTell, Nodes.Group, Nodes.Blank;
    if notes == [] {
      OneBare(c, ids, d, pre, NamespaceAttributes);
      items := NO_ITEMS;
      ReadBack.NothingDecoded();
    } else {
      OneGroup(c, ids, d, pre, NamespaceAttributes, NoteNodes(infos, list, notes, |notes|));
      items := View(c, ids, Now(c, d, pre), NoteNodes(infos, list, notes, |notes|));
      NotesDecoded(c, ids, Now(c, d, pre), infos, list, notes, |notes|);
    }
  }

  lemma BehindNotes(f: Facts, none: bool, items: Items, namespaces: Items, baseUri: string)
    requires NamespaceAttributes !in f.parts && (none ==> items == NO_ITEMS)
    ensures (if none then f else f.Part(NamespaceAttributes, items)).Part(InScopeNamespaces, namespaces)
            .Text(BaseURI, baseUri).Sub(NamespaceAttributes) == items
  {
    if none {} else {}
  }

  lemma NothingNoted(c: Memory, ids: map<Obj, string>, d: seq<Obj>, s: Names.Scope, e: ElementEvents)
    requires PsviAttributesLinked(c, e.assessed)
    ensures NamespaceAttributes !in
              FactsIn(c, ids, d, AttributesPlan(c, s, ElementName(s, e.localName, e.uri), e.attrs, e.assessed)).parts
  {
    hide FactsIn, AttributesPlan, ElementName, PsviAttributesLinked, Names.PrefixOf;
    ReadBack.NameFacts(c, ids, d, s, e.localName, e.uri);
    ReadBack.AttributesPlanFacts(c, ids, d, s, ElementName(s, e.localName, e.uri), e.attrs, e.assessed);
  }

  /** The namespace attributes shown with an element are its attributes at the places noted. */
  lemma NotedAttributesTold(c: Memory, ids: map<Obj, string>, d: seq<Obj>, env: Env, e: ElementEvents)
    requires Starts(c, d, env, e) && PsviAttributesLinked(c, e.assessed)
    ensures var notes := Noted(c, d, env, e);
            AttributesOf(FactsIn(c, ids, d, HeadOf(c, d, env, e)).Sub(NamespaceAttributes))
            == NotesToTell(e.attrs, e.assessed, notes, |notes|)
  {
    hide FactsIn, View, Now, AttributesPlan, NotesPlan, NamespaceNodes, NotesLeft, ElementName, AttributesOf,
         NotesToTell, Nodes.Val, Nodes.Group, Facts.Part, Facts.Text, Facts.Sub, PsviAttributesLinked,
         Names.PrefixOf, AllFindable;
    var s, notes := env.scope, Noted(c, d, env, e);
    var listed := AttributesPlan(c, s, ElementName(s, e.localName, e.uri), e.attrs, e.assessed);
    var noted := NotesPlan(listed, e.attrs, e.assessed, notes);
    var items := PlanFacts(c, ids, d, listed, e.attrs, e.assessed, notes);
    OneGroup(c, ids, d, noted, InScopeNamespaces, NamespaceNodes(s, |s.uris|));
    OneVal(c, ids, d, noted.Group(InScopeNamespaces, NamespaceNodes(s, |s.uris|)), BaseURI, env.baseUri);
    NothingNoted(c, ids, d, s, e);
    BehindNotes(FactsIn(c, ids, d, listed), notes == [], items,
                View(c, ids, Now(c, d, noted), NamespaceNodes(s, |s.uris|)), env.baseUri);
  }
}
