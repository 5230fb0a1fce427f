/**
 * What the printed lines of an element tell, by the names of its children: the texts, the parts, the objects named,
 * and the comments. Nothing here knows which children the writer shows.
 */
module PsviItems {
  import opened Options
  import opened PsviOutput
  import opened PsviComponents
  import opened PsviPlans
  import opened PsviExpansion
  import opened PsviPlaces
  import Reader = PsviReader

  type Item = Reader.Item

  type Items = Reader.Items

  const NO_ITEMS := Reader.Items.Start

  /** An element that names an object: the kind of the object, and its id. */
  datatype Reference = NoReference | Reference(tag: Tag, id: string)

  /**
   * The text of a child, empty for the nil form; the children of a child; the id of a child that names an object;
   * all annotations, and all comments. Where another child is repeated, it is its last one.
   */
  datatype Facts = Facts(texts: map<Tag, string>, parts: map<Tag, Items>, refs: map<Tag, string>,
                         annotations: seq<Items>, comments: seq<Items>)
  {
    function Text(tag: Tag, text: string): Facts { this.(texts := texts[tag := text]) }

    function Part(tag: Tag, items: Items): Facts {
      if tag.Annotation? then this.(annotations := annotations + [items]) else this.(parts := parts[tag := items])
    }

    function Named(tag: Tag, id: string): Facts { this.(refs := refs[tag := id]) }

    function Remark(items: Items): Facts { this.(comments := comments + [items]) }

    function Find(tag: Tag): Option<string> { if tag in texts then Some(texts[tag]) else None }

    function Get(tag: Tag): string { if tag in texts then texts[tag] else "" }

    function Sub(tag: Tag): Items { if tag in parts then parts[tag] else NO_ITEMS }

    /** The object named by a child. */
    function RefAt(tag: Tag): Reference { if tag in refs then Reference(tag, refs[tag]) else NoReference }

    /** The object named inside a child. */
    function RefIn(tag: Tag): Reference { LastReference(Sub(tag)) }
  }

  const NO_FACTS := Facts(map[], map[], map[], [], [])

  function ReferenceOf(item: Item): Reference {
    match item
    case EmptyElem(tag, attrs) => if attrs != [] && attrs[0].name.Ref? then Reference(tag, attrs[0].value)
      else NoReference
    case Elem(tag, attrs, _) => if attrs != [] && attrs[0].name.Id? then Reference(tag, attrs[0].value) else NoReference
    case _ => NoReference
  }

  /** The object named by the last item. */
  function LastReference(items: Items): Reference { if items.Start? then NoReference else ReferenceOf(items.last) }

  function FactsOf(items: Items): Facts {
    match items
    case Start => NO_FACTS
    case More(front, last) => WithItem(FactsOf(front), last)
  }

  function WithItem(f: Facts, item: Item): Facts {
    match item
    case TextElem(tag, text) => f.Text(tag, text)
    case EmptyElem(tag, attrs) => if attrs == [Attr(XsiNil, "true")] then f.Text(tag, "") else WithReference(f, item)
    case Elem(tag, _, children) => WithReference(f.Part(tag, children), item)
    case Comment(children) => f.Remark(children)
  }

  function WithReference(f: Facts, item: Item): Facts {
    var r := ReferenceOf(item);
    if r.NoReference? then f else f.Named(r.tag, r.id)
  }

  function Kids(items: Items): seq<Item> {
    match items
    case Start => []
    case More(front, last) => Kids(front) + [last]
  }

  // -------------------------------------------------------------------------
  //  What expanded trees read back as
  // -------------------------------------------------------------------------

  /** The items of the trees f, when the objects d are defined before. */
  function View(c: Memory, ids: map<Obj, string>, d: seq<Obj>, f: Nodes): Items {
    Reader.ShownAll(ids, NO_ITEMS, Expand(c, d, f))
  }

  function FactsIn(c: Memory, ids: map<Obj, string>, d: seq<Obj>, f: Nodes): Facts { FactsOf(View(c, ids, d, f)) }

  lemma ViewStart(c: Memory, ids: map<Obj, string>, d: seq<Obj>)
    ensures View(c, ids, d, Start) == NO_ITEMS && FactsIn(c, ids, d, Start) == NO_FACTS
    ensures Kids(View(c, ids, d, Start)) == []
  {
  }

  lemma ViewMore(c: Memory, ids: map<Obj, string>, d: seq<Obj>, f: Nodes, n: Node)
    ensures View(c, ids, d, More(f, n)) == Reader.Shown(ids, View(c, ids, d, f), Step(c, Now(c, d, f), n))
  {
    hide Step, Reader.Shown;
    ExpandMore(c, d, f, n);
  }

  /** One more item. */
  lemma ViewItem(c: Memory, ids: map<Obj, string>, d: seq<Obj>, f: Nodes, n: Node, item: Item)
    requires Reader.Shown(ids, View(c, ids, d, f), Step(c, Now(c, d, f), n))
             == Reader.Items.More(View(c, ids, d, f), item)
    ensures View(c, ids, d, More(f, n)) == Reader.Items.More(View(c, ids, d, f), item)
    ensures FactsIn(c, ids, d, More(f, n)) == WithItem(FactsIn(c, ids, d, f), item)
    ensures Kids(View(c, ids, d, More(f, n))) == Kids(View(c, ids, d, f)) + [item]
  {
    hide View, Step, Reader.Shown, WithItem;
    ViewMore(c, ids, d, f, n);
  }

  lemma OneText(c: Memory, ids: map<Obj, string>, d: seq<Obj>, f: Nodes, tag: Tag, text: string)
    ensures FactsIn(c, ids, d, f.Written(tag, text)) == FactsIn(c, ids, d, f).Text(tag, text)
    ensures Kids(View(c, ids, d, f.Written(tag, text))) == Kids(View(c, ids, d, f)) + [Reader.TextElem(tag, text)]
  {
    hide View, FactsIn, Now, Kids;
    ViewItem(c, ids, d, f, Node.Text(tag, text), Reader.TextElem(tag, text));
  }

  lemma OneNil(c: Memory, ids: map<Obj, string>, d: seq<Obj>, f: Nodes, tag: Tag)
    ensures FactsIn(c, ids, d, f.Absent(tag)) == FactsIn(c, ids, d, f).Text(tag, "")
    ensures Kids(View(c, ids, d, f.Absent(tag))) == Kids(View(c, ids, d, f)) + [Reader.EmptyElem(tag, NilAttrs())]
  {
    hide View, FactsIn, Now, Kids;
    ViewItem(c, ids, d, f, Node.Nil(tag), Reader.EmptyElem(tag, NilAttrs()));
  }

  /** A text, or the nil form of an empty one. */
  lemma OneVal(c: Memory, ids: map<Obj, string>, d: seq<Obj>, f: Nodes, tag: Tag, text: string)
    ensures FactsIn(c, ids, d, f.Val(tag, text)) == FactsIn(c, ids, d, f).Text(tag, text)
  {
    hide View, FactsIn, Kids, NilAttrs;
    if text == "" {
      OneNil(c, ids, d, f, tag);
    } else {
      OneText(c, ids, d, f, tag, text);
    }
  }

  lemma OneBare(c: Memory, ids: map<Obj, string>, d: seq<Obj>, f: Nodes, tag: Tag)
    ensures FactsIn(c, ids, d, f.Blank(tag)) == FactsIn(c, ids, d, f)
    ensures Kids(View(c, ids, d, f.Blank(tag))) == Kids(View(c, ids, d, f)) + [Reader.EmptyElem(tag, [])]
  {
    hide View, FactsIn, Now, Kids;
    ViewItem(c, ids, d, f, Bare(tag), Reader.EmptyElem(tag, []));
  }

  lemma OneLink(c: Memory, ids: map<Obj, string>, d: seq<Obj>, f: Nodes, tag: Tag, o: Obj)
    ensures FactsIn(c, ids, d, f.Ref(tag, Some(o))) == FactsIn(c, ids, d, f).Named(tag, IdOf(ids, o))
    ensures Kids(View(c, ids, d, f.Ref(tag, Some(o))))
            == Kids(View(c, ids, d, f)) + [Reader.EmptyElem(tag, RefAttrs(ids, o))]
    ensures LastReference(View(c, ids, d, f.Ref(tag, Some(o)))) == Reference(tag, IdOf(ids, o))
  {
    hide View, FactsIn, Now, Kids;
    ViewItem(c, ids, d, f, Link(tag, o, false), Reader.EmptyElem(tag, RefAttrs(ids, o)));
  }

  lemma OneGroup(c: Memory, ids: map<Obj, string>, d: seq<Obj>, f: Nodes, tag: Tag, children: Nodes)
    ensures FactsIn(c, ids, d, f.Group(tag, children))
         == FactsIn(c, ids, d, f).Part(tag, View(c, ids, Now(c, d, f), children))
    ensures Kids(View(c, ids, d, f.Group(tag, children)))
         == Kids(View(c, ids, d, f)) + [Reader.Elem(tag, [], View(c, ids, Now(c, d, f), children))]
  {
    hide FactsIn, Now, Kids, Expand;
    var d1 := Now(c, d, f);
    assert d1 + [] == d1;
    ViewItem(c, ids, d, f, Branch(tag, Plain, children), Reader.Elem(tag, [], View(c, ids, d1, children)));
  }

  lemma GroupItem(c: Memory, ids: map<Obj, string>, d: seq<Obj>, f: Nodes, tag: Tag, children: Nodes)
    ensures View(c, ids, d, f.Group(tag, children))
         == Reader.Items.More(View(c, ids, d, f), Reader.Elem(tag, [], View(c, ids, Now(c, d, f), children)))
  {
    hide FactsIn, Now, Kids, Expand;
    var d1 := Now(c, d, f);
    assert d1 + [] == d1;
    ViewItem(c, ids, d, f, Branch(tag, Plain, children), Reader.Elem(tag, [], View(c, ids, d1, children)));
  }

  lemma OneDefinition(c: Memory, ids: map<Obj, string>, d: seq<Obj>, f: Nodes, tag: Tag, o: Obj, children: Nodes)
    ensures Kids(View(c, ids, d, f.Defined(tag, o, children)))
         == Kids(View(c, ids, d, f)) + [Reader.Elem(tag, IdAttrs(ids, o), View(c, ids, Now(c, d, f) + [o], children))]
  {
    hide FactsIn, Now, Kids, Expand;
    ViewItem(c, ids, d, f, Branch(tag, Named(o), children),
             Reader.Elem(tag, IdAttrs(ids, o), View(c, ids, Now(c, d, f) + [o], children)));
  }

  lemma OneRemark(c: Memory, ids: map<Obj, string>, d: seq<Obj>, f: Nodes, children: Nodes)
    ensures FactsIn(c, ids, d, f.Noted(children))
         == FactsIn(c, ids, d, f).Remark(View(c, ids, Now(c, d, f), children))
    ensures View(c, ids, d, f.Noted(children))
         == Reader.Items.More(View(c, ids, d, f), Reader.Comment(View(c, ids, Now(c, d, f), children)))
  {
    hide FactsIn, Now, Kids, Expand;
    ViewItem(c, ids, d, f, Node.Remark(children), Reader.Comment(View(c, ids, Now(c, d, f), children)));
  }

  lemma OneMark(c: Memory, ids: map<Obj, string>, d: seq<Obj>, f: Nodes, notes: seq<nat>)
    ensures View(c, ids, d, f.Marked(notes)) == View(c, ids, d, f)
  {
    hide View, Now;
    ViewMore(c, ids, d, f, Mark(notes));
  }

  /** A component in place names its object, whether it is defined there or referred to. */
  lemma OneHere(c: Memory, ids: map<Obj, string>, d: seq<Obj>, f: Nodes, o: Obj)
    ensures LastReference(View(c, ids, d, f.Here(o))) == Reference(TagOf(c, o), IdOf(ids, o))
    ensures FactsIn(c, ids, d, f.Here(o)) == HereFacts(c, ids, FactsIn(c, ids, d, f), Now(c, d, f), o)
    ensures Kids(View(c, ids, d, f.Here(o)))
         == Kids(View(c, ids, d, f)) + [HereItem(c, ids, Now(c, d, f), o)]
    ensures ReferenceOf(HereItem(c, ids, Now(c, d, f), o)) == Reference(TagOf(c, o), IdOf(ids, o))
  {
    hide FactsIn, Now, Kids, Expand, Contents, TagOf;
    ViewItem(c, ids, d, f, Inline(o), HereItem(c, ids, Now(c, d, f), o));
  }

  function HereFacts(c: Memory, ids: map<Obj, string>, f: Facts, d: seq<Obj>, o: Obj): Facts {
    (if IsLocal(c, o) && o !in d then f.Part(TagOf(c, o), View(c, ids, d + [o], Contents(c, o))) else f)
    .Named(TagOf(c, o), IdOf(ids, o))
  }

  function HereItem(c: Memory, ids: map<Obj, string>, d: seq<Obj>, o: Obj): Item {
    if IsLocal(c, o) && o !in d then Reader.Elem(TagOf(c, o), IdAttrs(ids, o), View(c, ids, d + [o], Contents(c, o)))
    else Reader.EmptyElem(TagOf(c, o), RefAttrs(ids, o))
  }
}
