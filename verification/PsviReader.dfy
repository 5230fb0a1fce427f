/**
 * An independent reader of the printed lines. It checks that every line has the indent of its depth, that
 * every close matches its open (section 3 of XML 1.0) and that no comment starts inside a comment, and it
 * rebuilds the trees.
 */
module PsviReader {
  import opened Options
  import opened PsviOutput

  datatype Item =
    | Elem(tag: Tag, attrs: seq<Attr>, children: Items)
    | TextElem(tag: Tag, text: string)
    | EmptyElem(tag: Tag, attrs: seq<Attr>)
    | Comment(children: Items)

  datatype Items = Start | More(front: Items, last: Item)

  /** What has been read: the items of every level still open. */
  datatype Context =
    | Outermost(done: Items)
    | InElem(tag: Tag, attrs: seq<Attr>, done: Items, outer: Context)
    | InRemark(done: Items, outer: Context)
  {
    function Depth(): nat {
      if Outermost? then 0 else 1 + outer.Depth()
    }

    function With(items: Items): Context {
      match this
      case Outermost(_) => Outermost(items)
      case InElem(tag, attrs, _, outer) => InElem(tag, attrs, items, outer)
      case InRemark(_, outer) => InRemark(items, outer)
    }

    function Add(item: Item): Context {
      With(Items.More(done, item))
    }

    predicate InComment() {
      InRemark? || (InElem? && outer.InComment())
    }

    /** The tags of the open elements, outermost first. */
    function OpenTags(): seq<Tag> {
      match this
      case Outermost(_) => []
      case InElem(tag, _, _, outer) => outer.OpenTags() + [tag]
      case InRemark(_, outer) => outer.OpenTags()
    }
  }

  function Read(ctx: Context, t: Token): Option<Context> {
    match t
    case Open(i, tag, attrs) =>
      if i == ctx.Depth() then Some(InElem(tag, attrs, Items.Start, ctx)) else None
    case Close(i, tag) =>
      if ctx.InElem? && ctx.tag == tag && i == ctx.outer.Depth()
      then Some(ctx.outer.Add(Elem(tag, ctx.attrs, ctx.done))) else None
    case Empty(i, tag, attrs) =>
      if i == ctx.Depth() then Some(ctx.Add(EmptyElem(tag, attrs))) else None
    case Value(i, tag, text) =>
      if i == ctx.Depth() then Some(ctx.Add(TextElem(tag, text))) else None
    case CommentStart(i) =>
      if i == ctx.Depth() && !ctx.InComment() then Some(InRemark(Items.Start, ctx)) else None
    case CommentEnd(i) =>
      if ctx.InRemark? && i == ctx.outer.Depth() then Some(ctx.outer.Add(Comment(ctx.done))) else None
  }

  function ReadAll(ctx: Context, ts: seq<Token>): Option<Context> {
    if ts == [] then Some(ctx)
    else
      var before := ReadAll(ctx, ts[..|ts| - 1]);
      if before.None? then None else Read(before.value, ts[|ts| - 1])
  }

  lemma {:induction false} ReadAppend(ctx: Context, a: seq<Token>, b: seq<Token>)
    ensures ReadAll(ctx, a + b) == (var r := ReadAll(ctx, a); if r.None? then None else ReadAll(r.value, b))
    decreases |b|
  {
    if b == [] {
      assert a + b == a;
    } else {
      ReadAppend(ctx, a, b[..|b| - 1]);
      assert (a + b)[..|a + b| - 1] == a + b[..|b| - 1];
    }
  }

  lemma ReadOne(ctx: Context, t: Token)
    ensures ReadAll(ctx, [t]) == Read(ctx, t)
  {
    assert [t][..0] == [];
    assert ReadAll(ctx, [t][..0]) == Some(ctx);
  }

  // -------------------------------------------------------------------------
  //  Reading back a printed tree
  // -------------------------------------------------------------------------

  /** The item a printed node reads back as; an unresolved Inline prints nothing. */
  function Shown(ids: map<Obj, string>, acc: Items, n: Node): Items
    decreases n
  {
    match n
    case Branch(tag, head, children) =>
      Items.More(acc, Elem(tag, HeadAttrs(ids, head), ShownAll(ids, Items.Start, children)))
    case Text(tag, text) => Items.More(acc, TextElem(tag, text))
    case Nil(tag) => Items.More(acc, EmptyElem(tag, NilAttrs()))
    case Bare(tag) => Items.More(acc, EmptyElem(tag, []))
    case Link(tag, o, _) => Items.More(acc, EmptyElem(tag, RefAttrs(ids, o)))
    case Remark(children) => Items.More(acc, Comment(ShownAll(ids, Items.Start, children)))
    case Inline(_) => acc
    case Mark(_) => acc
  }

  function ShownAll(ids: map<Obj, string>, acc: Items, f: Nodes): Items
    decreases f
  {
    match f
    case Start => acc
    case More(front, last) => Shown(ids, ShownAll(ids, acc, front), last)
  }

  /**
   * Round trip: the lines printed for trees read back, at their own depth, as exactly those trees, and
   * leave the open elements as they were.
   */
  lemma {:induction false} ReadRender(ctx: Context, ids: map<Obj, string>, f: Nodes)
    requires CommentsFlat(f)
    requires ctx.InComment() ==> Quiet(f)
    ensures ReadAll(ctx, Render(ctx.Depth(), ids, f)) == Some(ctx.With(ShownAll(ids, ctx.done, f)))
    decreases f, 1
  {
    if f.More? {
      var mid := ctx.With(ShownAll(ids, ctx.done, f.front));
      ReadRender(ctx, ids, f.front);
      assert mid.Depth() == ctx.Depth() && mid.InComment() == ctx.InComment();
      ReadRenderNode(mid, ids, f.last);
      ReadAppend(ctx, Render(ctx.Depth(), ids, f.front), RenderNode(ctx.Depth(), ids, f.last));
    }
  }

  lemma {:induction false} ReadRenderNode(ctx: Context, ids: map<Obj, string>, n: Node)
    requires CommentsFlatNode(n)
    requires ctx.InComment() ==> QuietNode(n)
    ensures ReadAll(ctx, RenderNode(ctx.Depth(), ids, n)) == Some(ctx.With(Shown(ids, ctx.done, n)))
    decreases n, 0
  {
    match n
    case Branch(_, _, _) => ReadRenderBranch(ctx, ids, n);
    case Remark(_) => ReadRenderRemark(ctx, ids, n);
    case Inline(_) =>
    case Mark(_) =>
    case _ =>
      hide ReadAll;
      hide RefAttrs;
      hide NilAttrs;
      ReadOne(ctx, RenderNode(ctx.Depth(), ids, n)[0]);
  }

  lemma {:induction false} ReadRenderBranch(ctx: Context, ids: map<Obj, string>, n: Node)
    requires n.Branch? && CommentsFlat(n.children)
    requires ctx.InComment() ==> Quiet(n.children)
    ensures ReadAll(ctx, RenderNode(ctx.Depth(), ids, n)) == Some(ctx.With(Shown(ids, ctx.done, n)))
    decreases n.children, 2
  {
    hide ReadAll;
    hide HeadAttrs;
    var i, attrs := ctx.Depth(), HeadAttrs(ids, n.head);
    var inner := InElem(n.tag, attrs, Items.Start, ctx);
    ReadRender(inner, ids, n.children);
    var full := inner.With(ShownAll(ids, Items.Start, n.children));
    ReadBlock(ctx, inner, full, Open(i, n.tag, attrs), Render(i + 1, ids, n.children), Close(i, n.tag));
  }

  lemma {:induction false} ReadRenderRemark(ctx: Context, ids: map<Obj, string>, n: Node)
    requires n.Remark? && Quiet(n.children) && !ctx.InComment()
    ensures ReadAll(ctx, RenderNode(ctx.Depth(), ids, n)) == Some(ctx.With(Shown(ids, ctx.done, n)))
    decreases n.children, 2
  {
    hide ReadAll;
    var i := ctx.Depth();
    var inner := InRemark(Items.Start, ctx);
    QuietIsFlat(n.children);
    ReadRender(inner, ids, n.children);
    var full := inner.With(ShownAll(ids, Items.Start, n.children));
    ReadBlock(ctx, inner, full, CommentStart(i), Render(i + 1, ids, n.children), CommentEnd(i));
  }

  lemma ReadBlock(ctx: Context, inner: Context, full: Context, first: Token, body: seq<Token>, last: Token)
    requires Read(ctx, first) == Some(inner)
    requires ReadAll(inner, body) == Some(full)
    ensures ReadAll(ctx, [first] + body + [last]) == Read(full, last)
  {
    hide Read;
    ReadOne(ctx, first);
    ReadOne(full, last);
    ReadAppend(ctx, [first], body);
    ReadAppend(ctx, [first] + body, [last]);
  }
}
