/**
 * Whole runs of the writer: the callbacks of a document, in the order the parser makes them, print exactly
 * the lines of the document's tree and leave the writer as it was before, unless an element's attributes make
 * the writer throw.
 */
module PsviRun {
  import opened Options
  import opened PsviOutput
  import opened PsviComponents
  import opened PsviExpansion
  import opened PsviPlaces
  import opened PsviShape
  import opened PsviEvents
  import opened PsviDocument
  import opened PsviWriter
  import opened PsviIds
  import opened PsviRequests
  import opened PsviStops
  import Names = PsviNamespaces

  /** The writer stands at level e, has shown s there, and base are the flags of the levels around it. */
  ghost predicate At(w: Writer, e: Place, base: seq<bool>, open: bool, s: Shown)
    reads w, w.indentChars
  {
    && w.Valid() && w.Between()
    && w.place == Level(e, open, s.nodes)
    && w.elementChildren == base + [open]
    && (!open ==> s.nodes == Start)
    && EnvOf(w) == s.env
  }

  /** The writer has also shown content x. */
  ghost predicate Delivered(w: Writer, e: Place, base: seq<bool>, open: bool, s: Shown, x: Content)
    reads w, w.indentChars
  {
    At(w, e, base, open || Visible(x), ShowContent(w.graph, base == [], DefinedAt(w.graph, e), s, x))
  }

  ghost function EnvOf(w: Writer): Env
    reads w
  {
    Env(w.Scope(), w.baseUri)
  }

  twostate predicate Same(w: Writer)
    reads w, w.indentChars
  {
    w.earlier == old(w.earlier) && (w.indentChars == old(w.indentChars) || fresh(w.indentChars))
  }

  /** A callback of the running kind keeps what was asked before it, and asks in the scope. */
  twostate predicate Asking(w: Writer)
    reads w
  {
    w.asked == old(w.asked) && (old(w.Asked()) ==> w.Asked())
  }

  /** A callback is about to be made at level e. */
  ghost method BeginAsking(w: Writer, e: Place, base: seq<bool>, open: bool, s: Shown)
    requires At(w, e, base, open, s)
    modifies w`asked
    ensures At(w, e, base, open, s) && w.Asked() && w.asked == w.requests
    ensures Objects(w.requests) == MentionedAt(w.graph, Level(e, open, s.nodes))
  {
    hide Shape, MentionedAt, Writer.Settled;
    w.StartAsking();
  }

  /** What a callback asked for is what it printed. */
  lemma AskedWhat(w: Writer, before: seq<Request>, objs: seq<Obj>)
    requires w.Valid() && w.Asked() && w.asked == before
    requires MentionedAt(w.graph, w.place) == Objects(before) + objs
    ensures w.requests == before + RequestsFor(w.graph, w.Scope(), objs)
  {
    hide MentionedAt, AskedIn, Writer.Settled;
    RequestsAre(w.graph, w.Scope(), before, w.requests, objs);
  }

  lemma AskedNothing(w: Writer, before: seq<Request>)
    requires w.Valid() && w.Asked() && w.asked == before
    requires MentionedAt(w.graph, w.place) == Objects(before)
    ensures w.requests == before
  {
    hide MentionedAt, Writer.Asked, Writer.Valid;
    assert Objects(before) + [] == Objects(before);
    AskedWhat(w, before, []);
    assert before + RequestsFor(w.graph, w.Scope(), []) == before;
  }

  method StartMappings(w: Writer, mappings: seq<(string, string)>)
    requires w.Valid() && w.Between()
    modifies w
    ensures w.Valid() && w.Between() && Same(w)
    ensures w.requests == old(w.requests)
    ensures w.place == old(w.place) && w.elementChildren == old(w.elementChildren)
    ensures EnvOf(w) == old(EnvOf(w)).(scope := StartAll(old(w.Scope()), mappings, |mappings|))
  {
    hide Writer.Valid, Shape, Names.StartMapping;
    for i := 0 to |mappings|
      invariant w.Valid() && w.Between() && Same(w)
      invariant w.requests == old(w.requests)
      invariant w.place == old(w.place) && w.elementChildren == old(w.elementChildren)
      invariant EnvOf(w) == old(EnvOf(w)).(scope := StartAll(old(w.Scope()), mappings, i))
    {
      w.StartPrefixMapping(mappings[i].0, mappings[i].1);
    }
  }

  method EndMappings(w: Writer, mappings: seq<(string, string)>)
    requires w.Valid() && w.Between()
    modifies w
    ensures w.Valid() && w.Between() && Same(w)
    ensures w.requests == old(w.requests)
    ensures w.place == old(w.place) && w.elementChildren == old(w.elementChildren)
    ensures EnvOf(w) == old(EnvOf(w)).(scope := EndAll(old(w.Scope()), mappings, |mappings|))
  {
    hide Writer.Valid, Shape, Names.EndMapping;
    var i := |mappings|;
    while i > 0
      invariant 0 <= i <= |mappings|
      invariant w.Valid() && w.Between() && Same(w)
      invariant w.requests == old(w.requests)
      invariant w.place == old(w.place) && w.elementChildren == old(w.elementChildren)
      invariant w.baseUri == old(w.baseUri)
      invariant EndAll(w.Scope(), mappings, i) == EndAll(old(w.Scope()), mappings, |mappings|)
    {
      i := i - 1;
      w.EndPrefixMapping(mappings[i].0);
    }
  }

  /** The first i of the content of level e have been delivered. */
  ghost predicate Progress(w: Writer, e: Place, base: seq<bool>, env: Env, before: seq<Request>, content: seq<Content>,
                           i: nat)
    requires i <= |content|
    reads w, w.indentChars
  {
    var root, d, s := base == [], DefinedAt(w.graph, e), Shown(Start, env);
    && AllRun(w.graph, root, d, s, content, i)
    && At(w, e, base, AnyVisible(content, i), ShowAll(w.graph, root, d, s, content, i))
    && w.requests == before + ContentRequests(w.graph, root, d, s, content, i)
  }

  /** An element among the first i of the content of level e did not start. */
  ghost predicate Stopped(w: Writer, e: Place, base: seq<bool>, env: Env, before: seq<Request>, content: seq<Content>,
                          i: nat)
    requires i <= |content|
    reads w, w.indentChars
  {
    var root, d, s := base == [], DefinedAt(w.graph, e), Shown(Start, env);
    && !AllRun(w.graph, root, d, s, content, i)
    && w.Valid() && w.place == StopAll(w.graph, root, e, env, content, i)
    && w.requests == before + StopRequests(w.graph, root, d, s, content, i)
  }

  method DeliverAll(w: Writer, content: seq<Content>, ghost e: Place, ghost base: seq<bool>, ghost env: Env)
    returns (threw: bool)
    requires At(w, e, base, false, Shown(Start, env))
    requires forall i :: 0 <= i < |content| ==> ContentOk(w.graph, content[i])
    modifies w, w.indentChars
    ensures Same(w)
    ensures threw <==> !AllRun(w.graph, base == [], DefinedAt(w.graph, e), Shown(Start, env), content, |content|)
    ensures !threw ==> Progress(w, e, base, env, old(w.requests), content, |content|)
    ensures threw ==> Stopped(w, e, base, env, old(w.requests), content, |content|)
    decreases content, 1
  {
    hide At, ContentOk, Progress, Stopped, AllRun;
    ghost var before := w.requests;
    threw := false;
    NoneYet(w, e, base, env, content);
    var i := 0;
    while i < |content| && !threw
      invariant i <= |content| && Same(w)
      invariant !threw ==> Progress(w, e, base, env, before, content, i)
      invariant threw ==> Stopped(w, e, base, env, before, content, i)
    {
      threw := DeliverNext(w, content, i, e, base, env, before);
      i := i + 1;
    }
    Outcome(w, e, base, env, before, content, i, threw);
  }

  lemma NoneYet(w: Writer, e: Place, base: seq<bool>, env: Env, content: seq<Content>)
    requires At(w, e, base, false, Shown(Start, env))
    ensures Progress(w, e, base, env, w.requests, content, 0)
  {
    hide At;
    assert w.requests + [] == w.requests;
  }

  lemma Outcome(w: Writer, e: Place, base: seq<bool>, env: Env, before: seq<Request>, content: seq<Content>, i: nat,
                threw: bool)
    requires i <= |content| && (threw || i == |content|)
    requires if threw then Stopped(w, e, base, env, before, content, i)
             else Progress(w, e, base, env, before, content, i)
    ensures threw <==> !AllRun(w.graph, base == [], DefinedAt(w.graph, e), Shown(Start, env), content, |content|)
    ensures threw ==> Stopped(w, e, base, env, before, content, |content|)
  {
    hide At, AllRun, StopAll, StopRequests, DefinedAt, ShowAll, ContentRequests;
    if threw {
      StaysStopped(w.graph, base == [], e, env, content, i, |content|);
    }
  }

  method DeliverNext(w: Writer, content: seq<Content>, i: nat, ghost e: Place, ghost base: seq<bool>, ghost env: Env,
                     ghost before: seq<Request>)
    returns (threw: bool)
    requires i < |content| && ContentOk(w.graph, content[i])
    requires Progress(w, e, base, env, before, content, i)
    modifies w, w.indentChars
    ensures Same(w)
    ensures !threw ==> Progress(w, e, base, env, before, content, i + 1)
    ensures threw ==> Stopped(w, e, base, env, before, content, i + 1)
    decreases content, 0
  {
    hide At, ContentOk, Progress, Stopped, ItemDone, ItemStopped;
    ghost var open, s := AnyVisible(content, i), Reached(w.graph, e, base, env, content, i);
    ProgressAt(w, e, base, env, before, content, i);
    ghost var made := w.requests;
    threw := Deliver(w, content[i], e, base, open, s);
    if threw {
      StoppedNext(w, content, i, e, base, env, before, made);
    } else {
      OneMore(w, content, i, e, base, env, before, made);
    }
  }

  /** What is shown at level e when the first i of its content have been delivered. */
  ghost function Reached(c: Memory, e: Place, base: seq<bool>, env: Env, content: seq<Content>, i: nat): Shown
    requires i <= |content|
  {
    ShowAll(c, base == [], DefinedAt(c, e), Shown(Start, env), content, i)
  }

  lemma ProgressAt(w: Writer, e: Place, base: seq<bool>, env: Env, before: seq<Request>, content: seq<Content>, i: nat)
    requires i <= |content| && Progress(w, e, base, env, before, content, i)
    ensures At(w, e, base, AnyVisible(content, i), Reached(w.graph, e, base, env, content, i))
    ensures AllRun(w.graph, base == [], DefinedAt(w.graph, e), Shown(Start, env), content, i)
    ensures w.requests == before + ContentRequests(w.graph, base == [], DefinedAt(w.graph, e), Shown(Start, env),
                                                   content, i)
  {
    hide At, AllRun, ShowAll, DefinedAt, ContentRequests;
  }

  lemma OneMore(w: Writer, content: seq<Content>, i: nat, e: Place, base: seq<bool>, env: Env, before: seq<Request>,
                made: seq<Request>)
    requires i < |content|
    requires AllRun(w.graph, base == [], DefinedAt(w.graph, e), Shown(Start, env), content, i)
    requires made == before + ContentRequests(w.graph, base == [], DefinedAt(w.graph, e), Shown(Start, env), content, i)
    requires ItemDone(w, e, base, AnyVisible(content, i), Reached(w.graph, e, base, env, content, i), made, content[i])
    ensures Progress(w, e, base, env, before, content, i + 1)
  {
    hide At, ContentRuns, ShowContent, DefinedAt, ItemRequests;
  }

  lemma StoppedNext(w: Writer, content: seq<Content>, i: nat, e: Place, base: seq<bool>, env: Env, before: seq<Request>,
                    made: seq<Request>)
    requires i < |content|
    requires AllRun(w.graph, base == [], DefinedAt(w.graph, e), Shown(Start, env), content, i)
    requires made == before + ContentRequests(w.graph, base == [], DefinedAt(w.graph, e), Shown(Start, env), content, i)
    requires ItemStopped(w, e, base, Reached(w.graph, e, base, env, content, i), made, content[i])
    ensures Stopped(w, e, base, env, before, content, i + 1)
  {
    hide ContentRuns, ShowContent, DefinedAt, ContentRequests, StopIn, StopItemRequests, Writer.Valid;
    var root, d, s := base == [], DefinedAt(w.graph, e), Shown(Start, env);
    assert StopRequests(w.graph, root, d, s, content, i + 1)
        == ContentRequests(w.graph, root, d, s, content, i)
           + StopItemRequests(w.graph, root, d, Reached(w.graph, e, base, env, content, i), content[i]);
  }

  /** Content x of level e has been delivered behind s. */
  ghost predicate ItemDone(w: Writer, e: Place, base: seq<bool>, open: bool, s: Shown, before: seq<Request>, x: Content)
    reads w, w.indentChars
  {
    && ContentRuns(w.graph, base == [], DefinedAt(w.graph, e), s, x)
    && Delivered(w, e, base, open, s, x)
    && w.requests == before + ItemRequests(w.graph, base == [], DefinedAt(w.graph, e), s, x)
  }

  /** An element in content x of level e did not start. */
  ghost predicate ItemStopped(w: Writer, e: Place, base: seq<bool>, s: Shown, before: seq<Request>, x: Content)
    reads w, w.indentChars
  {
    && !ContentRuns(w.graph, base == [], DefinedAt(w.graph, e), s, x)
    && w.Valid() && w.place == StopIn(w.graph, base == [], e, s, x)
    && w.requests == before + StopItemRequests(w.graph, base == [], DefinedAt(w.graph, e), s, x)
  }

  method Deliver(w: Writer, x: Content, ghost e: Place, ghost base: seq<bool>, ghost open: bool, ghost s: Shown)
    returns (threw: bool)
    requires At(w, e, base, open, s) && ContentOk(w.graph, x)
    modifies w, w.indentChars
    ensures Same(w)
    ensures !threw ==> ItemDone(w, e, base, open, s, old(w.requests), x)
    ensures threw ==> ItemStopped(w, e, base, s, old(w.requests), x)
    decreases x
  {
    threw := false;
    match x
    case Chars(text) => DeliverText(w, text, e, base, open, s);
    case Whitespace(text) => DeliverWhitespace(w, text, e, base, open, s);
    case CommentText(text) => DeliverComment(w, text, e, base, open, s);
    case Instruction(target, data) => DeliverInstruction(w, target, data, e, base, open, s);
    case BaseChange(uri) => DeliverBase(w, uri, e, base, open, s);
    case Nested(element) => threw := DeliverElement(w, element, e, base, open, s);
  }

  method DeliverWhitespace(w: Writer, text: string, ghost e: Place, ghost base: seq<bool>, ghost open: bool,
                           ghost s: Shown)
    requires At(w, e, base, open, s)
    modifies w, w.indentChars
    ensures Same(w) && ItemDone(w, e, base, open, s, old(w.requests), Whitespace(text))
  {
    hide Writer.Valid, DefinedAt, MentionedAt, Shape;
    BeginAsking(w, e, base, open, s);
    w.IgnorableWhitespace(text);
    TextMentions(w.graph, base == [], e, open, s, Whitespace(text));
    AskedNothing(w, w.asked);
    assert w.requests + [] == w.requests;
  }

  method DeliverBase(w: Writer, uri: string, ghost e: Place, ghost base: seq<bool>, ghost open: bool, ghost s: Shown)
    requires At(w, e, base, open, s)
    modifies w
    ensures Same(w) && ItemDone(w, e, base, open, s, old(w.requests), BaseChange(uri))
  {
    hide Shape;
    w.ResolveEntity(uri);
    assert w.requests + [] == w.requests;
  }

  /** Where a child goes: the level's `children` level, which opens for its first child. */
  lemma ChildLevel(e: Place, base: seq<bool>, open: bool, nodes: Nodes)
    requires !open ==> nodes == Start
    ensures ChildPlace(Level(e, open, nodes), base + [open]) == Level(e, true, nodes)
    ensures ChildFlags(base + [open]) == base + [true]
  {
    assert (base + [open])[..|base|] == base;
  }

  method DeliverText(w: Writer, text: string, ghost e: Place, ghost base: seq<bool>, ghost open: bool, ghost s: Shown)
    requires At(w, e, base, open, s)
    modifies w, w.indentChars
    ensures Same(w) && ItemDone(w, e, base, open, s, old(w.requests), Chars(text))
  {
    hide Writer.Valid, DefinedAt, MentionedAt, ChildPlace, ChildFlags, Shape;
    ChildLevel(e, base, open, s.nodes);
    BeginAsking(w, e, base, open, s);
    w.Characters(text);
    TextMentions(w.graph, base == [], e, open, s, Chars(text));
    AskedNothing(w, w.asked);
    assert w.requests + [] == w.requests;
  }

  method DeliverComment(w: Writer, text: string, ghost e: Place, ghost base: seq<bool>, ghost open: bool,
                        ghost s: Shown)
    requires At(w, e, base, open, s)
    modifies w, w.indentChars
    ensures Same(w) && ItemDone(w, e, base, open, s, old(w.requests), CommentText(text))
  {
    hide Writer.Valid, DefinedAt, MentionedAt, ChildPlace, ChildFlags, Shape;
    ChildLevel(e, base, open, s.nodes);
    BeginAsking(w, e, base, open, s);
    w.Comment(text);
    TextMentions(w.graph, base == [], e, open, s, CommentText(text));
    AskedNothing(w, w.asked);
    assert w.requests + [] == w.requests;
  }

  method DeliverInstruction(w: Writer, target: string, data: string, ghost e: Place, ghost base: seq<bool>,
                            ghost open: bool, ghost s: Shown)
    requires At(w, e, base, open, s)
    modifies w, w.indentChars
    ensures Same(w) && ItemDone(w, e, base, open, s, old(w.requests), Instruction(target, data))
  {
    hide Writer.Valid, DefinedAt, MentionedAt, ChildPlace, ChildFlags, Shape;
    ChildLevel(e, base, open, s.nodes);
    BeginAsking(w, e, base, open, s);
    w.Instruction(target, data);
    TextMentions(w.graph, base == [], e, open, s, Instruction(target, data));
    AskedNothing(w, w.asked);
    assert w.requests + [] == w.requests;
  }

  // -------------------------------------------------------------------------
  //  Elements
  // -------------------------------------------------------------------------

  method DeliverElement(w: Writer, x: ElementEvents, ghost e: Place, ghost base: seq<bool>, ghost open: bool,
                        ghost s: Shown)
    returns (threw: bool)
    requires At(w, e, base, open, s) && ContentOk(w.graph, Nested(x))
    modifies w, w.indentChars
    ensures Same(w)
    ensures !threw ==> ItemDone(w, e, base, open, s, old(w.requests), Nested(x))
    ensures threw ==> ItemStopped(w, e, base, s, old(w.requests), Nested(x))
    decreases x, 1
  {
    hide At, Begun, ItemDone, ItemStopped, ContentOk, Starts, InsideRuns, ShowElement, StopAtNote, StopInside,
         StartRequests, InsideRequests, EndRequests, StopNoteRequests, StopInsideRequests;
    ghost var env := Entered(s.env, x);
    ghost var before := w.requests;
    BeginMappings(w, x, e, base, open, s);
    threw := BeginElement(w, x, e, base, open, s, env);
    if threw {
      NotStarted(w, x, e, base, s, before);
    } else {
      ghost var started := w.requests;
      threw := DeliverInside(w, x, e, base, s, env);
      if threw {
        NotShown(w, x, e, base, s, before, started);
      } else {
        ElementDone(w, x, e, base, open, s, before, started);
      }
    }
  }

  lemma NotStarted(w: Writer, x: ElementEvents, e: Place, base: seq<bool>, s: Shown, before: seq<Request>)
    requires !Starts(w.graph, DefinedIn(w.graph, e, s), Entered(s.env, x), x)
    requires w.Valid() && w.place == StopAtNote(w.graph, e, s, Entered(s.env, x), x)
    requires w.requests == before + StopNoteRequests(w.graph, DefinedIn(w.graph, e, s), Entered(s.env, x), x)
    ensures ItemStopped(w, e, base, s, before, Nested(x))
  {
    hide Writer.Valid, Starts, DefinedAt, Now, Entered, StopAtNote, StopNoteRequests, InsideRuns;
    var c, d, env := w.graph, DefinedIn(w.graph, e, s), Entered(s.env, x);
    assert !ContentRuns(c, base == [], DefinedAt(c, e), s, Nested(x));
    assert StopIn(c, base == [], e, s, Nested(x)) == StopElement(c, e, s, env, x);
    assert StopItemRequests(c, base == [], DefinedAt(c, e), s, Nested(x)) == StopElementRequests(c, d, env, x);
  }

  lemma NotShown(w: Writer, x: ElementEvents, e: Place, base: seq<bool>, s: Shown, before: seq<Request>,
                 started: seq<Request>)
    requires Starts(w.graph, DefinedIn(w.graph, e, s), Entered(s.env, x), x)
    requires started == before + StartRequests(w.graph, DefinedIn(w.graph, e, s), Entered(s.env, x), x)
    requires !InsideRuns(w.graph, DefinedIn(w.graph, e, s), Entered(s.env, x), x)
    requires w.Valid() && w.place == StopInside(w.graph, e, s, Entered(s.env, x), x)
    requires w.requests == started + StopInsideRequests(w.graph, DefinedIn(w.graph, e, s), Entered(s.env, x), x)
    ensures ItemStopped(w, e, base, s, before, Nested(x))
  {
    hide Writer.Valid, Starts, DefinedAt, Now, Entered, StopInside, StartRequests, StopInsideRequests, InsideRuns;
    var c, d, env := w.graph, DefinedIn(w.graph, e, s), Entered(s.env, x);
    assert !ContentRuns(c, base == [], DefinedAt(c, e), s, Nested(x));
    assert StopIn(c, base == [], e, s, Nested(x)) == StopElement(c, e, s, env, x);
    assert StopItemRequests(c, base == [], DefinedAt(c, e), s, Nested(x)) == StopElementRequests(c, d, env, x);
  }

  lemma ElementDone(w: Writer, x: ElementEvents, e: Place, base: seq<bool>, open: bool, s: Shown, before: seq<Request>,
                    started: seq<Request>)
    requires Starts(w.graph, DefinedIn(w.graph, e, s), Entered(s.env, x), x)
    requires started == before + StartRequests(w.graph, DefinedIn(w.graph, e, s), Entered(s.env, x), x)
    requires InsideRuns(w.graph, DefinedIn(w.graph, e, s), Entered(s.env, x), x)
    requires At(w, e, base, true,
                ShowElement(w.graph, base == [], DefinedIn(w.graph, e, s), s.nodes, Entered(s.env, x), x))
    requires w.requests == started + InsideRequests(w.graph, DefinedIn(w.graph, e, s), Entered(s.env, x), x)
                           + EndRequests(w.graph, base == [], DefinedIn(w.graph, e, s), Entered(s.env, x), x)
    ensures ItemDone(w, e, base, open, s, before, Nested(x))
  {
    hide At, Starts, DefinedAt, Now, Entered, ShowElement, StartRequests, InsideRequests, EndRequests, InsideRuns;
    var c, root, d, env := w.graph, base == [], DefinedIn(w.graph, e, s), Entered(s.env, x);
    assert ContentRuns(c, root, DefinedAt(c, e), s, Nested(x));
    assert ShowContent(c, root, DefinedAt(c, e), s, Nested(x)) == ShowElement(c, root, d, s.nodes, env, x);
    assert w.requests == before + ElementRequests(c, root, d, env, x);
  }

  /** An element that was shown up to its content inside level e, after the trees s. */
  ghost predicate Begun(w: Writer, x: ElementEvents, e: Place, base: seq<bool>, s: Shown, env: Env)
    reads w, w.indentChars
  {
    var known := ElementStart(w.graph, DefinedIn(w.graph, e, s), env, x);
    At(w, Inside(e, s.nodes, known), base + [true], false, Shown(Start, env))
  }

  /** What follows when an element has started: its content, and its end. */
  method DeliverInside(w: Writer, x: ElementEvents, ghost e: Place, ghost base: seq<bool>, ghost s: Shown,
                       ghost env: Env)
    returns (threw: bool)
    requires Begun(w, x, e, base, s, env) && ContentOk(w.graph, Nested(x))
    modifies w, w.indentChars
    ensures Same(w)
    ensures threw <==> !InsideRuns(w.graph, DefinedIn(w.graph, e, s), env, x)
    ensures !threw ==> At(w, e, base, true,
                          ShowElement(w.graph, base == [], DefinedIn(w.graph, e, s), s.nodes, env, x))
    ensures threw ==> w.Valid() && w.place == StopInside(w.graph, e, s, env, x)
    ensures !threw ==>
              w.requests == old(w.requests) + InsideRequests(w.graph, DefinedIn(w.graph, e, s), env, x)
                            + EndRequests(w.graph, base == [], DefinedIn(w.graph, e, s), env, x)
    ensures threw ==>
              w.requests == old(w.requests) + StopInsideRequests(w.graph, DefinedIn(w.graph, e, s), env, x)
    decreases x, 0
  {
    hide Shape, At, ElementStart, Inside, ShowElement, AllRun, ShowAll, AnyVisible, Now, DefinedAt, StopAll,
         ContentRequests, StopRequests, EndRequests;
    ghost var before := DefinedIn(w.graph, e, s);
    ghost var level := Inside(e, s.nodes, ElementStart(w.graph, before, env, x));
    InsideDefinedAt(w.graph, e, s.nodes, ElementStart(w.graph, before, env, x));
    assert base + [true] != [];
    ghost var made := w.requests;
    threw := DeliverAll(w, x.content, level, base + [true], env);
    if !threw {
      ProgressAt(w, level, base + [true], env, made, x.content, |x.content|);
      FinishElement(w, x, e, base, s, env);
    }
  }

  method BeginMappings(w: Writer, x: ElementEvents, ghost e: Place, ghost base: seq<bool>, ghost open: bool,
                       ghost s: Shown)
    requires At(w, e, base, open, s)
    modifies w
    ensures Same(w) && w.requests == old(w.requests)
    ensures At(w, e, base, open, Shown(s.nodes, Entered(s.env, x)))
  {
    StartMappings(w, x.mappings);
  }

  method BeginElement(w: Writer, x: ElementEvents, ghost e: Place, ghost base: seq<bool>, ghost open: bool,
                      ghost s: Shown, ghost env: Env)
    returns (threw: bool)
    requires At(w, e, base, open, Shown(s.nodes, env)) && ContentOk(w.graph, Nested(x))
    modifies w, w.indentChars
    ensures Same(w)
    ensures threw <==> !Starts(w.graph, DefinedIn(w.graph, e, s), env, x)
    ensures !threw ==> Begun(w, x, e, base, s, env)
    ensures threw ==> w.Valid() && w.place == StopAtNote(w.graph, e, s, env, x)
    ensures w.requests == old(w.requests) + if threw then StopNoteRequests(w.graph, DefinedIn(w.graph, e, s), env, x)
                                            else StartRequests(w.graph, DefinedIn(w.graph, e, s), env, x)
  {
    hide Shape, At, Begun, DefinedIn, StopAtNote, StartRequests, StopNoteRequests, Writer.Valid;
    ghost var before := w.requests;
    BeginAsking(w, e, base, open, Shown(s.nodes, env));
    OpenIs(w, e, base, open, Shown(s.nodes, env));
    threw := ShowStart(w, x, e, base, open, s, env);
    if threw {
      StoppedAsking(w, before, x, e, open, s, env);
    } else {
      BegunAsking(w, before, x, e, base, open, s, env);
    }
  }

  lemma OpenIs(w: Writer, e: Place, base: seq<bool>, open: bool, s: Shown)
    requires At(w, e, base, open, s)
    ensures !open ==> s.nodes == Start
  {
  }

  lemma BegunAsking(w: Writer, before: seq<Request>, x: ElementEvents, e: Place, base: seq<bool>, open: bool, s: Shown,
                    env: Env)
    requires Begun(w, x, e, base, s, env) && w.Asked() && w.asked == before && (!open ==> s.nodes == Start)
    requires Objects(before) == MentionedAt(w.graph, Level(e, open, s.nodes))
    ensures w.requests == before + StartRequests(w.graph, DefinedIn(w.graph, e, s), env, x)
  {
    hide Shape, MentionedAt, DefinedAt, Writer.Valid, Writer.Asked, ElementStart, Expand, Mentioned, Inside;
    var known := ElementStart(w.graph, DefinedIn(w.graph, e, s), env, x);
    LevelMentioned(w.graph, e, open, s.nodes);
    LevelMentioned(w.graph, e, true, s.nodes);
    InsideMentioned(w.graph, e, s.nodes, known);
    AskedWhat(w, before, Mentioned(Expand(w.graph, DefinedIn(w.graph, e, s), known)));
  }

  lemma StoppedAsking(w: Writer, before: seq<Request>, x: ElementEvents, e: Place, open: bool, s: Shown, env: Env)
    requires w.Valid() && w.Asked() && w.asked == before && w.Scope() == env.scope && (!open ==> s.nodes == Start)
    requires !Starts(w.graph, DefinedIn(w.graph, e, s), env, x) && w.place == StopAtNote(w.graph, e, s, env, x)
    requires Objects(before) == MentionedAt(w.graph, Level(e, open, s.nodes))
    ensures w.requests == before + StopNoteRequests(w.graph, DefinedIn(w.graph, e, s), env, x)
  {
    hide MentionedAt, DefinedAt, Writer.Valid, Writer.Asked, Expand, Mentioned, Inside, Broken, AttributesPlan,
         ElementName, Noted;
    var named := ElementName(env.scope, x.localName, x.uri);
    var f := AttributesPlan(w.graph, env.scope, named, x.attrs, x.assessed);
    LevelMentioned(w.graph, e, open, s.nodes);
    LevelMentioned(w.graph, e, true, s.nodes);
    InsideMentioned(w.graph, e, s.nodes, f);
    BrokenMentioned(w.graph, Inside(e, s.nodes, f), x.attrs, x.assessed,
                    Noted(w.graph, DefinedIn(w.graph, e, s), env, x));
    AskedWhat(w, before, Mentioned(Expand(w.graph, DefinedIn(w.graph, e, s), f)));
  }

  /** What is shown of an element before its content. */
  method ShowStart(w: Writer, x: ElementEvents, ghost e: Place, ghost base: seq<bool>, ghost open: bool,
                   ghost s: Shown, ghost env: Env)
    returns (threw: bool)
    requires At(w, e, base, open, Shown(s.nodes, env)) && ContentOk(w.graph, Nested(x))
    modifies w, w.indentChars
    ensures Same(w) && Asking(w) && w.Scope() == env.scope
    ensures threw <==> !Starts(w.graph, DefinedIn(w.graph, e, s), env, x)
    ensures !threw ==> Begun(w, x, e, base, s, env)
    ensures threw ==> w.Valid() && w.place == StopAtNote(w.graph, e, s, env, x)
  {
    hide Shape, At, DefinedIn, Starts, PartialPlan, ElementHead, StopAtNote;
    threw := BeginHead(w, x, e, base, open, s, env);
    if !threw && x.partial.Some? {
      DeliverPartial(w, x.partial.value, Inside(e, s.nodes, HeadOf(w.graph, DefinedIn(w.graph, e, s), env, x)),
                     base + [true], env);
    }
  }

  method DeliverPartial(w: Writer, p: PsviElement, ghost e: Place, ghost base: seq<bool>, ghost env: Env)
    requires At(w, e, base, false, Shown(Start, env)) && base != [] && PsviElementLinked(w.graph, p)
    modifies w, w.indentChars
    ensures Same(w) && Asking(w) && w.Scope() == env.scope
    ensures At(w, e.(done := PartialPlan(w.graph, e.done, p, None)), base, false, Shown(Start, env))
  {
    hide Shape, PartialPlan, PsviElementLinked;
    w.HandlePartialElementPSVI(p);
  }

  method BeginHead(w: Writer, x: ElementEvents, ghost e: Place, ghost base: seq<bool>, ghost open: bool,
                   ghost s: Shown, ghost env: Env)
    returns (threw: bool)
    requires At(w, e, base, open, Shown(s.nodes, env)) && ContentOk(w.graph, Nested(x))
    modifies w, w.indentChars
    ensures Same(w) && Asking(w) && w.Scope() == env.scope
    ensures threw <==> !Starts(w.graph, DefinedIn(w.graph, e, s), env, x)
    ensures !threw ==> At(w, Inside(e, s.nodes, HeadOf(w.graph, DefinedIn(w.graph, e, s), env, x)),
                          base + [true], false, Shown(Start, env))
    ensures threw ==> w.Valid() && w.place == StopAtNote(w.graph, e, s, env, x)
  {
    hide ChildPlace, ChildFlags, Shape, ElementHead, NotesLeft, AllFindable, Broken, DefinedAt, Now;
    ChildLevel(e, base, open, s.nodes);
    LevelDefined(w.graph, e, open, s.nodes);
    w.StartElement(x.attrs);
    threw := w.HandleAttributesPSVI(x.localName, x.uri, x.assessed);
  }

  /** The place an element leaves when it ends. */
  lemma ElementLeaves(c: Memory, e: Place, base: seq<bool>, s: Nodes, known: Nodes, any: bool, inner: Nodes,
                      close: PsviElement)
    requires Shape(Level(Inside(e, s, known), any, inner), base + [true] + [any])
    ensures ElementEnd(c, Level(Inside(e, s, known), any, inner), base + [true] + [any], close)
         == Level(e, true,
              s.Group(Element,
                ElementTail(c, if any then known.Group(Children, ActualValuePlan(inner, close.actual))
                               else ActualValuePlan(known, close.actual).Blank(Children),
                            close, if base == [] then close.model else None)))
  {
    hide ElementTail, ActualValuePlan, Shape;
    assert (base + [true] + [any])[..|base| + 1] == base + [true];
  }

  method FinishElement(w: Writer, x: ElementEvents, ghost e: Place, ghost base: seq<bool>, ghost s: Shown,
                       ghost env: Env)
    requires Filled(w, x, e, base, s, env) && ContentOk(w.graph, Nested(x))
    modifies w, w.indentChars
    ensures Same(w)
    ensures w.requests == old(w.requests) + EndRequests(w.graph, base == [], DefinedIn(w.graph, e, s), env, x)
    ensures At(w, e, base, true, ShowElement(w.graph, base == [], DefinedIn(w.graph, e, s), s.nodes, env, x))
  {
    hide At, Filled, ElementNodes, ShowInside, DefinedIn, EndAll, EndRequests;
    EndElement(w, x, e, base, s, env);
    EndElementMappings(w, x, e, base, Closing(w.graph, base == [], DefinedIn(w.graph, e, s), s.nodes, env, x));
  }

  /** An element that was shown up to the end of its content inside level e, after the trees s. */
  ghost predicate Filled(w: Writer, x: ElementEvents, e: Place, base: seq<bool>, s: Shown, env: Env)
    reads w, w.indentChars
  {
    var before := DefinedIn(w.graph, e, s);
    At(w, Inside(e, s.nodes, ElementStart(w.graph, before, env, x)), base + [true],
       AnyVisible(x.content, |x.content|), ShowInside(w.graph, before, env, x))
  }

  /** What is shown when an element has ended and its mappings have not. */
  ghost function Closing(c: Memory, root: bool, d: seq<Obj>, pre: Nodes, env: Env, e: ElementEvents): Shown {
    var inner := ShowInside(c, d, env, e);
    Shown(pre.Group(Element, ElementNodes(c, root, d, env, e, inner.nodes)), inner.env)
  }

  method EndElementMappings(w: Writer, x: ElementEvents, ghost e: Place, ghost base: seq<bool>, ghost s: Shown)
    requires At(w, e, base, true, s)
    modifies w
    ensures Same(w) && w.requests == old(w.requests)
    ensures At(w, e, base, true, Shown(s.nodes, s.env.(scope := EndAll(s.env.scope, x.mappings, |x.mappings|))))
  {
    EndMappings(w, x.mappings);
  }

  method EndElement(w: Writer, x: ElementEvents, ghost e: Place, ghost base: seq<bool>, ghost s: Shown,
                    ghost env: Env)
    requires Filled(w, x, e, base, s, env) && ContentOk(w.graph, Nested(x))
    modifies w, w.indentChars
    ensures Same(w)
    ensures At(w, e, base, true, Closing(w.graph, base == [], DefinedIn(w.graph, e, s), s.nodes, env, x))
    ensures w.requests == old(w.requests) + EndRequests(w.graph, base == [], DefinedIn(w.graph, e, s), env, x)
  {
    hide Shape, At, ElementStart, AnyVisible, Inside, DefinedIn, ShowInside, Closing, EndRequests, MentionedAt;
    ghost var before, any := w.requests, AnyVisible(x.content, |x.content|);
    ghost var d, known := DefinedIn(w.graph, e, s), ElementStart(w.graph, DefinedIn(w.graph, e, s), env, x);
    ghost var inner := ShowInside(w.graph, d, env, x);
    BeginAsking(w, Inside(e, s.nodes, known), base + [true], any, inner);
    OpenIs(w, Inside(e, s.nodes, known), base + [true], any, inner);
    CloseElement(w, x, e, base, s, env);
    EndedAsking(w, before, x, e, base, s, env);
  }

  method CloseElement(w: Writer, x: ElementEvents, ghost e: Place, ghost base: seq<bool>, ghost s: Shown,
                      ghost env: Env)
    requires Filled(w, x, e, base, s, env) && ContentOk(w.graph, Nested(x))
    modifies w, w.indentChars
    ensures Same(w) && Asking(w)
    ensures At(w, e, base, true, Closing(w.graph, base == [], DefinedIn(w.graph, e, s), s.nodes, env, x))
  {
    hide Shape, ElementStart, ElementEnd, ElementTail, ActualValuePlan, AnyVisible, Inside, PsviElementLinked,
         DefinedIn, ShowInside;
    ghost var any, before := AnyVisible(x.content, |x.content|), DefinedIn(w.graph, e, s);
    ElementLeaves(w.graph, e, base, s.nodes, ElementStart(w.graph, before, env, x), any,
                  ShowInside(w.graph, before, env, x).nodes, x.close);
    assert (base + [true] + [any])[..|base| + 1] == base + [true];
    w.HandleElementPSVI(x.close);
  }

  lemma EndedAsking(w: Writer, before: seq<Request>, x: ElementEvents, e: Place, base: seq<bool>, s: Shown, env: Env)
    requires At(w, e, base, true, Closing(w.graph, base == [], DefinedIn(w.graph, e, s), s.nodes, env, x))
    requires w.Asked() && w.asked == before
    requires Objects(before) == MentionedAt(w.graph, EndPlace(w.graph, e, s, env, x))
    ensures w.requests == before + EndRequests(w.graph, base == [], DefinedIn(w.graph, e, s), env, x)
  {
    hide Shape, MentionedAt, DefinedIn, Writer.Valid, Writer.Asked, ElementNodes, Expand, Mentioned, EndPlace,
         ShowInside, InsideDefined, Now, EndTrees;
    var c, root, d := w.graph, base == [], DefinedIn(w.graph, e, s);
    var inner := ShowInside(c, d, env, x);
    EndMentioned(c, root, e, s, env, x);
    AtValid(w, e, base, true, Closing(c, root, d, s.nodes, env, x));
    AskedWhat(w, before, Mentioned(Expand(c, Now(c, InsideDefined(c, d, env, x), inner.nodes), EndTrees(c, root, x))));
  }

  lemma AtValid(w: Writer, e: Place, base: seq<bool>, open: bool, s: Shown)
    requires At(w, e, base, open, s)
    ensures w.Valid() && w.place == Level(e, open, s.nodes) && w.Scope() == s.env.scope
  {
    hide Writer.Valid, Shape;
  }

  // -------------------------------------------------------------------------
  //  Documents
  // -------------------------------------------------------------------------

  /**
   * The lines added for a document are those of its tree. Their ids are those of the table that the mentions of
   * the tree give, each made with the prefix in scope. The writer throws exactly if some element does not start;
   * then the lines and the mentions are those up to there.
   */
  method WriteDocument(w: Writer, d: DocumentEvents) returns (threw: bool, ghost table: IdTable)
    requires w.AtRest() && DocumentOk(w.graph, d)
    modifies w, w.indentChars
    ensures threw <==> !DocumentRuns(w.graph, d)
    ensures table == DocumentTable(w.graph, d) && TableOk(w.graph, table)
    ensures NumbersSuffice(w.graph, d) <==> forall o :: o in table.counted ==> table.counted[o] <= 99999
    ensures !threw ==>
              var f := Expand(w.graph, [], DocumentNodes(w.graph, d));
              w.AtRest() && w.output == old(w.output) + Render(0, table.ids, f) && Known(table.ids, f)
    ensures threw ==>
              var z := DocumentStop(w.graph, d);
              && w.Valid() && w.place == z
              && w.output == old(w.output) + Printed(w.graph, table.ids, z) && KnownAt(w.graph, table.ids, z)
  {
    hide Shape, DocumentStart, ContentOk, AllRun, ShowAll, At, Expand, Render, Known, DocumentStop, StopAll,
         ContentRequests, StopRequests, TableOk, NumbersSuffice, DocumentTable;
    BeginDocument(w, d);
    DocumentDefined(w.graph, d);
    threw := DeliverAll(w, d.content, DocumentPlace(d), [], EmptyEnv());
    if threw {
      DocumentStops(w.graph, d);
      table := TakeTable(w, d);
    } else {
      table := FinishDocument(w, d);
    }
    NumbersDecide(w.graph, d);
  }

  ghost method TakeTable(w: Writer, d: DocumentEvents) returns (table: IdTable)
    requires w.Valid() && !DocumentRuns(w.graph, d) && w.requests == MentionsMade(w.graph, d)
    ensures table == w.Ids() == DocumentTable(w.graph, d)
  {
    hide MentionsMade, MintAll, TableOk, Traces, MentionedAt;
    table := w.Ids();
  }

  method FinishDocument(w: Writer, d: DocumentEvents) returns (ghost table: IdTable)
    requires At(w, DocumentPlace(d), [], AnyVisible(d.content, |d.content|), DocumentContent(w.graph, d))
    requires DocumentRuns(w.graph, d) && w.requests == RequestsOf(w.graph, d)
    modifies w, w.indentChars
    ensures w.AtRest() && table == DocumentTable(w.graph, d)
    ensures var f := Expand(w.graph, [], DocumentNodes(w.graph, d));
            w.output == old(w.earlier) + Render(0, table.ids, f) && Known(table.ids, f)
    ensures w.indentChars == old(w.indentChars) || fresh(w.indentChars)
  {
    hide Shape, DocumentStart, DocumentContent, AnyVisible, Expand, Render, Known, MentionedAt, RequestsOf, TableOk;
    ghost var inner, any := DocumentContent(w.graph, d), AnyVisible(d.content, |d.content|);
    assert w.elementChildren == [any];
    BeginAsking(w, DocumentPlace(d), [], any, inner);
    ghost var before := w.requests;
    DocumentLeaves(w.graph, d, w.place, any, inner);
    ghost var asks;
    table, asks := w.EndDocument();
    DocumentAsks(w.graph, d, before, asks, inner, any);
  }

  /** The last properties of the document mention nothing. */
  lemma DocumentAsks(c: Memory, d: DocumentEvents, before: seq<Request>, asks: seq<Request>, inner: Shown, any: bool)
    requires inner == DocumentContent(c, d) && any == AnyVisible(d.content, |d.content|)
    requires (!any ==> inner.nodes == Start) && before <= asks
    requires Objects(before) == MentionedAt(c, Level(DocumentPlace(d), any, inner.nodes))
    requires Objects(asks) == MentionedAt(c, Place(DocumentNodes(c, d), Nothing))
    ensures asks == before
  {
    DocumentMentions(c, d, inner, any);
    assert |asks| == |Objects(asks)| == |Objects(before)| == |before|;
  }

  method BeginDocument(w: Writer, d: DocumentEvents)
    requires w.AtRest()
    modifies w, w.indentChars
    ensures w.earlier == old(w.output) && (w.indentChars == old(w.indentChars) || fresh(w.indentChars))
    ensures At(w, DocumentPlace(d), [], false, Shown(Start, EmptyEnv())) && w.requests == []
  {
    ShowDocumentStart(w, d);
    DocumentMentioned(w.graph, d);
    NoRequests(w);
  }

  lemma NoRequests(w: Writer)
    requires w.Valid() && MentionedAt(w.graph, w.place) == []
    ensures w.requests == []
  {
  }

  method ShowDocumentStart(w: Writer, d: DocumentEvents)
    requires w.AtRest()
    modifies w, w.indentChars
    ensures w.earlier == old(w.output) && (w.indentChars == old(w.indentChars) || fresh(w.indentChars))
    ensures At(w, DocumentPlace(d), [], false, Shown(Start, EmptyEnv()))
  {
    w.StartDocument();
    if d.declaration.Some? {
      var x := d.declaration.value;
      w.XMLDecl(x.version, x.encoding, x.standalone, x.autoEncoding);
    }
  }

  lemma DocumentLeaves(c: Memory, d: DocumentEvents, z: Place, any: bool, inner: Shown)
    requires inner == DocumentContent(c, d) && any == AnyVisible(d.content, |d.content|)
    requires z == Level(DocumentPlace(d), any, inner.nodes)
    requires Shape(z, [any])
    ensures DocumentEnd(Closed(z, [any]), inner.env.baseUri) == Place(DocumentNodes(c, d), Nothing)
    ensures forall ids :: Printed(c, ids, Place(DocumentNodes(c, d), Nothing))
                       == Render(0, ids, Expand(c, [], DocumentNodes(c, d)))
  {
    hide Shape, DocumentStart, ShowAll, AnyVisible, Expand, Render;
  }
}
