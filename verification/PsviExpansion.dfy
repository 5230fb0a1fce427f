/**
 * The schema walk as a function on trees: every Inline becomes a definition the first time and a reference
 * afterwards. The component graph may be cyclic; the walk ends because every definition of a local
 * component shrinks the set of local components not yet defined.
 */
module PsviExpansion {
  import opened PsviOutput
  import opened PsviComponents
  import opened PsviPlans
  import opened PsviUses

  function Seen(d: seq<Obj>): set<Obj> { set o | o in d }

  /** The local components not yet defined. */
  function Undefined(c: Memory, d: seq<Obj>): set<Obj> { Locals(c) - Seen(d) }

  lemma UndefinedAfter(c: Memory, d: seq<Obj>, o: Obj)
    ensures Undefined(c, d + [o]) == Undefined(c, d) - {o}
  {
    assert Seen(d + [o]) == Seen(d) + {o};
  }

  /** The trees with every Inline resolved, when the objects in d are already defined. */
  function Expand(c: Memory, d: seq<Obj>, f: Nodes): Nodes
    decreases Undefined(c, d), f
  {
    match f
    case Start => Start
    case More(front, last) =>
      var before := Expand(c, d, front);
      assert Undefined(c, d + Fixed(before)) <= Undefined(c, d);
      More(before, Step(c, d + Fixed(before), last))
  }

  function Step(c: Memory, d: seq<Obj>, n: Node): Node
    decreases Undefined(c, d), n
  {
    match n
    case Branch(tag, head, children) =>
      assert Undefined(c, d + HeadObj(head)) <= Undefined(c, d);
      Branch(tag, head, Expand(c, d + HeadObj(head), children))
    case Remark(children) => Remark(Expand(c, d, children))
    case Link(tag, o, _) => Link(tag, o, false)
    case Inline(o) =>
      if IsLocal(c, o) && o !in d then
        assert o in Undefined(c, d) && o !in Undefined(c, d + [o]);
        assert Undefined(c, d + [o]) <= Undefined(c, d);
        Branch(TagOf(c, o), Named(o), Expand(c, d + [o], Contents(c, o)))
      else
        Link(TagOf(c, o), o, IsLocal(c, o))
    case _ => n
  }

  /** The objects defined after the trees f, when those in d were defined before. */
  function Now(c: Memory, d: seq<Obj>, f: Nodes): seq<Obj> { d + Fixed(Expand(c, d, f)) }

  // -------------------------------------------------------------------------
  //  Comments
  // -------------------------------------------------------------------------

  lemma {:induction false} ExpandQuiet(c: Memory, d: seq<Obj>, f: Nodes)
    requires Quiet(f)
    ensures Quiet(Expand(c, d, f))
    decreases Undefined(c, d), f
  {
    if f.More? {
      ExpandQuiet(c, d, f.front);
      var d1 := d + Fixed(Expand(c, d, f.front));
      assert Undefined(c, d1) <= Undefined(c, d);
      StepQuiet(c, d1, f.last);
    }
  }

  lemma {:induction false} StepQuiet(c: Memory, d: seq<Obj>, n: Node)
    requires QuietNode(n)
    ensures QuietNode(Step(c, d, n))
    decreases Undefined(c, d), n
  {
    match n
    case Branch(_, head, children) =>
      assert Undefined(c, d + HeadObj(head)) <= Undefined(c, d);
      ExpandQuiet(c, d + HeadObj(head), children);
    case Inline(o) =>
      if IsLocal(c, o) && o !in d {
        assert o in Undefined(c, d) && o !in Undefined(c, d + [o]);
        assert Undefined(c, d + [o]) <= Undefined(c, d);
        ExpandQuiet(c, d + [o], Contents(c, o));
      }
    case _ =>
  }

  /** Expansion never puts a comment inside a comment. */
  lemma {:induction false} ExpandFlat(c: Memory, d: seq<Obj>, f: Nodes)
    requires CommentsFlat(f)
    ensures CommentsFlat(Expand(c, d, f))
    decreases f
  {
    if f.More? {
      ExpandFlat(c, d, f.front);
      var d1 := d + Fixed(Expand(c, d, f.front));
      match f.last
      case Branch(_, head, children) => ExpandFlat(c, d1 + HeadObj(head), children);
      case Remark(children) => ExpandQuiet(c, d1, children);
      case Inline(o) =>
        StepQuiet(c, d1, f.last);
        if IsLocal(c, o) && o !in d1 {
          QuietIsFlat(Step(c, d1, f.last).children);
        }
      case _ =>
    }
  }

  // -------------------------------------------------------------------------
  //  References back to local components
  // -------------------------------------------------------------------------

  /** Every reference to a local component stands after that component's definition. */
  predicate BackResolved(d: seq<Obj>, m: seq<Mention>) {
    forall k :: 0 <= k < |m| && m[k].Use? && m[k].back ==> m[k].obj in d || Def(m[k].obj) in m[..k]
  }

  lemma {:induction false} MentionsDefine(f: Nodes, o: Obj)
    ensures o in Fixed(f) <==> Def(o) in Mentions(f)
    decreases f
  {
    if f.More? {
      MentionsDefine(f.front, o);
      if f.last.Branch? || f.last.Remark? {
        MentionsDefine(f.last.children, o);
      }
    }
  }

  lemma BackResolvedAppend(d: seq<Obj>, a: seq<Mention>, e: seq<Obj>, b: seq<Mention>)
    requires BackResolved(d, a) && BackResolved(e, b)
    requires forall o :: o in e ==> o in d || Def(o) in a
    ensures BackResolved(d, a + b)
  {
    var m := a + b;
    forall k | 0 <= k < |m| && m[k].Use? && m[k].back
      ensures m[k].obj in d || Def(m[k].obj) in m[..k]
    {
      if k < |a| {
        assert m[k] == a[k] && m[..k] == a[..k];
      } else {
        assert m[k] == b[k - |a|] && m[..k] == a + b[..k - |a|];
      }
    }
  }

  /**
   * Every reference printed for an anonymous type or a non-global declaration comes after its definition:
   * the object is in d or was defined earlier in the same output.
   */
  lemma {:induction false} ReferencesResolve(c: Memory, d: seq<Obj>, f: Nodes)
    ensures BackResolved(d, Mentions(Expand(c, d, f)))
    decreases Undefined(c, d), f
  {
    if f.More? {
      var e := Expand(c, d, f.front);
      var d1 := d + Fixed(e);
      assert Undefined(c, d1) <= Undefined(c, d);
      ReferencesResolve(c, d, f.front);
      StepResolves(c, d1, f.last);
      forall o | o in d1 ensures o in d || Def(o) in Mentions(e) { MentionsDefine(e, o); }
      BackResolvedAppend(d, Mentions(e), d1, MentionsNode(Step(c, d1, f.last)));
    }
  }

  lemma {:induction false} StepResolves(c: Memory, d: seq<Obj>, n: Node)
    ensures BackResolved(d, MentionsNode(Step(c, d, n)))
    decreases Undefined(c, d), n
  {
    match n
    case Branch(_, head, children) =>
      var e := d + HeadObj(head);
      assert Undefined(c, e) <= Undefined(c, d);
      ReferencesResolve(c, e, children);
      BackResolvedAppend(d, if head.Named? then [Def(head.obj)] else [], e, Mentions(Expand(c, e, children)));
    case Remark(children) => ReferencesResolve(c, d, children);
    case Inline(o) =>
      if IsLocal(c, o) && o !in d {
        var e := d + [o];
        assert o in Undefined(c, d) && o !in Undefined(c, e);
        assert Undefined(c, e) <= Undefined(c, d);
        ReferencesResolve(c, e, Contents(c, o));
        BackResolvedAppend(d, [Def(o)], e, Mentions(Expand(c, e, Contents(c, o))));
      }
    case _ =>
  }

  // -------------------------------------------------------------------------
  //  Exactly the local components in use are defined
  // -------------------------------------------------------------------------

  /** A chain of local components: the first is among the roots, each next one is used by the one before. */
  predicate Chain(c: Memory, roots: set<Obj>, path: seq<Obj>) {
    path != [] &&
    if |path| == 1 then path[0] in roots
    else Chain(c, roots, path[..|path| - 1]) && UsedBy(c, path[|path| - 2], path[|path| - 1])
  }

  ghost predicate Reachable(c: Memory, roots: set<Obj>, o: Obj) {
    exists path :: Chain(c, roots, path) && path[|path| - 1] == o
  }

  lemma RootReachable(c: Memory, roots: set<Obj>, o: Obj)
    requires o in roots
    ensures Reachable(c, roots, o)
  {
    assert Chain(c, roots, [o]) && [o][|[o]| - 1] == o;
  }

  lemma ReachableStep(c: Memory, roots: set<Obj>, o: Obj, p: Obj)
    requires Reachable(c, roots, o) && UsedBy(c, o, p)
    ensures Reachable(c, roots, p)
  {
    hide UsedBy;
    var path :| Chain(c, roots, path) && path[|path| - 1] == o;
    var longer := path + [p];
    assert longer[..|longer| - 1] == path;
    assert Chain(c, roots, longer) && longer[|longer| - 1] == p;
  }

  /** What is reachable from roots that are all reachable is reachable. */
  lemma {:induction false} ReachableVia(c: Memory, roots: set<Obj>, others: set<Obj>, path: seq<Obj>)
    requires (forall o :: o in others ==> Reachable(c, roots, o)) && Chain(c, others, path)
    ensures Reachable(c, roots, path[|path| - 1])
    decreases |path|
  {
    hide UsedBy, Reachable;
    if |path| > 1 {
      ReachableVia(c, roots, others, path[..|path| - 1]);
      ReachableStep(c, roots, path[|path| - 2], path[|path| - 1]);
    }
  }

  lemma ReachableGrows(c: Memory, roots: set<Obj>, others: set<Obj>, o: Obj)
    requires others <= roots && Reachable(c, others, o)
    ensures Reachable(c, roots, o)
  {
    var path :| Chain(c, others, path) && path[|path| - 1] == o;
    forall x | x in others ensures Reachable(c, roots, x) { RootReachable(c, roots, x); }
    ReachableVia(c, roots, others, path);
  }

  lemma ReachableInside(c: Memory, o: Obj, p: Obj)
    requires IsLocal(c, o) && Reachable(c, LocalUses(c, Contents(c, o)), p)
    ensures Reachable(c, {o}, p)
  {
    hide Contents, LocalUses, UsedBy;
    var others := LocalUses(c, Contents(c, o));
    var path :| Chain(c, others, path) && path[|path| - 1] == p;
    RootReachable(c, {o}, o);
    forall x | x in others ensures Reachable(c, {o}, x) {
      ContentsUse(c, o, x);
      ReachableStep(c, {o}, o, x);
    }
    ReachableVia(c, {o}, others, path);
  }

  lemma ConstraintNotLocal(c: Graph, o: Obj, x: Obj)
    requires x in OwnConstraints(c, o)
    ensures IsConstraint(c, x) && !IsLocal(c, x)
  {
    assert Linked(c, c[o]);
  }

  /** Only reachable local components are defined, besides the objects the trees define themselves. */
  lemma {:induction false} OnlyReachableDefined(c: Graph, d: seq<Obj>, f: Nodes, x: Obj)
    requires IsLocal(c, x) && x in Fixed(Expand(c, d, f))
    ensures x in Fixed(f) || Reachable(c, LocalUses(c, f), x)
    decreases Undefined(c, d), f
  {
    hide Reachable;
    if f.More? {
      var e := Expand(c, d, f.front);
      var d1 := d + Fixed(e);
      assert Undefined(c, d1) <= Undefined(c, d);
      if x in Fixed(e) {
        OnlyReachableDefined(c, d, f.front, x);
        if x !in Fixed(f.front) {
          ReachableGrows(c, LocalUses(c, f), LocalUses(c, f.front), x);
        }
      } else {
        StepOnlyReachable(c, d1, f.last, x);
        if x !in FixedNode(f.last) {
          ReachableGrows(c, LocalUses(c, f), LocalUsesNode(c, f.last), x);
        }
      }
    }
  }

  lemma {:induction false} StepOnlyReachable(c: Graph, d: seq<Obj>, n: Node, x: Obj)
    requires IsLocal(c, x) && x in FixedNode(Step(c, d, n))
    ensures x in FixedNode(n) || Reachable(c, LocalUsesNode(c, n), x)
    decreases Undefined(c, d), n, 1
  {
    hide Reachable;
    match n
    case Branch(_, head, children) =>
      var e := d + HeadObj(head);
      assert Undefined(c, e) <= Undefined(c, d);
      if x !in HeadObj(head) {
        OnlyReachableDefined(c, e, children, x);
      }
    case Remark(children) => OnlyReachableDefined(c, d, children, x);
    case Inline(o) => InlineOnlyReachable(c, d, o, x);
    case _ =>
  }

  lemma {:induction false} InlineOnlyReachable(c: Graph, d: seq<Obj>, o: Obj, x: Obj)
    requires IsLocal(c, x) && x in FixedNode(Step(c, d, Inline(o)))
    ensures IsLocal(c, o) && Reachable(c, {o}, x)
    decreases Undefined(c, d), Inline(o), 0
  {
    hide Reachable;
    var e := d + [o];
    assert o in Undefined(c, d) && o !in Undefined(c, e);
    assert Undefined(c, e) <= Undefined(c, d);
    if x == o {
      RootReachable(c, {o}, o);
    } else {
      OnlyReachableDefined(c, e, Contents(c, o), x);
      if x in OwnConstraints(c, o) {
        ConstraintNotLocal(c, o, x);
      }
      ReachableInside(c, o, x);
    }
  }

  /** Everything in use is defined when the walk is over. */
  lemma {:induction false} UsesDefined(c: Memory, d: seq<Obj>, f: Nodes)
    ensures LocalUses(c, f) <= Seen(d + Fixed(Expand(c, d, f)))
    decreases f
  {
    if f.More? {
      UsesDefined(c, d, f.front);
      var d1 := d + Fixed(Expand(c, d, f.front));
      match f.last
      case Branch(_, head, children) => UsesDefined(c, d1 + HeadObj(head), children);
      case Remark(children) => UsesDefined(c, d1, children);
      case _ =>
    }
  }

  /** So is everything in use inside a definition the walk printed. */
  lemma {:induction false} ContentsDefined(c: Graph, d: seq<Obj>, f: Nodes, o: Obj)
    requires IsLocal(c, o) && o in Fixed(Expand(c, d, f)) && o !in Fixed(f)
    ensures LocalUses(c, Contents(c, o)) <= Seen(d + Fixed(Expand(c, d, f)))
    decreases Undefined(c, d), f
  {
    var e := Expand(c, d, f.front);
    var d1 := d + Fixed(e);
    assert Undefined(c, d1) <= Undefined(c, d);
    if o in Fixed(e) {
      ContentsDefined(c, d, f.front, o);
    } else {
      StepContentsDefined(c, d1, f.last, o);
    }
  }

  lemma {:induction false} StepContentsDefined(c: Graph, d: seq<Obj>, n: Node, o: Obj)
    requires IsLocal(c, o) && o in FixedNode(Step(c, d, n)) && o !in FixedNode(n)
    ensures LocalUses(c, Contents(c, o)) <= Seen(d + FixedNode(Step(c, d, n)))
    decreases Undefined(c, d), n, 1
  {
    match n
    case Branch(_, head, children) =>
      var e := d + HeadObj(head);
      assert Undefined(c, e) <= Undefined(c, d);
      ContentsDefined(c, e, children, o);
    case Remark(children) => ContentsDefined(c, d, children, o);
    case Inline(p) => InlineContentsDefined(c, d, p, o);
    case _ =>
  }

  lemma {:induction false} InlineContentsDefined(c: Graph, d: seq<Obj>, p: Obj, o: Obj)
    requires IsLocal(c, o) && o in FixedNode(Step(c, d, Inline(p)))
    ensures LocalUses(c, Contents(c, o)) <= Seen(d + FixedNode(Step(c, d, Inline(p))))
    decreases Undefined(c, d), Inline(p), 0
  {
    hide Contents, LocalUses;
    var e := d + [p];
    assert p in Undefined(c, d) && p !in Undefined(c, e);
    assert Undefined(c, e) <= Undefined(c, d);
    var f := Expand(c, e, Contents(c, p));
    assert d + ([p] + Fixed(f)) == e + Fixed(f);
    if o == p {
      UsesDefined(c, e, Contents(c, p));
    } else {
      if o in OwnConstraints(c, p) {
        ConstraintNotLocal(c, p, o);
      }
      ContentsDefined(c, e, Contents(c, p), o);
    }
  }

  lemma {:induction false} AllReachableDefined(c: Graph, f: Nodes, path: seq<Obj>)
    requires Chain(c, LocalUses(c, f), path)
    requires forall o :: o in Fixed(f) ==> !IsLocal(c, o)
    ensures path[|path| - 1] in Fixed(Expand(c, [], f))
    decreases |path|
  {
    if |path| == 1 {
      FirstDefined(c, f, path);
    } else {
      AllReachableDefined(c, f, path[..|path| - 1]);
      NextDefined(c, f, path);
    }
  }

  lemma FirstDefined(c: Graph, f: Nodes, path: seq<Obj>)
    requires |path| == 1 && Chain(c, LocalUses(c, f), path)
    ensures path[0] in Fixed(Expand(c, [], f))
  {
    hide Contents, Expand, Fixed, LocalUses;
    UsesDefined(c, [], f);
  }

  lemma NextDefined(c: Graph, f: Nodes, path: seq<Obj>)
    requires |path| > 1 && Chain(c, LocalUses(c, f), path)
    requires forall o :: o in Fixed(f) ==> !IsLocal(c, o)
    requires path[|path| - 2] in Fixed(Expand(c, [], f))
    ensures path[|path| - 1] in Fixed(Expand(c, [], f))
  {
    hide Contents, Expand, Fixed, LocalUses, IsLocal, UsedBy;
    var shorter := path[..|path| - 1];
    LocalUsesAreLocal(c, f, shorter);
    assert shorter[|shorter| - 1] == path[|path| - 2];
    ContentsDefined(c, [], f, path[|path| - 2]);
    ContentsUse(c, path[|path| - 2], path[|path| - 1]);
  }

  lemma {:induction false} UsesAreLocal(c: Memory, f: Nodes, o: Obj)
    requires o in LocalUses(c, f)
    ensures IsLocal(c, o)
    decreases f
  {
    if o in LocalUses(c, f.front) {
      UsesAreLocal(c, f.front, o);
    } else if f.last.Branch? || f.last.Remark? {
      UsesAreLocal(c, f.last.children, o);
    }
  }

  lemma LocalUsesAreLocal(c: Memory, f: Nodes, path: seq<Obj>)
    requires Chain(c, LocalUses(c, f), path)
    ensures IsLocal(c, path[|path| - 1])
  {
    if |path| == 1 {
      UsesAreLocal(c, f, path[0]);
    }
  }

  /**
   * The walk over a cyclic graph is a reachability computation: when the trees define no local component by
   * themselves, the local components defined are exactly those that can be reached from the trees.
   */
  lemma DefinedIffReachable(c: Graph, f: Nodes, o: Obj)
    requires forall x :: x in Fixed(f) ==> !IsLocal(c, x)
    requires IsLocal(c, o)
    ensures o in Fixed(Expand(c, [], f)) <==> Reachable(c, LocalUses(c, f), o)
  {
    if o in Fixed(Expand(c, [], f)) {
      OnlyReachableDefined(c, [], f, o);
    }
    if Reachable(c, LocalUses(c, f), o) {
      var path :| Chain(c, LocalUses(c, f), path) && path[|path| - 1] == o;
      AllReachableDefined(c, f, path);
    }
  }

  // -------------------------------------------------------------------------
  //  No object is defined twice
  // -------------------------------------------------------------------------

  predicate Distinct(s: seq<Obj>) {
    forall i, j :: 0 <= i < j < |s| ==> s[i] != s[j]
  }

  lemma DistinctAppend(a: seq<Obj>, b: seq<Obj>)
    ensures Distinct(a + b) <==> Distinct(a) && Distinct(b) && forall x :: x in a ==> x !in b
  {
    var s := a + b;
    if Distinct(s) {
      forall i, j | 0 <= i < j < |a| ensures a[i] != a[j] {
        assert s[i] == a[i] && s[j] == a[j];
      }
      forall i, j | 0 <= i < j < |b| ensures b[i] != b[j] {
        assert s[|a| + i] == b[i] && s[|a| + j] == b[j];
      }
      forall x | x in a ensures x !in b {
        var i :| 0 <= i < |a| && a[i] == x;
        forall j | 0 <= j < |b| ensures b[j] != x {
          assert s[i] == x && s[|a| + j] == b[j];
        }
      }
    }
    if Distinct(a) && Distinct(b) && forall x :: x in a ==> x !in b {
      forall i, j | 0 <= i < j < |s| ensures s[i] != s[j] {
        if i < |a| <= j {
          assert s[i] in a && s[j] == b[j - |a|];
        }
      }
    }
  }

  /** Each identity constraint belongs to one element declaration, and stands there once. */
  ghost predicate OneOwner(c: Memory) {
    && (forall o :: o in c ==> Distinct(OwnConstraints(c, o)))
    && (forall o, p, x :: o in c && p in c && x in OwnConstraints(c, o) && x in OwnConstraints(c, p) ==> o == p)
  }

  /** No identity constraint of a local declaration still to be defined is among the objects s. */
  ghost predicate Unused(c: Memory, d: seq<Obj>, s: seq<Obj>) {
    forall o, x :: IsLocal(c, o) && o !in d && x in OwnConstraints(c, o) ==> x !in s
  }

  /** Objects the walk may add on its own: local components and the constraints of those it adds. */
  ghost predicate Added(c: Memory, d: seq<Obj>, given: seq<Obj>, made: seq<Obj>) {
    forall x :: x in made ==>
      x in given || IsLocal(c, x) || exists o :: IsLocal(c, o) && o !in d && o in made && x in OwnConstraints(c, o)
  }

  ghost predicate CanDefine(c: Memory, d: seq<Obj>, given: seq<Obj>) {
    && Distinct(d + given)
    && (forall x :: x in given ==> !IsLocal(c, x))
    && Unused(c, d, d) && Unused(c, d, given)
  }

  ghost predicate DefinedOnce(c: Memory, d: seq<Obj>, given: seq<Obj>, made: seq<Obj>) {
    && Distinct(d + made)
    && Unused(c, d + made, d + made)
    && Added(c, d, given, made)
  }

  lemma OncePrefix(c: Memory, d: seq<Obj>, g1: seq<Obj>, g2: seq<Obj>)
    requires CanDefine(c, d, g1 + g2)
    ensures CanDefine(c, d, g1)
  {
    assert d + (g1 + g2) == (d + g1) + g2;
    DistinctAppend(d + g1, g2);
    UnusedPart(c, d, g1, g2);
  }

  lemma UnusedPart(c: Memory, d: seq<Obj>, a: seq<Obj>, b: seq<Obj>)
    requires Unused(c, d, a + b)
    ensures Unused(c, d, a) && Unused(c, d, b)
  {
    forall o, x | IsLocal(c, o) && o !in d && x in OwnConstraints(c, o) ensures x !in a && x !in b {
      assert x !in a + b;
    }
  }

  lemma OnceNext(c: Memory, d: seq<Obj>, g1: seq<Obj>, m1: seq<Obj>, g2: seq<Obj>)
    requires CanDefine(c, d, g1 + g2) && DefinedOnce(c, d, g1, m1)
    ensures CanDefine(c, d + m1, g2)
  {
    DistinctAppend(d, g1 + g2);
    DistinctAppend(g1, g2);
    DistinctAppend(d + m1, g2);
    UnusedPart(c, d, g1, g2);
  }

  lemma OnceBoth(c: Memory, d: seq<Obj>, g1: seq<Obj>, m1: seq<Obj>, g2: seq<Obj>, m2: seq<Obj>)
    requires DefinedOnce(c, d, g1, m1) && DefinedOnce(c, d + m1, g2, m2)
    ensures DefinedOnce(c, d, g1 + g2, m1 + m2)
  {
    assert d + (m1 + m2) == (d + m1) + m2;
  }

  lemma OnceGiven(c: Memory, d: seq<Obj>, g: seq<Obj>)
    requires CanDefine(c, d, g)
    ensures DefinedOnce(c, d, g, g)
  {
  }

  lemma OnceInline(c: Graph, d: seq<Obj>, o: Obj)
    requires OneOwner(c) && Distinct(d) && Unused(c, d, d)
    requires IsLocal(c, o) && o !in d
    ensures CanDefine(c, d + [o], OwnConstraints(c, o))
  {
    var own := OwnConstraints(c, o);
    forall x | x in own ensures x != o && !IsLocal(c, x) {
      ConstraintNotLocal(c, o, x);
    }
    forall p | IsLocal(c, p) ensures o !in OwnConstraints(c, p) {
      if o in OwnConstraints(c, p) {
        ConstraintNotLocal(c, p, o);
      }
    }
    DistinctAppend(d, [o]);
    DistinctAppend(d + [o], own);
  }

  lemma OnceInlined(c: Memory, d: seq<Obj>, o: Obj, m: seq<Obj>)
    requires IsLocal(c, o) && o !in d
    requires DefinedOnce(c, d + [o], OwnConstraints(c, o), m)
    ensures DefinedOnce(c, d, [], [o] + m)
  {
    assert d + ([o] + m) == (d + [o]) + m;
  }

  lemma {:induction false} ExpandOnce(c: Graph, d: seq<Obj>, f: Nodes)
    requires OneOwner(c) && CanDefine(c, d, Fixed(f))
    ensures DefinedOnce(c, d, Fixed(f), Fixed(Expand(c, d, f)))
    decreases Undefined(c, d), f
  {
    hide CanDefine;
    hide DefinedOnce;
    hide OneOwner;
    if f.More? {
      var e := Expand(c, d, f.front);
      var d1 := d + Fixed(e);
      assert Undefined(c, d1) <= Undefined(c, d);
      OncePrefix(c, d, Fixed(f.front), FixedNode(f.last));
      ExpandOnce(c, d, f.front);
      OnceNext(c, d, Fixed(f.front), Fixed(e), FixedNode(f.last));
      StepOnce(c, d1, f.last);
      OnceBoth(c, d, Fixed(f.front), Fixed(e), FixedNode(f.last), FixedNode(Step(c, d1, f.last)));
    } else {
      OnceGiven(c, d, []);
    }
  }

  lemma {:induction false} StepOnce(c: Graph, d: seq<Obj>, n: Node)
    requires OneOwner(c) && CanDefine(c, d, FixedNode(n))
    ensures DefinedOnce(c, d, FixedNode(n), FixedNode(Step(c, d, n)))
    decreases Undefined(c, d), n, 1
  {
    hide CanDefine, DefinedOnce, OneOwner;
    match n
    case Branch(tag, head, children) => BranchOnce(c, d, tag, head, children);
    case Remark(children) => ExpandOnce(c, d, children);
    case Inline(o) => InlineOnce(c, d, o);
    case _ => OnceGiven(c, d, []);
  }

  lemma UndefinedMore(c: Memory, d: seq<Obj>, more: seq<Obj>)
    ensures Undefined(c, d + more) <= Undefined(c, d)
  {
  }

  lemma BranchFixed(c: Memory, d: seq<Obj>, tag: Tag, head: Head, children: Nodes)
    ensures FixedNode(Branch(tag, head, children)) == HeadObj(head) + Fixed(children)
    ensures FixedNode(Step(c, d, Branch(tag, head, children)))
         == HeadObj(head) + Fixed(Expand(c, d + HeadObj(head), children))
  {
    hide Expand, Fixed;
  }

  lemma DefinedSoFar(c: Graph, d: seq<Obj>)
    requires CanDefine(c, d, [])
    ensures Distinct(d) && Unused(c, d, d)
  {
    assert d + [] == d;
  }

  lemma {:induction false} BranchOnce(c: Graph, d: seq<Obj>, tag: Tag, head: Head, children: Nodes)
    requires OneOwner(c) && CanDefine(c, d, HeadObj(head) + Fixed(children))
    ensures var n := Branch(tag, head, children); DefinedOnce(c, d, FixedNode(n), FixedNode(Step(c, d, n)))
    decreases Undefined(c, d), Branch(tag, head, children), 0
  {
    hide CanDefine, DefinedOnce, OneOwner, Undefined, Expand, Step, Fixed;
    var e := d + HeadObj(head);
    UndefinedMore(c, d, HeadObj(head));
    BranchFixed(c, d, tag, head, children);
    OncePrefix(c, d, HeadObj(head), Fixed(children));
    OnceGiven(c, d, HeadObj(head));
    OnceNext(c, d, HeadObj(head), HeadObj(head), Fixed(children));
    ExpandOnce(c, e, children);
    OnceBoth(c, d, HeadObj(head), HeadObj(head), Fixed(children), Fixed(Expand(c, e, children)));
  }

  lemma {:induction false} InlineOnce(c: Graph, d: seq<Obj>, o: Obj)
    requires OneOwner(c) && CanDefine(c, d, [])
    ensures DefinedOnce(c, d, [], FixedNode(Step(c, d, Inline(o))))
    decreases Undefined(c, d), Inline(o), 0
  {
    hide CanDefine, DefinedOnce, OneOwner, Expand, Fixed, Contents;
    if IsLocal(c, o) && o !in d {
      var e := d + [o];
      assert o in Undefined(c, d);
      UndefinedAfter(c, d, o);
      DefinedSoFar(c, d);
      OnceInline(c, d, o);
      ExpandOnce(c, e, Contents(c, o));
      OnceInlined(c, d, o, Fixed(Expand(c, e, Contents(c, o))));
    } else {
      OnceGiven(c, d, []);
    }
  }
}
