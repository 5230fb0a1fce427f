/**
 * The namespaces shown with an element are the mappings of the element and of the elements around it, in order, as long
 * as no prefix and no uri is bound again.
 */
module PsviInScope {
  import opened PsviOutput
  import opened PsviComponents
  import opened PsviDocument
  import opened PsviReports
  import opened PsviExpansion
  import opened PsviItems
  import opened PsviScopes
  import Names = PsviNamespaces
  import ReadBack = PsviReadBack
  import Reader = PsviReader

  type Mapping = (string, string)

  /** No two of the mappings have the same prefix or the same uri. */
  predicate NoReuse(list: seq<Mapping>) {
    forall i, j :: 0 <= i < j < |list| ==> list[i].0 != list[j].0 && list[i].1 != list[j].1
  }

  /** In scope are exactly these mappings, in this order. */
  ghost predicate IsScope(s: Names.Scope, list: seq<Mapping>) {
    && |s.uris| == |list| && (forall i :: 0 <= i < |list| ==> s.uris[i] == list[i].1)
    && (forall u :: u in s.prefixes <==> u in s.uris)
    && (forall i :: 0 <= i < |list| ==> list[i].1 in s.prefixes && s.prefixes[list[i].1] == list[i].0)
  }

  /** No element in the content, at any depth, binds the prefix of one of the mappings. */
  predicate BindsNone(list: seq<Mapping>, x: Content) {
    x.Nested? ==>
      && (forall i, j :: 0 <= i < |list| && 0 <= j < |x.element.mappings| ==> list[i].0 != x.element.mappings[j].0)
      && (forall i :: 0 <= i < |x.element.content| ==> BindsNone(list, x.element.content[i]))
  }

  // -------------------------------------------------------------------------
  //  Elements in a document
  // -------------------------------------------------------------------------

  /** The path leads to an element: one step into the content of each element on the way. */
  predicate IsPath(content: seq<Content>, path: seq<nat>)
    decreases |path|
  {
    path != [] && path[0] < |content| && content[path[0]].Nested? &&
    (|path| > 1 ==> IsPath(content[path[0]].element.content, path[1..]))
  }

  function ElementAt(content: seq<Content>, path: seq<nat>): ElementEvents
    requires IsPath(content, path)
    decreases |path|
  {
    var e := content[path[0]].element;
    if |path| == 1 then e else ElementAt(e.content, path[1..])
  }

  /** The mappings declared on the way, those of the element at the end included. */
  function MappingsOn(content: seq<Content>, path: seq<nat>): seq<Mapping>
    requires IsPath(content, path)
    decreases |path|
  {
    var e := content[path[0]].element;
    e.mappings + if |path| == 1 then [] else MappingsOn(e.content, path[1..])
  }

  /** What stands before the elements on the way binds no prefix that is bound around it. */
  predicate Clear(outer: seq<Mapping>, content: seq<Content>, path: seq<nat>)
    requires IsPath(content, path)
    decreases |path|
  {
    var e := content[path[0]].element;
    && (forall i :: 0 <= i < path[0] ==> BindsNone(outer, content[i]))
    && (|path| > 1 ==> Clear(outer + e.mappings, e.content, path[1..]))
  }

  /** How many of the first n pieces of content are shown. */
  function CountVisible(content: seq<Content>, n: nat): nat
    requires n <= |content|
  {
    if n == 0 then 0 else CountVisible(content, n - 1) + if Visible(content[n - 1]) then 1 else 0
  }

  /** The report on the element at the end of the path. */
  function ReportAt(reports: seq<Report>, content: seq<Content>, path: seq<nat>): Report
    requires IsPath(content, path)
    decreases |path|
  {
    var k := CountVisible(content, path[0]);
    if k >= |reports| then OtherReport
    else if |path| == 1 then reports[k]
    else if !reports[k].ElementReport? then OtherReport
    else ReportAt(reports[k].children, content[path[0]].element.content, path[1..])
  }

  // -------------------------------------------------------------------------
  //  Starting mappings
  // -------------------------------------------------------------------------

  lemma OneMore(s: Names.Scope, list: seq<Mapping>, m: Mapping)
    requires IsScope(s, list) && NoReuse(list + [m])
    ensures IsScope(Names.StartMapping(s, m.0, m.1), list + [m])
  {
    var t, more := Names.StartMapping(s, m.0, m.1), list + [m];
    assert forall i :: 0 <= i < |list| ==> more[i] == list[i] && list[i].1 != more[|list|].1;
    assert m.1 !in s.uris;
    assert t.uris == s.uris + [m.1];
  }

  lemma NoReuseFront(a: seq<Mapping>, b: seq<Mapping>)
    requires NoReuse(a + b)
    ensures NoReuse(a)
  {
    assert forall i :: 0 <= i < |a| ==> (a + b)[i] == a[i];
  }

  lemma {:induction false} AllStarted(s: Names.Scope, list: seq<Mapping>, own: seq<Mapping>, n: nat)
    requires n <= |own| && IsScope(s, list) && NoReuse(list + own)
    ensures IsScope(StartAll(s, own, n), list + own[..n])
    decreases n
  {
    hide IsScope, NoReuse;
    if n == 0 {
      assert list + own[..0] == list;
    } else {
      AllStarted(s, list, own, n - 1);
      assert (list + own[..n - 1]) + [own[n - 1]] == list + own[..n];
      assert (list + own[..n]) + own[n..] == list + own;
      NoReuseFront(list + own[..n], own[n..]);
      OneMore(StartAll(s, own, n - 1), list + own[..n - 1], own[n - 1]);
    }
  }

  lemma ScopeWellFormed(s: Names.Scope, list: seq<Mapping>)
    requires IsScope(s, list) && NoReuse(list)
    ensures Names.WellFormed(s)
  {
  }

  // -------------------------------------------------------------------------
  //  Content before an element
  // -------------------------------------------------------------------------

  lemma {:induction false} ThenPrefixes(a: Names.Mappings, b: Names.Mappings)
    ensures Names.Prefixes(Then(a, b)) == Names.Prefixes(a) + Names.Prefixes(b)
    decreases a
  {
    if a.Bind? {
      ThenPrefixes(a.after, b);
    }
  }

  lemma {:induction false} AroundPrefixes(own: seq<Mapping>, n: nat, inside: Names.Mappings, p: string)
    requires n <= |own| && p !in Names.Prefixes(inside) && forall j :: 0 <= j < n ==> own[j].0 != p
    ensures p !in Names.Prefixes(Around(own, n, inside))
    decreases n
  {
    if n > 0 {
      AroundPrefixes(own, n - 1, Names.Bind(own[n - 1].0, own[n - 1].1, inside, Names.Done), p);
    }
  }

  lemma {:induction false} BindsOther(list: seq<Mapping>, x: Content, k: nat)
    requires BindsNone(list, x) && k < |list|
    ensures list[k].0 !in Names.Prefixes(ContentMappings(x))
    decreases x, 0
  {
    hide Around, AllMappings;
    if x.Nested? {
      var e := x.element;
      AllBindOther(list, e.content, |e.content|, k);
      AroundPrefixes(e.mappings, |e.mappings|, AllMappings(e.content, |e.content|), list[k].0);
    }
  }

  lemma {:induction false} AllBindOther(list: seq<Mapping>, content: seq<Content>, n: nat, k: nat)
    requires n <= |content| && k < |list| && forall i :: 0 <= i < n ==> BindsNone(list, content[i])
    ensures list[k].0 !in Names.Prefixes(AllMappings(content, n))
    decreases content, n
  {
    hide ContentMappings, BindsNone, Then;
    if n > 0 {
      AllBindOther(list, content, n - 1, k);
      BindsOther(list, content[n - 1], k);
      ThenPrefixes(AllMappings(content, n - 1), ContentMappings(content[n - 1]));
    }
  }

  lemma {:induction false} EnvScope(env: Env, x: Content)
    ensures EnvAfter(env, x).scope == Names.Run(env.scope, ContentMappings(x))
    decreases x, 0
  {
    hide StartAll, EndAll, Around, Names.Run;
    if x.Nested? {
      var e := x.element;
      EnvScopes(Entered(env, e), e.content, |e.content|);
      RunAround(env.scope, e.mappings, |e.mappings|, AllMappings(e.content, |e.content|));
    } else {
      NothingRun(env.scope);
    }
  }

  lemma NothingRun(s: Names.Scope)
    ensures Names.Run(s, Names.Done) == s
  {
  }

  lemma {:induction false} EnvScopes(env: Env, content: seq<Content>, n: nat)
    requires n <= |content|
    ensures EnvAfterAll(env, content, n).scope == Names.Run(env.scope, AllMappings(content, n))
    decreases content, n
  {
    hide ContentMappings, EnvAfter, Names.Run;
    if n == 0 {
      NothingRun(env.scope);
    } else {
      EnvScopes(env, content, n - 1);
      EnvScope(EnvAfterAll(env, content, n - 1), content[n - 1]);
      RunThen(env.scope, AllMappings(content, n - 1), ContentMappings(content[n - 1]));
    }
  }

  /** Content that binds no prefix in scope leaves the scope as it was. */
  lemma BeforeRestores(env: Env, list: seq<Mapping>, content: seq<Content>, n: nat)
    requires n <= |content| && IsScope(env.scope, list) && NoReuse(list)
    requires forall i :: 0 <= i < n ==> BindsNone(list, content[i])
    ensures EnvAfterAll(env, content, n).scope == env.scope
  {
    hide EnvAfterAll, AllMappings, BindsNone, Names.Run, Names.WellFormed;
    var m := AllMappings(content, n);
    EnvScopes(env, content, n);
    ScopeWellFormed(env.scope, list);
    forall k | 0 <= k < |list| ensures list[k].0 !in Names.Prefixes(m) { AllBindOther(list, content, n, k); }
    Names.NestedMappingsRestore(env.scope, m);
  }

  // -------------------------------------------------------------------------
  //  The namespaces shown
  // -------------------------------------------------------------------------

  lemma {:induction false} CountReports(c: Memory, ids: map<Obj, string>, env: Env, content: seq<Content>, n: nat,
                                        i: nat)
    requires i < n <= |content| && content[i].Nested?
    ensures var e, reports := content[i].element, AllToTell(c, ids, env, content, n);
            && |reports| == CountVisible(content, n) && CountVisible(content, i) < |reports|
            && reports[CountVisible(content, i)] == ElementToTell(c, ids, Entered(EnvAfterAll(env, content, i), e), e)
    decreases n
  {
    hide EnvAfterAll, ElementToTell;
    if i < n - 1 {
      CountReports(c, ids, env, content, n - 1, i);
    } else {
      ReportCount(c, ids, env, content, n - 1);
    }
  }

  lemma {:induction false} ReportCount(c: Memory, ids: map<Obj, string>, env: Env, content: seq<Content>, n: nat)
    requires n <= |content|
    ensures |AllToTell(c, ids, env, content, n)| == CountVisible(content, n)
    decreases n
  {
    hide EnvAfterAll, ElementToTell;
    if n > 0 {
      ReportCount(c, ids, env, content, n - 1);
    }
  }

  /** The name of an element, and the namespaces in scope: that of XML, and the mappings. */
  predicate NamedIn(r: Report, e: ElementEvents, list: seq<Mapping>) {
    && r.ElementReport? && r.name.uri == e.uri && r.name.localName == e.localName
    && r.name.namespaces == [("xml", "http://www.w3.org/XML/1998/namespace")] + list
    && (forall i :: 0 <= i < |list| && list[i].1 == e.uri ==> r.name.prefix == list[i].0)
    && ((forall i :: 0 <= i < |list| ==> list[i].1 != e.uri) ==> r.name.prefix == "")
  }

  lemma NameInScope(c: Memory, ids: map<Obj, string>, env: Env, e: ElementEvents, list: seq<Mapping>)
    requires IsScope(env.scope, list)
    ensures NamedIn(ElementToTell(c, ids, env, e), e, list)
  {
    hide AttributesToTell, OutcomeToTell, AllToTell, ActualToTell;
    var s := env.scope;
    assert [("xml", "http://www.w3.org/XML/1998/namespace")] + list == NamespacesToTell(s, |s.uris|);
  }

  lemma {:induction false} InScopeAt(c: Memory, ids: map<Obj, string>, env: Env, content: seq<Content>, path: seq<nat>,
                                     outer: seq<Mapping>)
    requires IsPath(content, path) && IsScope(env.scope, outer) && Clear(outer, content, path)
    requires NoReuse(outer + MappingsOn(content, path))
    ensures NamedIn(ReportAt(AllToTell(c, ids, env, content, |content|), content, path), ElementAt(content, path),
                    outer + MappingsOn(content, path))
    decreases |path|
  {
    hide EnvAfterAll, AllToTell, NamedIn, IsScope, NoReuse, BindsNone, StartAll, CountVisible;
    var e, list := content[path[0]].element, outer + content[path[0]].element.mappings;
    var before := EnvAfterAll(env, content, path[0]);
    var rest := if |path| == 1 then [] else MappingsOn(e.content, path[1..]);
    assert list + rest == outer + MappingsOn(content, path);
    NoReuseFront(list, rest);
    NoReuseFront(outer, e.mappings);
    BeforeRestores(env, outer, content, path[0]);
    AllStarted(env.scope, outer, e.mappings, |e.mappings|);
    assert e.mappings[..|e.mappings|] == e.mappings;
    CountReports(c, ids, env, content, |content|, path[0]);
    var inside := Entered(before, e);
    assert inside.scope == StartAll(env.scope, e.mappings, |e.mappings|);
    if |path| == 1 {
      assert list == outer + MappingsOn(content, path);
      NameInScope(c, ids, inside, e, list);
    } else {
      InScopeAt(c, ids, inside, e.content, path[1..], list);
    }
  }

  /**
   * For every element of a document, when the mappings on the way to it reuse neither prefix nor uri: the element is
   * reported with its name, the prefix of its namespace, and exactly the mappings declared on the way, in order.
   */
  lemma ScopeIsMappingsAround(c: Memory, ids: map<Obj, string>, d: DocumentEvents, path: seq<nat>)
    requires IsPath(d.content, path) && Clear([], d.content, path) && NoReuse(MappingsOn(d.content, path))
    ensures NamedIn(ReportAt(DocumentToTell(c, ids, d).children, d.content, path), ElementAt(d.content, path),
                    MappingsOn(d.content, path))
  {
    hide AllToTell, EnvAfterAll, NamedIn, NoReuse, Clear, MappingsOn;
    var list := MappingsOn(d.content, path);
    assert [] + list == list;
    InScopeAt(c, ids, EmptyEnv(), d.content, path, []);
  }

  /** So the lines tell it, of every document that is shown to the end. */
  lemma ScopeOnLines(c: Memory, ids: map<Obj, string>, d: DocumentEvents, path: seq<nat>)
    requires DocumentOk(c, d) && DocumentRuns(c, d)
    requires IsPath(d.content, path) && Clear([], d.content, path) && NoReuse(MappingsOn(d.content, path))
    ensures var read := Reader.ReadAll(Reader.Outermost(NO_ITEMS), Render(0, ids, Expand(c, [], DocumentNodes(c, d))));
            && read.Some? && read.value.Outermost? && |Kids(read.value.done)| == 1
            && var root := Kids(read.value.done)[0];
               && root.Elem?
               && NamedIn(ReportAt(DecodeDocument(root.children).children, d.content, path), ElementAt(d.content, path),
                          MappingsOn(d.content, path))
  {
    hide Reader.ReadAll, Render, Expand, DecodeDocument, DocumentToTell, DocumentNodes, NamedIn, DocumentRuns,
         DocumentOk, ReportAt, ElementAt, MappingsOn, Clear;
    ReadBack.DocumentReadBack(c, ids, d);
    ScopeIsMappingsAround(c, ids, d, path);
  }
}
