/**
 * The namespaces in scope along a document: its mappings are properly nested, so that what is known about nested
 * runs of mappings holds for every document.
 */
module PsviScopes {
  import opened PsviOutput
  import opened PsviComponents
  import opened PsviExpansion
  import opened PsviDocument
  import opened Names = PsviNamespaces

  /** One run behind the other. */
  function Then(a: Mappings, b: Mappings): Mappings {
    if a.Done? then b else Bind(a.prefix, a.uri, a.inside, Then(a.after, b))
  }

  /** The first n mappings of an element around its content. */
  function Around(mappings: seq<(string, string)>, n: nat, inside: Mappings): Mappings
    requires n <= |mappings|
    decreases n
  {
    if n == 0 then inside
    else Around(mappings, n - 1, Bind(mappings[n - 1].0, mappings[n - 1].1, inside, Done))
  }

  function ContentMappings(x: Content): Mappings
    decreases x, 0
  {
    if !x.Nested? then Done
    else
      var e := x.element;
      Around(e.mappings, |e.mappings|, AllMappings(e.content, |e.content|))
  }

  function AllMappings(content: seq<Content>, n: nat): Mappings
    requires n <= |content|
    decreases content, n
  {
    if n == 0 then Done else Then(AllMappings(content, n - 1), ContentMappings(content[n - 1]))
  }

  lemma {:induction false} RunThen(s: Scope, a: Mappings, b: Mappings)
    ensures Run(s, Then(a, b)) == Run(Run(s, a), b)
    decreases a
  {
    hide StartMapping, EndMapping;
    if a.Bind? {
      RunThen(EndMapping(Run(StartMapping(s, a.prefix, a.uri), a.inside), a.prefix), a.after, b);
    }
  }

  lemma {:induction false} RunAround(s: Scope, mappings: seq<(string, string)>, n: nat, inside: Mappings)
    requires n <= |mappings|
    ensures Run(s, Around(mappings, n, inside)) == EndAll(Run(StartAll(s, mappings, n), inside), mappings, n)
    decreases n
  {
    hide StartMapping, EndMapping;
    if n > 0 {
      RunAround(s, mappings, n - 1, Bind(mappings[n - 1].0, mappings[n - 1].1, inside, Done));
    }
  }

  /** What content does to the scope is the run of its mappings. */
  lemma {:induction false} ScopeIsRun(c: Memory, root: bool, d: seq<Obj>, s: Shown, x: Content)
    ensures ShowContent(c, root, d, s, x).env.scope == Run(s.env.scope, ContentMappings(x))
    decreases x
  {
    hide Now, InsideDefined, ElementNodes, StartAll, EndAll, ShowAll, Around;
    if x.Nested? {
      var e, before, env := x.element, Now(c, d, s.nodes), Entered(s.env, x.element);
      AllScopesRun(c, false, InsideDefined(c, before, env, e), Shown(Start, env), e.content, |e.content|);
      RunAround(s.env.scope, e.mappings, |e.mappings|, AllMappings(e.content, |e.content|));
      assert ShowInside(c, before, env, e).env.scope == Run(env.scope, AllMappings(e.content, |e.content|));
    }
  }

  lemma {:induction false} AllScopesRun(c: Memory, root: bool, d: seq<Obj>, s: Shown, content: seq<Content>, n: nat)
    requires n <= |content|
    ensures ShowAll(c, root, d, s, content, n).env.scope == Run(s.env.scope, AllMappings(content, n))
    decreases content, n
  {
    hide ShowContent, ContentMappings;
    if n > 0 {
      AllScopesRun(c, root, d, s, content, n - 1);
      ScopeIsRun(c, root, d, ShowAll(c, root, d, s, content, n - 1), content[n - 1]);
      RunThen(s.env.scope, AllMappings(content, n - 1), ContentMappings(content[n - 1]));
    }
  }

  /**
   * An element with any content leaves the namespaces in scope as they were if none of the prefixes bound in it
   * was in use before; and exactly then if it binds no uri that was in scope.
   */
  lemma ContentRestoresScope(c: Memory, root: bool, d: seq<Obj>, s: Shown, x: Content)
    requires WellFormed(s.env.scope)
    ensures var free := Free(s.env.scope, Prefixes(ContentMappings(x)));
            && (free ==> ShowContent(c, root, d, s, x).env.scope == s.env.scope)
            && ((forall u :: u in Uris(ContentMappings(x)) ==> u !in s.env.scope.uris) ==>
                  (ShowContent(c, root, d, s, x).env.scope == s.env.scope <==> free))
  {
    hide ShowContent, ContentMappings, Prefixes, Uris, Free, WellFormed;
    var m := ContentMappings(x);
    ScopeIsRun(c, root, d, s, x);
    if Free(s.env.scope, Prefixes(m)) {
      NestedMappingsRestore(s.env.scope, m);
    } else if forall u :: u in Uris(m) ==> u !in s.env.scope.uris {
      NestedMappingsRestoreIff(s.env.scope, m);
    }
  }

  /** At the end of every document, whatever it rebinds inside, no namespace is left in scope. */
  lemma DocumentRestoresScope(c: Memory, d: DocumentEvents)
    ensures DocumentContent(c, d).env.scope == EmptyEnv().scope
  {
    hide ShowAll, AllMappings;
    AllScopesRun(c, true, Now(c, [], DocumentStart(d)), Shown(Start, EmptyEnv()), d.content, |d.content|);
    NestedMappingsRestore(EmptyEnv().scope, AllMappings(d.content, |d.content|));
  }
}
