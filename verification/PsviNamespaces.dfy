/** The namespaces in scope: a list of uris and the prefix recorded for each. */
module PsviNamespaces {

  datatype Scope = Scope(uris: seq<string>, prefixes: map<string, string>)

  ghost predicate WellFormed(s: Scope) {
    && (forall i, j :: 0 <= i < j < |s.uris| ==> s.uris[i] != s.uris[j])
    && (forall u :: u in s.uris <==> u in s.prefixes)
  }

  function StartMapping(s: Scope, prefix: string, uri: string): Scope {
    if uri in s.prefixes then s else Scope(s.uris + [uri], s.prefixes[uri := prefix])
  }

  /** The place of the first uri with the prefix, counting from i; |s.uris| if there is none. */
  function FirstWith(s: Scope, prefix: string, i: nat): (r: nat)
    requires i <= |s.uris|
    ensures i <= r <= |s.uris|
    ensures forall k :: i <= k < r ==> !Carries(s, prefix, s.uris[k])
    ensures r < |s.uris| ==> Carries(s, prefix, s.uris[r])
    decreases |s.uris| - i
  {
    if i == |s.uris| || Carries(s, prefix, s.uris[i]) then i else FirstWith(s, prefix, i + 1)
  }

  predicate Carries(s: Scope, prefix: string, uri: string) {
    uri in s.prefixes && s.prefixes[uri] == prefix
  }

  /** The prefix recorded for a uri; empty if there is none. */
  function PrefixOf(s: Scope, uri: string): string {
    if uri in s.prefixes then s.prefixes[uri] else ""
  }

  /** Some uri in scope has the prefix. */
  predicate InUse(s: Scope, prefix: string) {
    exists i :: 0 <= i < |s.uris| && Carries(s, prefix, s.uris[i])
  }

  function EndMapping(s: Scope, prefix: string): Scope {
    var i := FirstWith(s, prefix, 0);
    if i == |s.uris| then s
    else Scope(s.uris[..i] + s.uris[i + 1..], s.prefixes - {s.uris[i]})
  }

  /**
   * A started mapping is in scope: its uri is the last of the list, with its prefix, even an empty one. A uri that is
   * in scope already keeps its place and its prefix. All other entries stay.
   */
  lemma StartRecords(s: Scope, prefix: string, uri: string)
    requires WellFormed(s)
    ensures var t := StartMapping(s, prefix, uri);
            && t.uris == (if uri in s.uris then s.uris else s.uris + [uri])
            && (forall u :: u in t.prefixes <==> u in t.uris)
            && t.prefixes[uri] == (if uri in s.uris then s.prefixes[uri] else prefix)
            && forall u :: u in s.uris ==> t.prefixes[u] == s.prefixes[u]
  {
  }

  lemma StartKeepsWellFormed(s: Scope, prefix: string, uri: string)
    requires WellFormed(s)
    ensures WellFormed(StartMapping(s, prefix, uri))
  {
  }

  lemma RemoveAt(s: seq<string>, i: nat)
    requires i < |s| && forall j, k :: 0 <= j < k < |s| ==> s[j] != s[k]
    ensures var r := s[..i] + s[i + 1..];
            (forall j, k :: 0 <= j < k < |r| ==> r[j] != r[k]) &&
            (forall u :: u in r <==> u in s && u != s[i])
  {
    var r := s[..i] + s[i + 1..];
    assert forall k :: 0 <= k < |r| ==> r[k] == s[if k < i then k else k + 1];
    forall u | u in s && u != s[i] ensures u in r {
      var k :| 0 <= k < |s| && s[k] == u;
      assert r[if k < i then k else k - 1] == u;
    }
  }

  lemma EndKeepsWellFormed(s: Scope, prefix: string)
    requires WellFormed(s)
    ensures WellFormed(EndMapping(s, prefix))
  {
    var i := FirstWith(s, prefix, 0);
    if i < |s.uris| {
      RemoveAt(s.uris, i);
    }
  }

  /**
   * Starting a mapping and ending it again restores the scope exactly when no uri in scope had that prefix
   * before. Otherwise the end takes away the uri that had it first.
   */
  lemma StartEndRestoresIff(s: Scope, prefix: string, uri: string)
    requires WellFormed(s)
    ensures EndMapping(StartMapping(s, prefix, uri), prefix) == s <==> !InUse(s, prefix)
  {
    var s1 := StartMapping(s, prefix, uri);
    var i := FirstWith(s1, prefix, 0);
    if InUse(s, prefix) {
      var k :| 0 <= k < |s.uris| && Carries(s, prefix, s.uris[k]);
      assert s1.uris[k] == s.uris[k] && Carries(s1, prefix, s1.uris[k]);
      assert i <= k;
      assert s1.uris[i] == s.uris[i] && s.uris[i] in s.uris;
      assert s.uris[i] !in EndMapping(s1, prefix).prefixes;
    } else {
      EndRestores(s, prefix, uri);
    }
  }

  lemma EndRestores(s: Scope, prefix: string, uri: string)
    requires WellFormed(s) && !InUse(s, prefix)
    ensures EndMapping(StartMapping(s, prefix, uri), prefix) == s
  {
    var s1 := StartMapping(s, prefix, uri);
    var i := FirstWith(s1, prefix, 0);
    assert forall k :: 0 <= k < |s.uris| ==> s1.uris[k] == s.uris[k];
    if uri in s.prefixes {
      assert i == |s.uris|;
    } else {
      assert s1.uris[|s.uris|] == uri && Carries(s1, prefix, uri);
      assert i == |s.uris|;
      assert s1.uris[..i] + s1.uris[i + 1..] == s.uris;
      assert s1.prefixes - {uri} == s.prefixes;
    }
  }

  /** A prefix bound again inside: the end of the inner mapping takes away the outer one. */
  lemma ShadowedPrefixLost()
    ensures var outer := Scope(["urn:outer"], map["urn:outer" := "p"]);
            && WellFormed(outer) && InUse(outer, "p")
            && EndMapping(StartMapping(outer, "p", "urn:inner"), "p") == Scope(["urn:inner"], map["urn:inner" := "p"])
  {
    var outer := Scope(["urn:outer"], map["urn:outer" := "p"]);
    var both := StartMapping(outer, "p", "urn:inner");
    assert Carries(outer, "p", outer.uris[0]) && Carries(both, "p", both.uris[0]);
    assert FirstWith(both, "p", 0) == 0 && both.uris[..0] + both.uris[1..] == ["urn:inner"];
  }

  /** Properly nested mappings: bind a prefix, do what is inside, end it, go on. */
  datatype Mappings = Done | Bind(prefix: string, uri: string, inside: Mappings, after: Mappings)

  function Run(s: Scope, m: Mappings): Scope
    decreases m
  {
    match m
    case Done => s
    case Bind(prefix, uri, inside, after) =>
      Run(EndMapping(Run(StartMapping(s, prefix, uri), inside), prefix), after)
  }

  /** The prefixes and the uris of all mappings in a run. */
  function Prefixes(m: Mappings): set<string> {
    if m.Done? then {} else {m.prefix} + Prefixes(m.inside) + Prefixes(m.after)
  }

  function Uris(m: Mappings): set<string> {
    if m.Done? then {} else {m.uri} + Uris(m.inside) + Uris(m.after)
  }

  /** None of the prefixes is in use. */
  ghost predicate Free(s: Scope, prefixes: set<string>) { forall p :: p in prefixes ==> !InUse(s, p) }

  // -------------------------------------------------------------------------
  //  Runs that restore the scope
  // -------------------------------------------------------------------------

  /** The uris that have the prefix. */
  function Holders(s: Scope, prefix: string): set<string> { set u | u in s.prefixes && s.prefixes[u] == prefix }

  lemma HoldersUsed(s: Scope, prefix: string)
    requires WellFormed(s)
    ensures InUse(s, prefix) <==> Holders(s, prefix) != {}
  {
    if u :| u in Holders(s, prefix) {
      assert u in s.uris;
      var i :| 0 <= i < |s.uris| && s.uris[i] == u;
      assert Carries(s, prefix, s.uris[i]);
    }
    if i :| 0 <= i < |s.uris| && Carries(s, prefix, s.uris[i]) {
      assert s.uris[i] in Holders(s, prefix);
    }
  }

  lemma StartHolders(s: Scope, prefix: string, uri: string, q: string)
    ensures |Holders(StartMapping(s, prefix, uri), q)| <= |Holders(s, q)| + if q == prefix then 1 else 0
  {
    var t := StartMapping(s, prefix, uri);
    if uri !in s.prefixes {
      assert Holders(t, q) == if q == prefix then Holders(s, q) + {uri} else Holders(s, q);
    }
  }

  lemma EndHolders(s: Scope, prefix: string, q: string)
    requires WellFormed(s)
    ensures var before, after := |Holders(s, q)|, |Holders(EndMapping(s, prefix), q)|;
            after == if q == prefix && before > 0 then before - 1 else before
  {
    var i := FirstWith(s, prefix, 0);
    HoldersUsed(s, prefix);
    if i < |s.uris| {
      assert Holders(EndMapping(s, prefix), q) == Holders(s, q) - {s.uris[i]};
    }
  }

  /** No run adds to the uris that have a prefix: each end takes away one that its start may have added. */
  lemma {:induction false} RunHolders(s: Scope, m: Mappings, q: string)
    requires WellFormed(s)
    ensures |Holders(Run(s, m), q)| <= |Holders(s, q)|
    decreases m
  {
    hide WellFormed, Holders, StartMapping, EndMapping;
    if m.Bind? {
      var s1 := StartMapping(s, m.prefix, m.uri);
      var s2 := Run(s1, m.inside);
      StartKeepsWellFormed(s, m.prefix, m.uri);
      RunKeepsWellFormed(s1, m.inside);
      EndKeepsWellFormed(s2, m.prefix);
      StartHolders(s, m.prefix, m.uri, q);
      RunHolders(s1, m.inside, q);
      EndHolders(s2, m.prefix, q);
      RunHolders(EndMapping(s2, m.prefix), m.after, q);
    }
  }

  /** t starts with all the uris of s, and they have their prefixes. */
  ghost predicate Intact(s: Scope, t: Scope) {
    s.uris <= t.uris && forall u :: u in s.uris ==> u in s.prefixes && u in t.prefixes && t.prefixes[u] == s.prefixes[u]
  }

  lemma StartIntact(s: Scope, t: Scope, prefix: string, uri: string)
    requires Intact(s, t)
    ensures Intact(s, StartMapping(t, prefix, uri))
  {
  }

  /** An end takes away one of the uris of s exactly if one of them has the prefix. */
  lemma EndIntact(s: Scope, t: Scope, prefix: string)
    requires WellFormed(t) && Intact(s, t)
    ensures var after := EndMapping(t, prefix);
            if InUse(s, prefix) then exists u :: u in s.uris && u !in after.uris else Intact(s, after)
  {
    var i, after := FirstWith(t, prefix, 0), EndMapping(t, prefix);
    assert forall k :: 0 <= k < |s.uris| ==> s.uris[k] == t.uris[k] && s.uris[k] in s.uris;
    if InUse(s, prefix) {
      var k :| 0 <= k < |s.uris| && Carries(s, prefix, s.uris[k]);
      assert Carries(t, prefix, t.uris[k]) && i <= k;
      RemoveAt(t.uris, i);
      assert s.uris[i] in s.uris && s.uris[i] !in after.uris;
    } else if i < |t.uris| {
      if i < |s.uris| {
        assert Carries(s, prefix, s.uris[i]);
      }
      RemoveAt(t.uris, i);
      assert s.uris <= after.uris;
    }
  }

  lemma {:induction false} StaysMissing(t: Scope, m: Mappings, u: string)
    requires WellFormed(t) && u !in t.uris && u !in Uris(m)
    ensures u !in Run(t, m).uris
    decreases m
  {
    hide WellFormed;
    if m.Bind? {
      var t1 := StartMapping(t, m.prefix, m.uri);
      var t2 := Run(t1, m.inside);
      StartKeepsWellFormed(t, m.prefix, m.uri);
      StaysMissing(t1, m.inside, u);
      RunKeepsWellFormed(t1, m.inside);
      EndKeepsWellFormed(t2, m.prefix);
      StaysMissing(EndMapping(t2, m.prefix), m.after, u);
    }
  }

  lemma {:induction false} FreeRunIntact(s: Scope, t: Scope, m: Mappings)
    requires WellFormed(t) && Intact(s, t) && Free(s, Prefixes(m))
    ensures Intact(s, Run(t, m))
    decreases m
  {
    hide WellFormed, Intact, InUse, EndMapping, StartMapping;
    if m.Bind? {
      var t1 := StartMapping(t, m.prefix, m.uri);
      var t2 := Run(t1, m.inside);
      StartKeepsWellFormed(t, m.prefix, m.uri);
      StartIntact(s, t, m.prefix, m.uri);
      FreeRunIntact(s, t1, m.inside);
      RunKeepsWellFormed(t1, m.inside);
      EndIntact(s, t2, m.prefix);
      EndKeepsWellFormed(t2, m.prefix);
      FreeRunIntact(s, EndMapping(t2, m.prefix), m.after);
    }
  }

  /** A run that binds a prefix in use, and no uri of s, loses one of the uris of s for good. */
  lemma {:induction false} RunLoses(s: Scope, t: Scope, m: Mappings) returns (u: string)
    requires WellFormed(t) && Intact(s, t) && !Free(s, Prefixes(m)) && forall v :: v in Uris(m) ==> v !in s.uris
    ensures u in s.uris && u !in Run(t, m).uris
    decreases m
  {
    hide WellFormed, Intact, InUse, EndMapping, StartMapping;
    var t1 := StartMapping(t, m.prefix, m.uri);
    var t2 := Run(t1, m.inside);
    StartKeepsWellFormed(t, m.prefix, m.uri);
    StartIntact(s, t, m.prefix, m.uri);
    RunKeepsWellFormed(t1, m.inside);
    EndKeepsWellFormed(t2, m.prefix);
    if !Free(s, Prefixes(m.inside)) {
      u := RunLoses(s, t1, m.inside);
      EndMissing(t2, m.prefix, u);
      StaysMissing(EndMapping(t2, m.prefix), m.after, u);
    } else {
      FreeRunIntact(s, t1, m.inside);
      EndIntact(s, t2, m.prefix);
      if InUse(s, m.prefix) {
        u :| u in s.uris && u !in EndMapping(t2, m.prefix).uris;
        StaysMissing(EndMapping(t2, m.prefix), m.after, u);
      } else {
        u := RunLoses(s, EndMapping(t2, m.prefix), m.after);
      }
    }
  }

  lemma EndMissing(t: Scope, prefix: string, u: string)
    requires u !in t.uris
    ensures u !in EndMapping(t, prefix).uris
  {
  }

  /**
   * A run of properly nested mappings restores list and map if no uri in scope before has one of the prefixes it
   * binds; inside the run they may be bound again and again.
   */
  lemma NestedMappingsRestore(s: Scope, m: Mappings)
    requires WellFormed(s) && Free(s, Prefixes(m))
    ensures Run(s, m) == s
  {
    hide WellFormed, Intact, InUse, Holders;
    RunKeepsWellFormed(s, m);
    FreeRunIntact(s, s, m) by { IntactItself(s); }
    forall q ensures |Holders(Run(s, m), q)| <= |Holders(s, q)| {
      RunHolders(s, m, q);
    }
    NothingAdded(s, Run(s, m));
  }

  lemma IntactItself(s: Scope)
    requires WellFormed(s)
    ensures Intact(s, s)
  {
  }

  lemma NothingAdded(s: Scope, r: Scope)
    requires WellFormed(s) && WellFormed(r) && Intact(s, r)
    requires forall q :: |Holders(r, q)| <= |Holders(s, q)|
    ensures r == s
  {
    if |s.uris| < |r.uris| {
      var u := r.uris[|s.uris|];
      MoreHolders(Holders(s, r.prefixes[u]), Holders(r, r.prefixes[u]), u);
    }
  }

  lemma MoreHolders(a: set<string>, b: set<string>, u: string)
    requires a <= b && u in b && u !in a
    ensures |a| < |b|
  {
    assert |b - a| > 0 && b == a + (b - a);
  }

  /** If the run binds no uri that is in scope before, that is the exact condition. */
  lemma NestedMappingsRestoreIff(s: Scope, m: Mappings)
    requires WellFormed(s) && forall u :: u in Uris(m) ==> u !in s.uris
    ensures Run(s, m) == s <==> Free(s, Prefixes(m))
  {
    if Free(s, Prefixes(m)) {
      NestedMappingsRestore(s, m);
    } else {
      var u := RunLoses(s, s, m);
    }
  }

  /** A uri that is bound again comes back: the scope is restored though the prefix was in use. */
  lemma LostUriComesBack()
    ensures var s, m := Scope(["urn:a"], map["urn:a" := "p"]), Bind("p", "urn:b", Done, Bind("p", "urn:a", Done, Done));
            WellFormed(s) && !Free(s, Prefixes(m)) && Run(s, m) == s
  {
    var s, m := Scope(["urn:a"], map["urn:a" := "p"]), Bind("p", "urn:b", Done, Bind("p", "urn:a", Done, Done));
    var other := Scope(["urn:b"], map["urn:b" := "p"]);
    assert "p" in Prefixes(m) && Carries(s, "p", s.uris[0]);
    Exchange("urn:a", "urn:b");
    Exchange("urn:b", "urn:a");
    assert Run(s, m) == Run(other, m.after) == Run(s, Done);
  }

  lemma Exchange(a: string, b: string)
    requires a != b
    ensures EndMapping(StartMapping(Scope([a], map[a := "p"]), "p", b), "p") == Scope([b], map[b := "p"])
  {
    var both := StartMapping(Scope([a], map[a := "p"]), "p", b);
    assert Carries(both, "p", both.uris[0]) && FirstWith(both, "p", 0) == 0;
    assert both.uris[..0] + both.uris[1..] == [b];
  }

  lemma {:induction false} RunKeepsWellFormed(s: Scope, m: Mappings)
    requires WellFormed(s)
    ensures WellFormed(Run(s, m))
    decreases m
  {
    if m.Bind? {
      StartKeepsWellFormed(s, m.prefix, m.uri);
      var s1 := Run(StartMapping(s, m.prefix, m.uri), m.inside);
      RunKeepsWellFormed(StartMapping(s, m.prefix, m.uri), m.inside);
      EndKeepsWellFormed(s1, m.prefix);
      RunKeepsWellFormed(EndMapping(s1, m.prefix), m.after);
    }
  }
}
