/** Id strings for schema components: each object gets one id, made up the first time it is mentioned. */
module PsviIds {
  import opened Numerals
  import opened Options
  import opened PsviOutput
  import opened PsviComponents

  const FIRST_NUMBER := 1000

  /**
   * Ids given out, and the prefix the namespace of each object had at that moment; `counted` tells the objects
   * whose id was made with the counter and the number each one got, `next` is the next number.
   */
  datatype IdTable = IdTable(ids: map<Obj, string>, prefixes: map<Obj, string>, counted: map<Obj, nat>, next: nat)

  function EmptyTable(): IdTable { IdTable(map[], map[], map[], FIRST_NUMBER) }

  function KindText(x: Component): string {
    match x
    case OfComplexType(_) => "type"
    case OfSimpleType(_) => "type"
    case OfElement(_) => "elt"
    case OfAttribute(_) => "attr"
    case OfAttributeGroup(_) => "ag"
    case OfModelGroup(_) => "mg"
    case OfNotation(_) => "not"
    case OfConstraint(_) => "idc"
  }

  predicate IsTypeKind(x: Component) { x.OfComplexType? || x.OfSimpleType? }

  /** Both are types, or both are components of the same other kind. */
  predicate SameKind(x: Component, y: Component) {
    || (IsTypeKind(x) && IsTypeKind(y)) || (x.OfElement? && y.OfElement?) || (x.OfAttribute? && y.OfAttribute?)
    || (x.OfAttributeGroup? && y.OfAttributeGroup?) || (x.OfModelGroup? && y.OfModelGroup?)
    || (x.OfNotation? && y.OfNotation?) || (x.OfConstraint? && y.OfConstraint?)
  }

  /** The words tell the kinds apart, but not simple types from complex ones. */
  lemma KindTextIff(x: Component, y: Component)
    ensures KindText(x) == KindText(y) <==> SameKind(x, y)
  {
    KindWord(x);
    KindWord(y);
    var words := ["type", "elt", "attr", "ag", "mg", "not", "idc"];
    assert words[1][0] == 'e' && words[5][0] == 'n' && words[6][0] == 'i' && words[3][0] == 'a' && words[4][0] == 'm';
  }

  lemma KindWord(x: Component)
    ensures KindText(x) == "type" <==> IsTypeKind(x)
    ensures KindText(x) == "elt" <==> x.OfElement?
    ensures KindText(x) == "attr" <==> x.OfAttribute?
    ensures KindText(x) == "ag" <==> x.OfAttributeGroup?
    ensures KindText(x) == "mg" <==> x.OfModelGroup?
    ensures KindText(x) == "not" <==> x.OfNotation?
    ensures KindText(x) == "idc" <==> x.OfConstraint?
    ensures Dotless(KindText(x))
  {
    assert |"type"| == 4 && |"attr"| == 4 && |"elt"| == 3 && |"not"| == 3 && |"idc"| == 3 && |"ag"| == 2 && |"mg"| == 2;
    assert "type"[0] == 't' && "attr"[0] == 'a' && "elt"[0] == 'e' && "not"[0] == 'n' && "idc"[0] == 'i';
    assert "ag"[0] == 'a' && "mg"[0] == 'm';
  }

  predicate OfXmlSchema(x: Component) { x.Namespace() == XML_SCHEMA_URI }

  /** Whether the id of a component with this namespace prefix ("" for none) ends in a number. */
  predicate NeedsNumber(x: Component, prefix: string) {
    !OfXmlSchema(x) && (x.IsAnonymous() || prefix == "")
  }

  function Stem(x: Component, prefix: string): string {
    (if prefix == "" then KindText(x) else prefix + "." + KindText(x)) + "."
  }

  function NewId(x: Component, prefix: string, number: nat): string {
    if OfXmlSchema(x) then x.Name()
    else if x.IsAnonymous() then Stem(x, prefix) + "anon_" + Decimal(number)
    else if prefix == "" then Stem(x, prefix) + x.Name() + "." + Decimal(number)
    else Stem(x, prefix) + x.Name()
  }

  function Mint(t: IdTable, o: Obj, x: Component, prefix: string): IdTable {
    if o in t.ids then t
    else
      var id := NewId(x, prefix, t.next);
      if NeedsNumber(x, prefix) then
        IdTable(t.ids[o := id], t.prefixes[o := prefix], t.counted[o := t.next], t.next + 1)
      else IdTable(t.ids[o := id], t.prefixes[o := prefix], t.counted, t.next)
  }

  function NumberOf(t: IdTable, o: Obj): nat { if o in t.counted then t.counted[o] else 0 }

  /** The ids were made from the prefixes and numbers; every number from the first on was used once. */
  ghost predicate TableOk(c: Memory, t: IdTable) {
    && t.next >= FIRST_NUMBER
    && t.prefixes.Keys == t.ids.Keys
    && (forall o :: o in t.ids ==>
          o in c && t.ids[o] == NewId(c[o], t.prefixes[o], NumberOf(t, o)) &&
          (o in t.counted <==> NeedsNumber(c[o], t.prefixes[o])))
    && NumbersOk(t)
  }

  ghost predicate NumbersOk(t: IdTable) {
    && t.counted.Keys <= t.ids.Keys && t.next == FIRST_NUMBER + |t.counted|
    && (forall o :: o in t.counted ==> FIRST_NUMBER <= t.counted[o] < t.next)
    && (forall o, p :: o in t.counted && p in t.counted && o != p ==> t.counted[o] != t.counted[p])
    && (forall n :: FIRST_NUMBER <= n < t.next ==> Used(t.counted, n))
  }

  ghost predicate Used(counted: map<Obj, nat>, n: nat) { exists o :: o in counted && counted[o] == n }

  lemma EmptyTableOk(c: Memory)
    ensures TableOk(c, EmptyTable())
  {
  }

  lemma CountOk(t: IdTable, o: Obj, id: string, prefix: string)
    requires NumbersOk(t) && o !in t.ids
    ensures NumbersOk(IdTable(t.ids[o := id], t.prefixes[o := prefix], t.counted[o := t.next], t.next + 1))
  {
    hide Used;
    var counted := t.counted[o := t.next];
    assert o !in t.counted && counted.Keys == t.counted.Keys + {o};
    forall n | FIRST_NUMBER <= n < t.next + 1 ensures Used(counted, n) {
      NextUsed(t, o, n);
    }
  }

  lemma NextUsed(t: IdTable, o: Obj, n: nat)
    requires NumbersOk(t) && o !in t.counted && FIRST_NUMBER <= n <= t.next
    ensures Used(t.counted[o := t.next], n)
  {
    var counted := t.counted[o := t.next];
    if n < t.next {
      assert Used(t.counted, n);
      var p :| p in t.counted && t.counted[p] == n;
      assert p in counted && counted[p] == n;
    } else {
      assert counted[o] == n;
    }
  }

  lemma MintOk(c: Memory, t: IdTable, o: Obj, prefix: string)
    requires TableOk(c, t) && o in c
    ensures TableOk(c, Mint(t, o, c[o], prefix)) && Extends(t.ids, Mint(t, o, c[o], prefix).ids)
  {
    hide NewId, NeedsNumber, NumbersOk, TableOk;
    var t' := Mint(t, o, c[o], prefix);
    if o in t.ids {
    } else if NeedsNumber(c[o], prefix) {
      NumbersOfTable(c, t, o);
      CountOk(t, o, NewId(c[o], prefix, t.next), prefix);
      EntryOk(c, t, t', o, prefix);
    } else {
      NumbersOfTable(c, t, o);
      SameNumbers(t, t');
      NumberUnused(c[o], prefix, t.next, 0);
      EntryOk(c, t, t', o, prefix);
    }
  }

  lemma NumbersOfTable(c: Memory, t: IdTable, o: Obj)
    requires TableOk(c, t) && o !in t.ids
    ensures NumbersOk(t) && o !in t.counted
  {
  }

  lemma NumberUnused(x: Component, prefix: string, n: nat, m: nat)
    requires !NeedsNumber(x, prefix)
    ensures NewId(x, prefix, n) == NewId(x, prefix, m)
  {
  }

  lemma EntryOk(c: Memory, t: IdTable, t': IdTable, o: Obj, prefix: string)
    requires TableOk(c, t) && NumbersOk(t') && o in c && o !in t.ids
    requires t'.ids == t.ids[o := NewId(c[o], prefix, NumberOf(t', o))] && t'.prefixes == t.prefixes[o := prefix]
    requires o in t'.counted <==> NeedsNumber(c[o], prefix)
    requires forall p :: p != o ==> ((p in t'.counted <==> p in t.counted) && NumberOf(t', p) == NumberOf(t, p))
    ensures TableOk(c, t')
  {
    hide NewId, NeedsNumber;
  }

  lemma SameNumbers(t: IdTable, t': IdTable)
    requires NumbersOk(t) && t'.counted == t.counted && t'.next == t.next && t.ids.Keys <= t'.ids.Keys
    ensures NumbersOk(t')
  {
  }

  /**
   * The program prints a number into a buffer for five digits and throws when it has more. All numbers given
   * out fit exactly as long as no more than 99000 objects needed one.
   */
  lemma NumbersFitIff(c: Memory, t: IdTable)
    requires TableOk(c, t)
    ensures (forall o :: o in t.counted ==> t.counted[o] <= 99999) <==> |t.counted| <= 99000
  {
    if |t.counted| > 99000 {
      assert Used(t.counted, t.next - 1);
      var o :| o in t.counted && t.counted[o] == t.next - 1;
      assert t.counted[o] > 99999;
    }
  }

  // -------------------------------------------------------------------------
  //  Ids made with the counter
  // -------------------------------------------------------------------------

  lemma NumberedIdTail(x: Component, prefix: string, number: nat)
    ensures NeedsNumber(x, prefix) ==> DigitTail(NewId(x, prefix, number)) == Decimal(number)
  {
    if !NeedsNumber(x, prefix) {
    } else if x.IsAnonymous() {
      TailIsNumeral(Stem(x, prefix) + "anon_", Decimal(number));
    } else {
      TailIsNumeral(Stem(x, prefix) + x.Name() + ".", Decimal(number));
    }
  }

  /** Two objects whose ids were made with the counter never share an id, whatever names and prefixes are. */
  lemma CountedIdsDiffer(c: Memory, t: IdTable, o: Obj, p: Obj)
    requires TableOk(c, t) && o in t.counted && p in t.counted && o != p
    ensures t.ids[o] != t.ids[p]
  {
    hide NewId, DigitTail, Decimal;
    NumberedIdTail(c[o], t.prefixes[o], t.counted[o]);
    NumberedIdTail(c[p], t.prefixes[p], t.counted[p]);
    NumberOfDecimal(t.counted[o]);
    NumberOfDecimal(t.counted[p]);
  }

  /** An anonymous type that is not XML Schema's own. */
  predicate IsNumbered(c: Memory, o: Obj) {
    o in c && c[o].IsAnonymous() && !OfXmlSchema(c[o])
  }

  /** Two anonymous types mentioned in a document never share an id, whatever the prefixes were. */
  lemma AnonymousIdsDiffer(c: Memory, t: IdTable, o: Obj, p: Obj)
    requires TableOk(c, t) && o in t.ids && p in t.ids && o != p
    requires IsNumbered(c, o) && IsNumbered(c, p)
    ensures t.ids[o] != t.ids[p]
  {
    CountedIdsDiffer(c, t, o, p);
  }

  // -------------------------------------------------------------------------
  //  The parts of an id
  // -------------------------------------------------------------------------

  predicate Dotless(s: string) { forall k :: 0 <= k < |s| ==> s[k] != '.' }

  predicate IsNumeral(s: string) { s != "" && forall k :: 0 <= k < |s| ==> IsDigit(s[k]) }

  predicate LooksAnonymous(s: string) { |s| > 5 && s[..5] == "anon_" && IsNumeral(s[5..]) }

  /** What an id is put together from, with dots between. */
  function Parts(x: Component, prefix: string, number: nat): (r: seq<string>)
    ensures r != []
  {
    if OfXmlSchema(x) then [x.Name()]
    else if x.IsAnonymous() && prefix == "" then [KindText(x), "anon_" + Decimal(number)]
    else if x.IsAnonymous() then [prefix, KindText(x), "anon_" + Decimal(number)]
    else if prefix == "" then [KindText(x), x.Name(), Decimal(number)]
    else [prefix, KindText(x), x.Name()]
  }

  function Dotted(parts: seq<string>): string
    requires parts != []
  {
    if |parts| == 1 then parts[0] else parts[0] + "." + Dotted(parts[1..])
  }

  lemma TwoDotted(a: string, b: string)
    ensures Dotted([a, b]) == a + "." + b
  {
    assert [a, b][1..] == [b];
  }

  lemma ThreeDotted(a: string, b: string, d: string)
    ensures Dotted([a, b, d]) == a + "." + b + "." + d
  {
    assert [a, b, d][1..] == [b, d];
    TwoDotted(b, d);
    assert a + "." + (b + "." + d) == a + "." + b + "." + d;
  }

  lemma NewIdDotted(x: Component, prefix: string, number: nat)
    ensures NewId(x, prefix, number) == Dotted(Parts(x, prefix, number))
  {
    hide KindText, Decimal, Dotted;
    var anon := "anon_" + Decimal(number);
    assert Dotted([x.Name()]) == x.Name() by { OneDotted(x.Name()); }
    TwoDotted(KindText(x), anon);
    ThreeDotted(prefix, KindText(x), anon);
    ThreeDotted(KindText(x), x.Name(), Decimal(number));
    ThreeDotted(prefix, KindText(x), x.Name());
    assert Stem(x, prefix) + "anon_" + Decimal(number) == Stem(x, prefix) + anon;
  }

  lemma OneDotted(a: string)
    ensures Dotted([a]) == a
  {
  }

  lemma FirstDot(a: string, x: string, b: string, y: string)
    requires Dotless(a) && Dotless(b) && a + "." + x == b + "." + y
    ensures a == b && x == y
  {
    var s, t := a + "." + x, b + "." + y;
    assert forall k :: 0 <= k < |a| ==> s[k] == a[k];
    assert forall k :: 0 <= k < |b| ==> t[k] == b[k];
    assert s[|a|] == '.' && t[|b|] == '.';
    assert |a| == |b|;
    assert a == s[..|a|] && b == t[..|b|] && x == s[|a| + 1..] && y == t[|b| + 1..];
  }

  lemma DotInside(a: string, b: string, y: string)
    requires Dotless(a)
    ensures a != b + "." + y
  {
    assert (b + "." + y)[|b|] == '.';
  }

  predicate AllDotless(parts: seq<string>) { forall k :: 0 <= k < |parts| ==> Dotless(parts[k]) }

  /** Parts without dots can be read off again. */
  lemma {:induction false} DottedInjective(a: seq<string>, b: seq<string>)
    requires a != [] && b != [] && AllDotless(a) && AllDotless(b)
    ensures Dotted(a) == Dotted(b) <==> a == b
    decreases |a|
  {
    if |a| == 1 && |b| > 1 {
      DotInside(a[0], b[0], Dotted(b[1..]));
    } else if |b| == 1 && |a| > 1 {
      DotInside(b[0], a[0], Dotted(a[1..]));
    } else if |a| > 1 && |b| > 1 && Dotted(a) == Dotted(b) {
      FirstDot(a[0], Dotted(a[1..]), b[0], Dotted(b[1..]));
      DottedInjective(a[1..], b[1..]);
      assert a == [a[0]] + a[1..] && b == [b[0]] + b[1..];
    }
  }

  /** The parts of a text between its dots. */
  function SplitAtDots(s: string): (r: seq<string>)
    ensures r != []
  {
    if s == "" then [""]
    else
      var rest := SplitAtDots(s[1..]);
      if s[0] == '.' then [""] + rest else [[s[0]] + rest[0]] + rest[1..]
  }

  lemma {:induction false} SplitFirst(a: string, s: string)
    requires Dotless(a)
    ensures SplitAtDots(a + "." + s) == [a] + SplitAtDots(s)
    ensures SplitAtDots(a) == [a]
    decreases |a|
  {
    var whole := a + "." + s;
    if a == "" {
      assert whole[1..] == s;
    } else {
      SplitFirst(a[1..], s);
      assert whole[1..] == a[1..] + "." + s && whole[0] == a[0];
      assert [a[0]] + a[1..] == a;
    }
  }

  lemma {:induction false} SplitDotted(parts: seq<string>)
    requires parts != [] && AllDotless(parts)
    ensures SplitAtDots(Dotted(parts)) == parts
    decreases |parts|
  {
    hide SplitAtDots;
    SplitFirst(parts[0], if |parts| == 1 then "" else Dotted(parts[1..]));
    if |parts| > 1 {
      SplitDotted(parts[1..]);
      assert parts == [parts[0]] + parts[1..];
    }
  }

  /** The word stands for the kind of the component. */
  predicate Says(word: string, x: Component) {
    match x
    case OfComplexType(_) => word == "type"
    case OfSimpleType(_) => word == "type"
    case OfElement(_) => word == "elt"
    case OfAttribute(_) => word == "attr"
    case OfAttributeGroup(_) => word == "ag"
    case OfModelGroup(_) => word == "mg"
    case OfNotation(_) => word == "not"
    case OfConstraint(_) => word == "idc"
  }

  /** The component has this name and namespace; only types may be anonymous. */
  predicate Bears(x: Component, name: string, namespace: string, anonymous: bool) {
    match x
    case OfComplexType(t) => t.name == name && t.namespace == namespace && t.anonymous == anonymous
    case OfSimpleType(t) => t.name == name && t.namespace == namespace && t.anonymous == anonymous
    case OfElement(e) => e.name == name && e.namespace == namespace && !anonymous
    case OfAttribute(a) => a.name == name && a.namespace == namespace && !anonymous
    case OfAttributeGroup(g) => g.name == name && g.namespace == namespace && !anonymous
    case OfModelGroup(g) => g.name == name && g.namespace == namespace && !anonymous
    case OfNotation(n) => n.name == name && n.namespace == namespace && !anonymous
    case OfConstraint(k) => k.name == name && k.namespace == namespace && !anonymous
  }

  lemma BearsItsName(x: Component, name: string, namespace: string, anonymous: bool)
    requires Bears(x, name, namespace, anonymous)
    ensures x.Name() == name && x.Namespace() == namespace && x.IsAnonymous() == anonymous
  {
  }

  /**
   * An id reads back, when there is no dot in prefix and name: the prefix, if there is one, the kind, the name, and
   * the number, if one was needed. In the namespace of XML Schema it is the name alone.
   */
  lemma IdReadBack(x: Component, name: string, namespace: string, anonymous: bool, prefix: string, number: nat)
    requires Bears(x, name, namespace, anonymous) && Dotless(prefix) && Dotless(name)
    ensures var parts := SplitAtDots(NewId(x, prefix, number));
            if namespace == "http://www.w3.org/2001/XMLSchema" then parts == [name]
            else
              var own := if prefix == "" then parts else parts[1..];
              && (prefix != "" ==> parts[0] == prefix) && own != [] && Says(own[0], x)
              && own[1..] == if anonymous then ["anon_" + Decimal(number)]
                             else if prefix == "" then [name, Decimal(number)] else [name]
  {
    hide NewId, Decimal, Dotted, Dotless, SplitAtDots, Bears;
    BearsItsName(x, name, namespace, anonymous);
    NewIdDotted(x, prefix, number);
    KindWord(x);
    NumberDotless(number);
    SplitDotted(Parts(x, prefix, number));
  }

  // -------------------------------------------------------------------------
  //  When two objects share an id
  // -------------------------------------------------------------------------

  /** No dots, and no name that reads like a number or like the name the program gives an anonymous type. */
  predicate PlainlyNamed(x: Component, prefix: string) {
    Dotless(prefix) && Dotless(x.Name()) && !IsNumeral(x.Name()) && !LooksAnonymous(x.Name())
  }

  /** Nothing an id shows without the counter tells x and y apart. */
  predicate SameLabel(x: Component, prefix: string, y: Component, other: string) {
    && !NeedsNumber(x, prefix) && !NeedsNumber(y, other)
    && OfXmlSchema(x) == OfXmlSchema(y) && x.Name() == y.Name()
    && (!OfXmlSchema(x) ==> prefix == other && SameKind(x, y))
  }

  lemma PartsDotless(x: Component, prefix: string, number: nat)
    requires PlainlyNamed(x, prefix)
    ensures AllDotless(Parts(x, prefix, number))
  {
    hide Decimal, IsNumeral, LooksAnonymous;
    NumberDotless(number);
  }

  lemma NumberDotless(number: nat)
    ensures Dotless(Decimal(number)) && Dotless("anon_" + Decimal(number))
  {
    hide Decimal;
    assert forall k :: 0 <= k < |Decimal(number)| ==> IsDigit(Decimal(number)[k]);
  }

  lemma AnonNameRead(digits: string)
    requires IsNumeral(digits)
    ensures LooksAnonymous("anon_" + digits) && !IsNumeral("anon_" + digits)
  {
    var s := "anon_" + digits;
    assert s[..5] == "anon_" && s[5..] == digits && !IsDigit(s[0]);
  }

  /** The parts are the same exactly for the same label, unless both were made with the same number. */
  lemma SamePartsIff(x: Component, prefix: string, n: nat, y: Component, other: string, m: nat)
    requires PlainlyNamed(x, prefix) && PlainlyNamed(y, other)
    requires NeedsNumber(x, prefix) && NeedsNumber(y, other) ==> n != m
    ensures Parts(x, prefix, n) == Parts(y, other, m) <==> SameLabel(x, prefix, y, other)
  {
    hide KindText, SameKind, Dotless, IsNumeral, LooksAnonymous, Decimal;
    var a, b := Parts(x, prefix, n), Parts(y, other, m);
    KindTextIff(x, y);
    DecimalRead(n);
    DecimalRead(m);
    if n != m {
      DecimalsDiffer(n, m);
    }
    if a == b {
      assert |a| == |b| && forall k :: 0 <= k < |a| ==> a[k] == b[k];
      if |a| > 1 {
        assert a[1] == b[1] && a[|a| - 1] == b[|a| - 1];
      }
    }
  }

  lemma DecimalRead(n: nat)
    ensures IsNumeral(Decimal(n)) && LooksAnonymous("anon_" + Decimal(n)) && !IsNumeral("anon_" + Decimal(n))
  {
    AnonNameRead(Decimal(n));
  }

  lemma DecimalsDiffer(n: nat, m: nat)
    requires n != m
    ensures Decimal(n) != Decimal(m) && "anon_" + Decimal(n) != "anon_" + Decimal(m)
  {
    NumberOfDecimal(n);
    NumberOfDecimal(m);
    assert ("anon_" + Decimal(n))[5..] == Decimal(n) && ("anon_" + Decimal(m))[5..] == Decimal(m);
  }

  /**
   * Two objects of a table share an id if and only if neither id was made with the counter and prefix, kind and
   * name are the same; for XML Schema's own components the name alone decides.
   */
  lemma SameIdInTableIff(c: Memory, t: IdTable, o: Obj, p: Obj)
    requires TableOk(c, t) && o in t.ids && p in t.ids && o != p
    requires PlainlyNamed(c[o], t.prefixes[o]) && PlainlyNamed(c[p], t.prefixes[p])
    ensures t.ids[o] == t.ids[p] <==> SameLabel(c[o], t.prefixes[o], c[p], t.prefixes[p])
  {
    hide NewId, Parts, Dotted, PlainlyNamed, SameLabel, NeedsNumber;
    var n, m := NumberOf(t, o), NumberOf(t, p);
    NewIdDotted(c[o], t.prefixes[o], n);
    NewIdDotted(c[p], t.prefixes[p], m);
    PartsDotless(c[o], t.prefixes[o], n);
    PartsDotless(c[p], t.prefixes[p], m);
    DottedInjective(Parts(c[o], t.prefixes[o], n), Parts(c[p], t.prefixes[p], m));
    SamePartsIff(c[o], t.prefixes[o], n, c[p], t.prefixes[p], m);
  }

  // -------------------------------------------------------------------------
  //  Any run of mentions
  // -------------------------------------------------------------------------

  /** One mention of an object, with the prefix its namespace has at that moment. */
  datatype Request = Request(obj: Obj, prefix: string)

  /** The table after these mentions; only components are mentioned. */
  function MintAll(c: Memory, t: IdTable, requests: seq<Request>): IdTable {
    if requests == [] then t
    else
      var before, r := MintAll(c, t, requests[..|requests| - 1]), requests[|requests| - 1];
      if r.obj in c then Mint(before, r.obj, c[r.obj], r.prefix) else before
  }

  lemma MintAllMore(c: Memory, t: IdTable, requests: seq<Request>, r: Request)
    requires r.obj in c
    ensures MintAll(c, t, requests + [r]) == Mint(MintAll(c, t, requests), r.obj, c[r.obj], r.prefix)
  {
    hide Mint;
    assert (requests + [r])[..|requests|] == requests;
  }

  function Objects(requests: seq<Request>): (r: seq<Obj>)
    ensures |r| == |requests| && forall k :: 0 <= k < |requests| ==> r[k] == requests[k].obj
  {
    seq(|requests|, k requires 0 <= k < |requests| => requests[k].obj)
  }

  lemma {:induction false} MintAllOk(c: Memory, t: IdTable, requests: seq<Request>)
    requires TableOk(c, t)
    ensures TableOk(c, MintAll(c, t, requests))
    decreases |requests|
  {
    hide TableOk;
    if requests != [] {
      var r := requests[|requests| - 1];
      MintAllOk(c, t, requests[..|requests| - 1]);
      if r.obj in c {
        MintOk(c, MintAll(c, t, requests[..|requests| - 1]), r.obj, r.prefix);
      }
    }
  }

  /** Two objects whose ids were made with the counter never share an id, whatever was mentioned when. */
  lemma CountedIdsUnique(c: Memory, requests: seq<Request>, o: Obj, p: Obj)
    requires o in MintAll(c, EmptyTable(), requests).counted && p in MintAll(c, EmptyTable(), requests).counted
    requires o != p
    ensures var ids := MintAll(c, EmptyTable(), requests).ids; o in ids && p in ids && ids[o] != ids[p]
  {
    EmptyTableOk(c);
    MintAllOk(c, EmptyTable(), requests);
    CountedIdsDiffer(c, MintAll(c, EmptyTable(), requests), o, p);
  }

  /** Once given, an id stays, also when the prefix of the namespace changes later. */
  lemma {:induction false} IdsStay(c: Memory, t: IdTable, requests: seq<Request>)
    ensures Extends(t.ids, MintAll(c, t, requests).ids)
    decreases |requests|
  {
    if requests != [] {
      IdsStay(c, t, requests[..|requests| - 1]);
    }
  }

  /** The place of the first mention of o; |requests| if there is none. */
  function FirstMention(requests: seq<Request>, o: Obj): (k: nat)
    ensures k <= |requests| && (k < |requests| ==> requests[k].obj == o)
    ensures forall j :: 0 <= j < k ==> requests[j].obj != o
    decreases |requests|
  {
    if requests == [] then 0
    else
      var k := FirstMention(requests[..|requests| - 1], o);
      if k < |requests| - 1 || requests[|requests| - 1].obj == o then k else k + 1
  }

  /** The id of an object is made with the prefix of its first mention. */
  lemma {:induction false} PrefixOfFirst(c: Memory, requests: seq<Request>, o: Obj)
    requires o in c
    ensures var t, k := MintAll(c, EmptyTable(), requests), FirstMention(requests, o);
            && (o in t.ids <==> k < |requests|) && (o in t.prefixes <==> k < |requests|)
            && (k < |requests| ==> t.prefixes[o] == requests[k].prefix)
    decreases |requests|
  {
    hide NewId, NeedsNumber;
    if requests != [] {
      var last := requests[|requests| - 1];
      PrefixOfFirst(c, requests[..|requests| - 1], o);
      if last.obj in c {
        PrefixOfFirst(c, requests[..|requests| - 1], last.obj);
      }
    }
  }

  /**
   * After any mentions, two objects with plain names and prefixes share an id if and only if neither id was
   * made with the counter and prefix, kind and name are the same; in the namespace of XML Schema, if and only
   * if the names are. Only the prefixes of their first mentions count.
   */
  lemma SameIdIff(c: Memory, requests: seq<Request>, o: Obj, p: Obj)
    requires o in c && p in c && o != p
    requires FirstMention(requests, o) < |requests| && FirstMention(requests, p) < |requests|
    requires PlainlyNamed(c[o], requests[FirstMention(requests, o)].prefix)
    requires PlainlyNamed(c[p], requests[FirstMention(requests, p)].prefix)
    ensures var ids := MintAll(c, EmptyTable(), requests).ids;
            && o in ids && p in ids
            && (ids[o] == ids[p] <==> SameLabel(c[o], requests[FirstMention(requests, o)].prefix,
                                                c[p], requests[FirstMention(requests, p)].prefix))
  {
    hide PlainlyNamed, SameLabel;
    EmptyTableOk(c);
    MintAllOk(c, EmptyTable(), requests);
    PrefixOfFirst(c, requests, o);
    PrefixOfFirst(c, requests, p);
    SameIdInTableIff(c, MintAll(c, EmptyTable(), requests), o, p);
  }

  // -------------------------------------------------------------------------
  //  Objects that share an id
  // -------------------------------------------------------------------------

  function ElementOf(name: string, namespace: string): Component {
    OfElement(ElementDecl(name, namespace, None, None, ScopeLocal, Unconstrained, false, None, None, "", "", false,
                          NoAnnotation))
  }

  function TypeOf(name: string, namespace: string, anonymous: bool): Component {
    OfSimpleType(SimpleType(name, namespace, anonymous, None, None, None, None, "false", false, false, false, "",
                            "atomic", None, None, None))
  }

  /** The ids of two objects mentioned one after the other. */
  function TwoIds(x: Component, prefix: string, y: Component, other: string): (string, string) {
    var ids := Mint(Mint(EmptyTable(), 1, x, prefix), 2, y, other).ids;
    (ids[1], ids[2])
  }

  lemma TwoIdsAre(x: Component, prefix: string, y: Component, other: string)
    ensures TwoIds(x, prefix, y, other)
         == (NewId(x, prefix, 1000), NewId(y, other, if NeedsNumber(x, prefix) then 1001 else 1000))
  {
    hide NewId, NeedsNumber;
  }

  /** Elements of one name in two namespaces, whose prefix is the same at different times, ... */
  lemma PrefixUsedTwice()
    ensures var (a, b) := TwoIds(ElementOf("item", "urn:a"), "p", ElementOf("item", "urn:b"), "p"); a == b
  {
    hide NewId;
    var x, y := ElementOf("item", "urn:a"), ElementOf("item", "urn:b");
    TwoIdsAre(x, "p", y, "p");
    SameNameId(x, "p", y, "p");
  }

  /** ... an element and a type of XML Schema of one name, ... */
  lemma XmlSchemaNameUsedTwice()
    ensures var (a, b) := TwoIds(ElementOf("item", XML_SCHEMA_URI), "xs", TypeOf("item", XML_SCHEMA_URI, false), "xs");
            a == b
  {
    hide NewId;
    var x, y := ElementOf("item", XML_SCHEMA_URI), TypeOf("item", XML_SCHEMA_URI, false);
    TwoIdsAre(x, "xs", y, "xs");
    SameNameId(x, "xs", y, "xs");
  }

  lemma SameNameId(x: Component, prefix: string, y: Component, other: string)
    requires SameLabel(x, prefix, y, other)
    ensures NewId(x, prefix, 1000) == NewId(y, other, 1000)
  {
  }

  lemma FirstDecimal()
    ensures Decimal(1000) == "1000"
  {
    assert Decimal(1) == "1" && Decimal(10) == "10" && Decimal(100) == "100";
  }

  /** ... a type that bears the name the program gives an anonymous one, ... */
  lemma AnonymousNameTaken()
    ensures var (a, b) := TwoIds(TypeOf("anon_1000", "urn:a", false), "p", TypeOf("", "urn:a", true), "p"); a == b
  {
    hide Decimal;
    var x, y := TypeOf("anon_1000", "urn:a", false), TypeOf("", "urn:a", true);
    TwoIdsAre(x, "p", y, "p");
    FirstDecimal();
    assert NewId(x, "p", 1000) == "p.type.anon_1000";
    assert NewId(y, "p", 1000) == "p.type.anon_1000";
  }

  /** ... and an element with a dot in its name share an id with another object. */
  lemma DottedNameMatchesNumber()
    ensures var (a, b) := TwoIds(ElementOf("item.1000", "urn:a"), "elt", ElementOf("elt.item", "urn:b"), "");
            a == b
  {
    hide Decimal;
    var x, y := ElementOf("item.1000", "urn:a"), ElementOf("elt.item", "urn:b");
    TwoIdsAre(x, "elt", y, "");
    FirstDecimal();
    assert NewId(x, "elt", 1000) == "elt.elt.item.1000";
    assert NewId(y, "", 1000) == "elt.elt.item.1000";
  }
}
