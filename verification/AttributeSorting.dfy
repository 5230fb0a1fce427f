/** The filter that sorts the attributes of an element, and what lookup by name gives afterwards. */
module AttributeSorting {
  import opened Options
  import opened SortedInsertion
  import opened XmlText

  /** A property that is NULL is the empty string here; the program's string comparison makes no difference. */
  datatype Attr = Attr(qName: Text, uri: Text, localPart: Text, value: Text, attrType: Text)

  /** An attribute is looked up by its qualified name, or by its namespace and local name. */
  datatype Key = ByQName(qName: Text) | ByName(uri: Text, localPart: Text)

  predicate Matches(a: Attr, k: Key) {
    match k
    case ByQName(q) => a.qName == q
    case ByName(u, l) => a.uri == u && a.localPart == l
  }

  /** The attributes with a key, in order. */
  function Select(s: seq<Attr>, k: Key): seq<Attr> {
    if s == [] then []
    else Select(s[..|s| - 1], k) + if Matches(s[|s| - 1], k) then [s[|s| - 1]] else []
  }

  function First(s: seq<Attr>, k: Key): Option<Attr> {
    if Select(s, k) == [] then None else Some(Select(s, k)[0])
  }

  function Last(s: seq<Attr>, k: Key): Option<Attr> {
    if Select(s, k) == [] then None else Some(Select(s, k)[|Select(s, k)| - 1])
  }

  /** The first place of a key, or the length of the list. */
  function PlaceOf(s: seq<Attr>, k: Key): (i: nat)
    ensures i <= |s| && (i < |s| ==> Matches(s[i], k)) && forall j :: 0 <= j < i ==> !Matches(s[j], k)
    decreases |s|
  {
    if s == [] then 0
    else
      var i := PlaceOf(s[..|s| - 1], k);
      if i < |s| - 1 || Matches(s[|s| - 1], k) then i else |s|
  }

  lemma {:induction false} FirstIsAtPlace(s: seq<Attr>, k: Key)
    ensures First(s, k) == if PlaceOf(s, k) < |s| then Some(s[PlaceOf(s, k)]) else None
    decreases |s|
  {
    if s != [] {
      FirstIsAtPlace(s[..|s| - 1], k);
    }
  }

  class AttrList {
    var elems: seq<Attr>

    constructor ()
      ensures elems == []
    {
      elems := [];
    }

    method InsertElementAt(a: Attr, i: nat)
      requires i <= |elems|
      modifies this
      ensures elems == InsertAt(old(elems), i, a)
    {
      elems := elems[..i] + [a] + elems[i..];
    }

    /** Whether there is an attribute with the key, and its place; the length of the list if there is none. */
    method FindIndex(k: Key) returns (found: bool, i: nat)
      ensures i == PlaceOf(elems, k) && (found <==> i < |elems|)
    {
      i := 0;
      while i < |elems|
        invariant i <= |elems| && forall j :: 0 <= j < i ==> !Matches(elems[j], k)
      {
        if Matches(elems[i], k) {
          return true, i;
        }
        i := i + 1;
      }
      found := false;
    }

    method GetIndex(k: Key) returns (i: int)
      ensures i == if PlaceOf(elems, k) < |elems| then PlaceOf(elems, k) else -1
    {
      for n := 0 to |elems|
        invariant forall j :: 0 <= j < n ==> !Matches(elems[j], k)
      {
        if Matches(elems[n], k) {
          return n;
        }
      }
      return -1;
    }

    method GetValue(k: Key) returns (v: Option<Text>)
      ensures v == if First(elems, k).None? then None else Some(First(elems, k).value.value)
    {
      FirstIsAtPlace(elems, k);
      for n := 0 to |elems|
        invariant forall j :: 0 <= j < n ==> !Matches(elems[j], k)
      {
        if Matches(elems[n], k) {
          return Some(elems[n].value);
        }
      }
      return None;
    }

    method GetType(k: Key) returns (v: Option<Text>)
      ensures v == if First(elems, k).None? then None else Some(First(elems, k).value.attrType)
    {
      FirstIsAtPlace(elems, k);
      for n := 0 to |elems|
        invariant forall j :: 0 <= j < n ==> !Matches(elems[j], k)
      {
        if Matches(elems[n], k) {
          return Some(elems[n].attrType);
        }
      }
      return None;
    }
  }

  // -------------------------------------------------------------------------
  //  Sorting
  // -------------------------------------------------------------------------

  /** Where an attribute goes: in front of the first one whose name is not smaller. */
  function Slot(s: seq<Attr>, a: Attr): (j: nat)
    ensures j <= |s| && (j < |s| ==> CompareString(s[j].qName, a.qName) >= 0)
    ensures forall i :: 0 <= i < j ==> CompareString(s[i].qName, a.qName) < 0
  {
    if s == [] || CompareString(s[0].qName, a.qName) >= 0 then 0 else 1 + Slot(s[1..], a)
  }

  function Insert(s: seq<Attr>, a: Attr): seq<Attr> { InsertAt(s, Slot(s, a), a) }

  function Sort(s: seq<Attr>): seq<Attr> {
    if s == [] then [] else Insert(Sort(s[..|s| - 1]), s[|s| - 1])
  }

  datatype ElementEvent = ElementEvent(uri: Text, localname: Text, qname: Text, attributes: seq<Attr>)

  class SortAttributesFilter {
    /** The events passed on to the next handler. */
    var passedOn: seq<ElementEvent>

    constructor ()
      ensures passedOn == []
    {
      passedOn := [];
    }

    /** The place of the first attribute in the list whose name is not smaller. */
    method SlotIn(sortedList: AttrList, a: Attr) returns (j: nat)
      ensures j == Slot(sortedList.elems, a)
    {
      j := 0;
      while j < |sortedList.elems|
        invariant j <= |sortedList.elems|
        invariant forall n :: 0 <= n < j ==> CompareString(sortedList.elems[n].qName, a.qName) < 0
      {
        var order := Compare(Some(sortedList.elems[j].qName), Some(a.qName));
        if order >= 0 {
          break;
        }
        j := j + 1;
      }
    }

    method StartElement(uri: Text, localname: Text, qname: Text, attributes: seq<Attr>)
      modifies this
      ensures passedOn == old(passedOn) + [ElementEvent(uri, localname, qname, Sort(attributes))]
    {
      var sortedList := new AttrList();
      for i := 0 to |attributes|
        invariant sortedList.elems == Sort(attributes[..i])
        invariant fresh(sortedList) && passedOn == old(passedOn)
      {
        var j := SlotIn(sortedList, attributes[i]);
        var pClone := Attr(attributes[i].qName, attributes[i].uri, attributes[i].localPart, attributes[i].value,
                           attributes[i].attrType);
        assert attributes[..i + 1][..i] == attributes[..i];
        sortedList.InsertElementAt(pClone, j);
      }
      assert attributes[..|attributes|] == attributes;
      passedOn := passedOn + [ElementEvent(uri, localname, qname, sortedList.elems)];
    }
  }

  function QNames(s: seq<Attr>): (r: seq<Text>)
    ensures |r| == |s| && forall i :: 0 <= i < |s| ==> r[i] == s[i].qName
  {
    seq(|s|, i requires 0 <= i < |s| => s[i].qName)
  }

  lemma InsertSorted(s: seq<Attr>, a: Attr)
    requires Sorted(QNames(s))
    ensures Sorted(QNames(Insert(s, a)))
  {
    var j := Slot(s, a);
    if j < |s| {
      CompareOpposite(s[j].qName, a.qName);
    }
    InsertAtSorted(QNames(s), j, a.qName);
    assert QNames(Insert(s, a)) == InsertAt(QNames(s), j, a.qName);
  }

  /** The result of sorting is sorted and has the same attributes. */
  lemma {:induction false} SortSorts(s: seq<Attr>)
    ensures Sorted(QNames(Sort(s))) && multiset(Sort(s)) == multiset(s)
    decreases |s|
  {
    if s != [] {
      var front, a := s[..|s| - 1], s[|s| - 1];
      SortSorts(front);
      InsertSorted(Sort(front), a);
      InsertAtPermutes(Sort(front), Slot(Sort(front), a), a);
      assert s == front + [a];
    }
  }

  // -------------------------------------------------------------------------
  //  Lookup after sorting
  // -------------------------------------------------------------------------

  lemma {:induction false} SelectAppend(s: seq<Attr>, t: seq<Attr>, k: Key)
    ensures Select(s + t, k) == Select(s, k) + Select(t, k)
    decreases |t|
  {
    if t == [] {
      assert s + t == s;
    } else {
      SelectAppend(s, t[..|t| - 1], k);
      assert (s + t)[..|s + t| - 1] == s + t[..|t| - 1];
    }
  }

  lemma SelectOne(a: Attr, k: Key)
    ensures Select([a], k) == if Matches(a, k) then [a] else []
  {
    assert [a][..0] == [];
  }

  lemma {:induction false} SelectNone(s: seq<Attr>, k: Key)
    requires forall i :: 0 <= i < |s| ==> !Matches(s[i], k)
    ensures Select(s, k) == []
    decreases |s|
  {
    if s != [] {
      SelectNone(s[..|s| - 1], k);
    }
  }

  lemma {:induction false} SelectMembers(s: seq<Attr>, k: Key, a: Attr)
    ensures a in Select(s, k) <==> a in s && Matches(a, k)
    decreases |s|
  {
    if s != [] {
      SelectMembers(s[..|s| - 1], k, a);
      assert s == s[..|s| - 1] + [s[|s| - 1]];
    }
  }

  /** Attributes of one qualified name come out in reverse order. */
  lemma {:induction false} TiesReversed(s: seq<Attr>, q: Text)
    ensures Select(Sort(s), ByQName(q)) == Reverse(Select(s, ByQName(q)))
    decreases |s|
  {
    if s != [] {
      var front, a := s[..|s| - 1], s[|s| - 1];
      TiesReversed(front, q);
      InsertTies(Sort(front), a, q);
      ReverseMore(Select(front, ByQName(q)), a);
    }
  }

  lemma InsertTies(t: seq<Attr>, a: Attr, q: Text)
    ensures Select(Insert(t, a), ByQName(q))
         == (if a.qName == q then [a] else []) + Select(t, ByQName(q))
  {
    hide Select, Insert, CompareString;
    var k, j := ByQName(q), Slot(t, a);
    InsertParts(t, a, k);
    SelectOne(a, k);
    if a.qName == q {
      forall i | 0 <= i < |t[..j]| ensures !Matches(t[..j][i], k) {
        CompareEqual(t[i].qName, q);
      }
      SelectNone(t[..j], k);
    }
  }

  /** What is selected from a list and from the list with an attribute put in. */
  lemma InsertParts(t: seq<Attr>, a: Attr, k: Key)
    ensures var j := Slot(t, a);
            && Select(t, k) == Select(t[..j], k) + Select(t[j..], k)
            && Select(Insert(t, a), k) == Select(t[..j], k) + Select([a], k) + Select(t[j..], k)
  {
    hide Select, CompareString;
    var j := Slot(t, a);
    SelectAppend(t[..j] + [a], t[j..], k);
    SelectAppend(t[..j], [a], k);
    SelectAppend(t[..j], t[j..], k);
    assert t == t[..j] + t[j..];
  }

  function Reverse(s: seq<Attr>): (r: seq<Attr>)
    ensures |r| == |s| && forall i :: 0 <= i < |s| ==> r[i] == s[|s| - 1 - i]
  {
    if s == [] then [] else [s[|s| - 1]] + Reverse(s[..|s| - 1])
  }

  lemma ReverseMore(s: seq<Attr>, a: Attr)
    ensures Reverse(s + [a]) == [a] + Reverse(s)
  {
    assert (s + [a])[..|s|] == s;
  }

  /**
   * Looking up a qualified name after sorting finds what was the last match before; so the result is the
   * same exactly if the first and the last match are the same attribute.
   */
  lemma LookupAfterSort(s: seq<Attr>, q: Text)
    ensures First(Sort(s), ByQName(q)) == Last(s, ByQName(q))
    ensures First(Sort(s), ByQName(q)) == First(s, ByQName(q)) <==> First(s, ByQName(q)) == Last(s, ByQName(q))
  {
    TiesReversed(s, q);
  }

  /**
   * A list with a repeated name, as a handler in front of the filter may pass on; the parser itself reports each
   * name once. The lookup finds the second attribute after sorting and the first before.
   */
  lemma RepeatedNameChanges(a: Attr, b: Attr)
    requires a.qName == b.qName && a != b
    ensures First([a, b], ByQName(a.qName)) == Some(a) && First(Sort([a, b]), ByQName(a.qName)) == Some(b)
  {
    var k := ByQName(a.qName);
    SelectOne(a, k);
    SelectOne(b, k);
    SelectAppend([a], [b], k);
    assert [a] + [b] == [a, b];
    LookupAfterSort([a, b], a.qName);
  }

  /** A key that at most one attribute has finds the same attribute before and after. */
  lemma DistinctLookup(s: seq<Attr>, k: Key)
    requires |Select(s, k)| <= 1
    ensures First(Sort(s), k) == First(s, k)
  {
    hide Select, Sort;
    SortSorts(s);
    SelectSize(s, Sort(s), k);
    OneIsOne(Select(s, k), Select(Sort(s), k));
  }

  lemma OneIsOne(a: seq<Attr>, b: seq<Attr>)
    requires multiset(a) == multiset(b) && |a| == |b| <= 1
    ensures a == b
  {
    if a != [] {
      assert a == [a[0]] && b == [b[0]];
      assert multiset(a)[a[0]] == 1 && multiset(b)[b[0]] == 1;
    }
  }

  lemma {:induction false} SelectCount(s: seq<Attr>, k: Key)
    ensures forall a :: multiset(Select(s, k))[a] == if Matches(a, k) then multiset(s)[a] else 0
    decreases |s|
  {
    if s != [] {
      SelectCount(s[..|s| - 1], k);
      assert s == s[..|s| - 1] + [s[|s| - 1]];
    }
  }

  lemma SelectSize(s: seq<Attr>, t: seq<Attr>, k: Key)
    requires multiset(s) == multiset(t)
    ensures multiset(Select(s, k)) == multiset(Select(t, k)) && |Select(s, k)| == |Select(t, k)|
  {
    SelectCount(s, k);
    SelectCount(t, k);
    assert |multiset(Select(s, k))| == |Select(s, k)| && |multiset(Select(t, k))| == |Select(t, k)|;
  }

  /**
   * Looking up a namespace and local name after sorting finds, among the attributes with that name, one
   * with the smallest qualified name, and of those the last one there was before.
   */
  lemma NameLookupAfterSort(s: seq<Attr>, k: Key)
    ensures First(Sort(s), k) == First(Sort(Select(s, k)), k)
    ensures First(Sort(s), k).Some? ==>
              var a := First(Sort(s), k).value;
              && a in s && Matches(a, k) && (forall b :: b in s && Matches(b, k) ==> AtMost(a.qName, b.qName))
              && Some(a) == Last(Select(s, k), ByQName(a.qName))
  {
    hide Sort, AtMost;
    var t := Sort(Select(s, k));
    SelectSort(s, k);
    SelectTwice(s, k);
    SelectSort(Select(s, k), k);
    if t != [] {
      FirstOfSelection(Select(s, k), t[0]);
      SmallestFirst(s, k);
    }
  }

  /**
   * The lookup is unchanged by sorting exactly if the first match before has the smallest qualified name of all
   * matches and is the last of those with that name.
   */
  lemma NameLookupUnchangedIff(s: seq<Attr>, k: Key)
    requires First(s, k).Some?
    ensures var a := First(s, k).value;
            First(Sort(s), k) == Some(a) <==>
              (forall b :: b in s && Matches(b, k) ==> AtMost(a.qName, b.qName)) &&
              Last(Select(s, k), ByQName(a.qName)) == Some(a)
  {
    hide Sort, Last;
    var a := First(s, k).value;
    NameLookupAfterSort(s, k);
    SelectMembers(s, k, a);
    SortedHasMatch(s, k);
    var b := First(Sort(s), k).value;
    CompareOpposite(a.qName, b.qName);
    CompareEqual(a.qName, b.qName);
  }

  /** Two attributes of one namespace and local name under two prefixes, the second with the smaller name. */
  lemma OtherPrefixChanges(a: Attr, b: Attr, k: Key)
    requires k.ByName? && Matches(a, k) && Matches(b, k) && CompareString(b.qName, a.qName) < 0
    ensures First([a, b], k) == Some(a) && First(Sort([a, b]), k) == Some(b) && a != b
  {
    hide CompareString;
    SelectOne(a, k);
    SelectOne(b, k);
    SelectAppend([a], [b], k);
    assert [a] + [b] == [a, b];
    CompareEqual(a.qName, b.qName);
    CompareOpposite(a.qName, b.qName);
    NameLookupUnchangedIff([a, b], k);
    assert b in [a, b];
    NameLookupAfterSort([a, b], k);
    SortedHasMatch([a, b], k);
  }

  lemma SortedHasMatch(s: seq<Attr>, k: Key)
    requires First(s, k).Some?
    ensures First(Sort(s), k).Some?
  {
    hide Sort, Select;
    SortSorts(s);
    SelectSize(s, Sort(s), k);
  }

  lemma SmallestFirst(s: seq<Attr>, k: Key)
    requires Sort(Select(s, k)) != []
    ensures var a := Sort(Select(s, k))[0];
            a in s && Matches(a, k) && forall b :: b in s && Matches(b, k) ==> AtMost(a.qName, b.qName)
  {
    var t := Sort(Select(s, k));
    SortSorts(Select(s, k));
    assert t[0] in multiset(t);
    SelectMembers(s, k, t[0]);
    forall b | b in s && Matches(b, k) ensures AtMost(t[0].qName, b.qName) {
      SelectMembers(s, k, b);
      assert b in multiset(t);
      var i :| 0 <= i < |t| && t[i] == b;
      CompareEqual(t[0].qName, t[0].qName);
    }
  }

  lemma FirstOfSelection(s: seq<Attr>, a: Attr)
    requires Sort(s) != [] && Sort(s)[0] == a
    ensures Last(s, ByQName(a.qName)) == Some(a)
  {
    hide Sort, First, Last;
    FirstIsAtPlace(Sort(s), ByQName(a.qName));
    LookupAfterSort(s, a.qName);
  }

  lemma {:induction false} SelectTwice(s: seq<Attr>, k: Key)
    ensures Select(Select(s, k), k) == Select(s, k)
    decreases |s|
  {
    if s != [] {
      var front, a := s[..|s| - 1], s[|s| - 1];
      SelectTwice(front, k);
      SelectOne(a, k);
      if Matches(a, k) {
        SelectAppend(Select(front, k), [a], k);
      } else {
        assert Select(s, k) == Select(front, k);
      }
    }
  }

  /** Sorting a selection is selecting from the sorted list. */
  lemma {:induction false} SelectSort(s: seq<Attr>, k: Key)
    ensures Select(Sort(s), k) == Sort(Select(s, k))
    decreases |s|
  {
    if s != [] {
      var front, a := s[..|s| - 1], s[|s| - 1];
      SelectSort(front, k);
      SortSorts(front);
      SelectInsert(Sort(front), a, k);
      if Matches(a, k) {
        var chosen := Select(front, k);
        assert (chosen + [a])[..|chosen|] == chosen;
      } else {
        assert Select(s, k) == Select(front, k);
      }
    }
  }

  lemma SelectInsert(t: seq<Attr>, a: Attr, k: Key)
    requires Sorted(QNames(t))
    ensures Select(Insert(t, a), k) == if Matches(a, k) then Insert(Select(t, k), a) else Select(t, k)
  {
    hide Select, Insert;
    var j := Slot(t, a);
    var low, high := Select(t[..j], k), Select(t[j..], k);
    InsertParts(t, a, k);
    SelectOne(a, k);
    forall x | x in low ensures CompareString(x.qName, a.qName) < 0 {
      SelectMembers(t[..j], k, x);
    }
    forall x | x in high ensures CompareString(x.qName, a.qName) >= 0 {
      SelectMembers(t[j..], k, x);
      NotBelow(t, a, x);
    }
    if Matches(a, k) {
      SlotBetween(low, high, a);
    }
  }

  lemma NotBelow(t: seq<Attr>, a: Attr, x: Attr)
    requires Sorted(QNames(t)) && x in t[Slot(t, a)..]
    ensures CompareString(x.qName, a.qName) >= 0
  {
    var j := Slot(t, a);
    var i :| j <= i < |t| && t[i] == x;
    CompareOpposite(t[j].qName, a.qName);
    CompareOpposite(x.qName, a.qName);
    if i > j {
      CompareTransitive(a.qName, t[j].qName, x.qName);
    }
  }

  lemma SlotBetween(low: seq<Attr>, high: seq<Attr>, a: Attr)
    requires forall x :: x in low ==> CompareString(x.qName, a.qName) < 0
    requires forall x :: x in high ==> CompareString(x.qName, a.qName) >= 0
    ensures Insert(low + high, a) == low + [a] + high
  {
    var s := low + high;
    var j := Slot(s, a);
    assert forall i :: 0 <= i < |low| ==> s[i] in low;
    assert high != [] ==> s[|low|] == high[0] && high[0] in high;
    assert s[..|low|] == low && s[|low|..] == high;
  }
}
