/** The facets of a datatype, printed sorted by name whatever order their hash table is enumerated in. */
module FacetPrinting {
  import opened Options
  import opened SortedInsertion
  import opened XmlText

  /** Where a name goes: in front of the first larger one. */
  function Slot(s: seq<Text>, key: Text): (j: nat)
    ensures j <= |s| && (j < |s| ==> CompareString(key, s[j]) < 0)
    ensures forall i :: 0 <= i < j ==> CompareString(key, s[i]) >= 0
  {
    if s == [] || CompareString(key, s[0]) < 0 then 0 else 1 + Slot(s[1..], key)
  }

  function Insert(s: seq<Text>, key: Text): seq<Text> { InsertAt(s, Slot(s, key), key) }

  function Sort(s: seq<Text>): seq<Text> {
    if s == [] then [] else Insert(Sort(s[..|s| - 1]), s[|s| - 1])
  }

  /** An enumeration of the table: every key once, in some order. */
  ghost predicate Enumerates(order: seq<Text>, facets: map<Text, Text>) {
    (forall k :: k in order <==> k in facets) && forall i, j :: 0 <= i < j < |order| ==> order[i] != order[j]
  }

  function FacetLines(s: seq<Text>, facets: map<Text, Text>): string
    requires forall k :: k in s ==> k in facets
  {
    if s == [] then ""
    else FacetLines(s[..|s| - 1], facets) + "\t" + s[|s| - 1] + "=" + facets[s[|s| - 1]] + "\n"
  }

  function FacetText(s: seq<Text>, facets: map<Text, Text>): string
    requires forall k :: k in s ==> k in facets
  {
    if s == [] then "" else "Facets:\t\t\n" + FacetLines(s, facets)
  }

  function Concat(lines: seq<string>): string {
    if lines == [] then "" else Concat(lines[..|lines| - 1]) + lines[|lines| - 1]
  }

  /** The facets are listed under a heading, one line for each, in the order of a dictionary. */
  ghost predicate Listed(out: string, facets: map<Text, Text>) {
    if facets == map[] then out == "" else exists keys, lines :: Lists(out, facets, keys, lines)
  }

  ghost predicate Lists(out: string, facets: map<Text, Text>, keys: seq<Text>, lines: seq<string>) {
    && (forall k :: k in keys <==> k in facets) && (forall i, j :: 0 <= i < j < |keys| ==> Before(keys[i], keys[j]))
    && |lines| == |keys| && (forall i :: 0 <= i < |keys| ==> lines[i] == "\t" + keys[i] + "=" + facets[keys[i]] + "\n")
    && out == "Facets:\t\t\n" + Concat(lines)
  }

  class SortedList {
    var elems: seq<Text>

    constructor ()
      ensures elems == []
    {
      elems := [];
    }

    method InsertElementAt(key: Text, i: nat)
      requires i <= |elems|
      modifies this
      ensures elems == InsertAt(old(elems), i, key)
    {
      elems := elems[..i] + [key] + elems[i..];
    }

    method AddElement(key: Text)
      modifies this
      ensures elems == old(elems) + [key]
    {
      elems := elems + [key];
    }

    method InsertKey(key: Text)
      modifies this
      ensures elems == Insert(old(elems), key)
    {
      var i, len := 0, |elems|;
      while i < len
        invariant i <= len == |elems| && elems == old(elems)
        invariant forall n :: 0 <= n < i ==> CompareString(key, elems[n]) >= 0
      {
        var order := Compare(Some(key), Some(elems[i]));
        if order < 0 {
          InsertElementAt(key, i);
          break;
        }
        i := i + 1;
      }
      if i == len {
        AddElement(key);
      }
    }
  }

  method SortKeys(order: seq<Text>) returns (sortedList: SortedList)
    ensures fresh(sortedList) && sortedList.elems == Sort(order)
  {
    sortedList := new SortedList();
    for n := 0 to |order|
      invariant fresh(sortedList) && sortedList.elems == Sort(order[..n])
    {
      assert order[..n + 1][..n] == order[..n];
      sortedList.InsertKey(order[n]);
    }
    assert order[..|order|] == order;
  }

  method PrintKeys(sortedList: SortedList, facets: map<Text, Text>) returns (out: string)
    requires forall k :: k in sortedList.elems ==> k in facets
    ensures out == FacetLines(sortedList.elems, facets)
  {
    out := "";
    var len := |sortedList.elems|;
    for i := 0 to len
      invariant out == FacetLines(sortedList.elems[..i], facets)
    {
      var key := sortedList.elems[i];
      assert sortedList.elems[..i + 1][..i] == sortedList.elems[..i];
      out := out + "\t" + key + "=" + facets[key] + "\n";
    }
    assert sortedList.elems[..len] == sortedList.elems;
  }

  /** Prints the facets; `order` is the order in which the table enumerates its keys. */
  method ProcessFacets(facets: map<Text, Text>, order: seq<Text>) returns (out: string)
    requires Enumerates(order, facets)
    ensures (forall k :: k in Sort(order) ==> k in facets) && out == FacetText(Sort(order), facets)
    ensures Listed(out, facets)
  {
    SortSorts(order);
    TextLists(facets, order);
    out := "";
    if |order| > 0 {
      var sortedList := SortKeys(order);
      var lines := PrintKeys(sortedList, facets);
      out := "Facets:\t\t\n" + lines;
    }
  }

  lemma {:induction false} LinesJoined(s: seq<Text>, facets: map<Text, Text>) returns (lines: seq<string>)
    requires forall k :: k in s ==> k in facets
    ensures |lines| == |s| && forall i :: 0 <= i < |s| ==> lines[i] == "\t" + s[i] + "=" + facets[s[i]] + "\n"
    ensures FacetLines(s, facets) == Concat(lines)
    decreases |s|
  {
    if s == [] {
      lines := [];
    } else {
      var front, key := s[..|s| - 1], s[|s| - 1];
      var before := LinesJoined(front, facets);
      var line := "\t" + key + "=" + facets[key] + "\n";
      lines := before + [line];
      assert lines[..|lines| - 1] == before;
      assert FacetLines(s, facets) == FacetLines(front, facets) + line;
    }
  }

  /** No name is repeated when the names are sorted. */
  lemma SortedStrict(order: seq<Text>, i: nat, j: nat)
    requires forall m, n :: 0 <= m < n < |order| ==> order[m] != order[n]
    requires i < j < |Sort(order)|
    ensures Before(Sort(order)[i], Sort(order)[j])
  {
    hide Before, Sort;
    var keys := Sort(order);
    SortSorts(order);
    CountOne(order);
    if keys[i] == keys[j] {
      Twice(keys, i, j);
    }
    CompareEqual(keys[i], keys[j]);
    CompareLessIff(keys[i], keys[j]);
  }

  lemma Twice(s: seq<Text>, i: nat, j: nat)
    requires i < j < |s| && s[i] == s[j]
    ensures multiset(s)[s[i]] >= 2
  {
    assert s == s[..j] + s[j..];
    assert s[i] == s[..j][i] && s[i] == s[j..][0];
    assert s[i] in multiset(s[..j]) && s[i] in multiset(s[j..]);
  }

  lemma NoneListed(facets: map<Text, Text>, keys: seq<Text>)
    requires forall k :: k in keys <==> k in facets
    ensures keys == [] <==> facets == map[]
  {
    if keys != [] {
      assert keys[0] in keys;
    }
    if k :| k in facets {
      assert k in keys;
    }
  }

  lemma TextLists(facets: map<Text, Text>, order: seq<Text>)
    requires Enumerates(order, facets)
    ensures (forall k :: k in Sort(order) ==> k in facets) && Listed(FacetText(Sort(order), facets), facets)
  {
    hide Sort, Before;
    var keys := Sort(order);
    SortSorts(order);
    NoneListed(facets, keys);
    if facets != map[] {
      var lines := LinesJoined(keys, facets);
      forall i, j | 0 <= i < j < |keys| ensures Before(keys[i], keys[j]) { SortedStrict(order, i, j); }
      assert Lists(FacetText(keys, facets), facets, keys, lines);
    }
  }

  lemma InsertSorted(s: seq<Text>, key: Text)
    requires Sorted(s)
    ensures Sorted(Insert(s, key))
  {
    forall i | 0 <= i < Slot(s, key) ensures AtMost(s[i], key) {
      CompareOpposite(key, s[i]);
    }
    InsertAtSorted(s, Slot(s, key), key);
  }

  lemma {:induction false} SortSorts(s: seq<Text>)
    ensures Sorted(Sort(s)) && multiset(Sort(s)) == multiset(s)
    ensures forall k :: k in Sort(s) <==> k in s
    decreases |s|
  {
    if s != [] {
      var front, key := s[..|s| - 1], s[|s| - 1];
      SortSorts(front);
      InsertSorted(Sort(front), key);
      InsertAtPermutes(Sort(front), Slot(Sort(front), key), key);
      assert s == front + [key];
    }
    forall k ensures k in Sort(s) <==> k in s {
      assert k in Sort(s) <==> k in multiset(Sort(s));
      assert k in s <==> k in multiset(s);
    }
  }

  /** A sorted list is determined by its members and how often each occurs. */
  lemma {:induction false} SortedUnique(s: seq<Text>, t: seq<Text>)
    requires Sorted(s) && Sorted(t) && multiset(s) == multiset(t)
    ensures s == t
    decreases |s|
  {
    assert |multiset(s)| == |s| && |multiset(t)| == |t|;
    if s != [] {
      SameLast(s, t);
      DropLast(s);
      DropLast(t);
      SortedUnique(s[..|s| - 1], t[..|t| - 1]);
    }
  }

  lemma SameLast(s: seq<Text>, t: seq<Text>)
    requires Sorted(s) && Sorted(t) && s != [] && t != [] && multiset(s) == multiset(t)
    ensures s[|s| - 1] == t[|t| - 1]
  {
    LargestLast(s, t);
    LargestLast(t, s);
    CompareOpposite(s[|s| - 1], t[|t| - 1]);
    CompareEqual(s[|s| - 1], t[|t| - 1]);
  }

  lemma LargestLast(s: seq<Text>, t: seq<Text>)
    requires Sorted(s) && s != [] && multiset(s) == multiset(t) && t != []
    ensures AtMost(t[|t| - 1], s[|s| - 1])
  {
    assert t[|t| - 1] in multiset(s);
    var i :| 0 <= i < |s| && s[i] == t[|t| - 1];
    CompareEqual(s[i], s[|s| - 1]);
  }

  lemma DropLast(s: seq<Text>)
    requires s != []
    ensures s == s[..|s| - 1] + [s[|s| - 1]] && multiset(s[..|s| - 1]) == multiset(s) - multiset{s[|s| - 1]}
  {
    assert s == s[..|s| - 1] + [s[|s| - 1]];
  }

  lemma EnumerationCount(order: seq<Text>, other: seq<Text>)
    requires forall k :: k in order <==> k in other
    requires forall i, j :: 0 <= i < j < |order| ==> order[i] != order[j]
    requires forall i, j :: 0 <= i < j < |other| ==> other[i] != other[j]
    ensures multiset(order) == multiset(other)
  {
    CountOne(order);
    CountOne(other);
  }

  lemma {:induction false} CountOne(s: seq<Text>)
    requires forall i, j :: 0 <= i < j < |s| ==> s[i] != s[j]
    ensures forall k :: multiset(s)[k] == if k in s then 1 else 0
    decreases |s|
  {
    if s != [] {
      var n := |s| - 1;
      CountOne(s[..n]);
      assert s == s[..n] + [s[n]];
    }
  }

  /** The output is the same for every order in which the hash table enumerates its keys. */
  lemma OutputIndependentOfOrder(facets: map<Text, Text>, order: seq<Text>, other: seq<Text>)
    requires Enumerates(order, facets) && Enumerates(other, facets)
    ensures Sort(order) == Sort(other)
    ensures (forall k :: k in Sort(order) ==> k in facets) &&
            FacetText(Sort(order), facets) == FacetText(Sort(other), facets)
  {
    EnumerationCount(order, other);
    SortSorts(order);
    SortSorts(other);
    SortedUnique(Sort(order), Sort(other));
  }
}
