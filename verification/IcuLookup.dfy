/** Looking up a character in the "to" table, as the table transcoder does, and how the two tables agree. */
module IcuLookup {
  import opened Options
  import opened IcuTables

  /** Sorted by Unicode value, no value twice. */
  ghost predicate Increasing(t: seq<XlatRec>) {
    forall i, j :: 0 <= i < j < |t| ==> t[i].uniVal < t[j].uniVal
  }

  /** The first place of a character, or the length of the table. */
  function PlaceOf(t: seq<XlatRec>, u: Unicode): (r: nat)
    ensures r <= |t| && (r < |t| ==> t[r].uniVal == u) && forall i :: 0 <= i < r ==> t[i].uniVal != u
  {
    if t == [] then 0 else if t[0].uniVal == u then 0 else 1 + PlaceOf(t[1..], u)
  }

  /**
   * The code page value the transcoder finds for a character; 0 if it finds none. The first record of a
   * table of three or more is never found.
   */
  function Lookup(t: seq<XlatRec>, u: Unicode): Byte {
    var i := PlaceOf(t, u);
    if i < |t| && (i > 0 || |t| <= 2) then t[i].cpVal else 0
  }

  lemma PlaceIsUnique(t: seq<XlatRec>, i: nat)
    requires Increasing(t) && i < |t|
    ensures PlaceOf(t, t[i].uniVal) == i
  {
  }

  /** The bisection finds what Lookup says, and with it misses the first of three or more records. */
  method XlatOneTo(toTable: seq<XlatRec>, toXlat: Unicode) returns (r: Byte)
    requires toTable != [] && Increasing(toTable)
    ensures r == Lookup(toTable, toXlat)
  {
    var lowOfs, hiOfs := 0, |toTable| - 1;
    var more := true;
    while more
      invariant 0 <= lowOfs <= hiOfs < |toTable|
      invariant more ==> lowOfs + 1 < hiOfs || (lowOfs == 0 && hiOfs == |toTable| - 1)
      invariant !more ==> lowOfs + 1 >= hiOfs
      invariant forall i :: 0 <= i < lowOfs ==> toTable[i].uniVal < toXlat
      invariant lowOfs > 0 ==> toTable[lowOfs].uniVal < toXlat
      invariant lowOfs == 0 && !more && hiOfs <= 1 && |toTable| <= 2 ==> toTable[0].uniVal != toXlat
      invariant forall i :: hiOfs < i < |toTable| ==> toTable[i].uniVal > toXlat
      invariant !more && |toTable| > 2 ==> hiOfs > 0
      decreases more, hiOfs - lowOfs
    {
      var midOfs := (hiOfs - lowOfs) / 2 + lowOfs;
      if toXlat > toTable[midOfs].uniVal {
        lowOfs := midOfs;
      } else if toXlat < toTable[midOfs].uniVal {
        hiOfs := midOfs;
      } else {
        return toTable[midOfs].cpVal;
      }
      more := lowOfs + 1 < hiOfs;
    }
    if toXlat == toTable[hiOfs].uniVal {
      return toTable[hiOfs].cpVal;
    }
    return 0;
  }

  // -------------------------------------------------------------------------
  //  The two tables
  // -------------------------------------------------------------------------

  /** Both tables were made from the same records, each in its order, and there is no gap. */
  ghost predicate Paired(s: seq<XlatRec>, t: seq<XlatRec>) {
    OrderedFrom(s) && Increasing(t) && multiset(s) == multiset(t) && GapFree(s, 0)
  }

  function FromTable(s: seq<XlatRec>): seq<Unicode>
    requires Emit(s, 0).Some?
  {
    Emit(s, 0).value
  }

  /** Every entry is a record's, the one with the smallest character. */
  lemma EntryIsRecord(s: seq<XlatRec>, c: nat)
    requires OrderedFrom(s) && GapFree(s, 0) && Emit(s, 0).Some? && c < |FromTable(s)|
    ensures c < 256 && XlatRec(FromTable(s)[c], c) in s
    ensures forall r :: r in s && r.cpVal == c ==> FromTable(s)[c] <= r.uniVal
  {
    hide Count, Fits, Emit, OrderedFrom;
    GapFreeFits(s, 0);
    EntryCount(s, 0);
    EmitIff(s, 0);
    assert IsEntry(s, 0 + c, FromTable(s)[c]);
    assert s[|s| - 1] in s && 1 <= Count(s, c);
    CountPositive(s, c);
    var r :| r in s && r.cpVal == c && r.uniVal == FromTable(s)[c];
    assert r == XlatRec(FromTable(s)[c], c);
  }

  /** The transcoder takes an entry of the "from" table back to its place, but for the one it never finds. */
  lemma FromThenTo(s: seq<XlatRec>, t: seq<XlatRec>, c: nat)
    requires Paired(s, t) && Emit(s, 0).Some? && c < |FromTable(s)|
    ensures t != []
    ensures Lookup(t, FromTable(s)[c]) == c <==> |t| <= 2 || FromTable(s)[c] != t[0].uniVal || c == 0
  {
    EntryIsRecord(s, c);
    SameMembers(s, t);
    var i :| 0 <= i < |t| && t[i] == XlatRec(FromTable(s)[c], c);
    PlaceIsUnique(t, i);
    assert i > 0 ==> t[0].uniVal < t[i].uniVal;
  }

  /** All entries are taken back exactly if the smallest character has code page value 0, or two records do. */
  lemma AllFromThenToIff(s: seq<XlatRec>, t: seq<XlatRec>)
    requires Paired(s, t) && Emit(s, 0).Some? && t != []
    ensures (forall c :: 0 <= c < |FromTable(s)| ==> Lookup(t, FromTable(s)[c]) == c)
       <==> |t| <= 2 || t[0].cpVal == 0
  {
    hide OrderedFrom, Increasing, GapFree, Emit, Lookup;
    forall c | 0 <= c < |FromTable(s)|
      ensures Lookup(t, FromTable(s)[c]) == c <==> |t| <= 2 || FromTable(s)[c] != t[0].uniVal || c == 0
    {
      FromThenTo(s, t, c);
    }
    SmallestIsEntry(s, t);
  }

  /** The smallest character of all is the entry of its code page value, and of no other. */
  lemma SmallestIsEntry(s: seq<XlatRec>, t: seq<XlatRec>)
    requires Paired(s, t) && Emit(s, 0).Some? && t != []
    ensures t[0].cpVal < |FromTable(s)| && FromTable(s)[t[0].cpVal] == t[0].uniVal
    ensures forall c :: 0 <= c < |FromTable(s)| && FromTable(s)[c] == t[0].uniVal ==> c == t[0].cpVal
  {
    SameMembers(s, t);
    assert t[0] in s;
    InTable(s, t[0]);
    EntryIsRecord(s, t[0].cpVal);
    AtLeastFirst(t, XlatRec(FromTable(s)[t[0].cpVal], t[0].cpVal));
    forall c | 0 <= c < |FromTable(s)| && FromTable(s)[c] == t[0].uniVal ensures c == t[0].cpVal {
      EntryIsRecord(s, c);
      AtLeastFirst(t, XlatRec(FromTable(s)[c], c));
    }
  }

  lemma AtLeastFirst(t: seq<XlatRec>, r: XlatRec)
    requires Increasing(t) && r in t
    ensures t[0].uniVal <= r.uniVal && (t[0].uniVal == r.uniVal ==> r == t[0])
  {
  }

  /** Every code page value in use has an entry. */
  lemma InTable(s: seq<XlatRec>, r: XlatRec)
    requires OrderedFrom(s) && GapFree(s, 0) && Emit(s, 0).Some? && r in s
    ensures r.cpVal < |FromTable(s)|
  {
    hide GapFree, Fits, Emit, OrderedFrom;
    GapFreeFits(s, 0);
    EmitIff(s, 0);
  }

  /**
   * The value found for a character leads back to it in the "from" table exactly if the character is the
   * smallest of its code page value and is not the one the transcoder never finds.
   */
  lemma ToThenFromIff(s: seq<XlatRec>, t: seq<XlatRec>, i: nat)
    requires Paired(s, t) && Emit(s, 0).Some? && i < |t|
    ensures Lookup(t, t[i].uniVal) < |FromTable(s)|
    ensures FromTable(s)[Lookup(t, t[i].uniVal)] == t[i].uniVal
       <==> (i > 0 || |t| <= 2 || t[0].cpVal == 0)
            && forall k :: 0 <= k < |t| && t[k].cpVal == t[i].cpVal ==> t[i].uniVal <= t[k].uniVal
  {
    hide OrderedFrom, GapFree, Emit;
    SameMembers(s, t);
    PlaceIsUnique(t, i);
    assert t[i] in s;
    InTable(s, t[i]);
    var c := Lookup(t, t[i].uniVal);
    EntryIsRecord(s, c);
    var j :| 0 <= j < |t| && t[j] == XlatRec(FromTable(s)[c], c);
    assert forall k :: 0 <= k < |t| ==> t[k] in s;
  }

  const FROM_RECORDS := [XlatRec(0x21, 0), XlatRec(0x20, 1), XlatRec(0x22, 2)]
  const TO_RECORDS := [XlatRec(0x20, 1), XlatRec(0x21, 0), XlatRec(0x22, 2)]

  /** Two tables of three characters; the first one has value 1 and is not taken back to it. */
  lemma FirstMissed()
    ensures Paired(FROM_RECORDS, TO_RECORDS)
    ensures Emit(FROM_RECORDS, 0) == Some([0x21, 0x20, 0x22]) && Lookup(TO_RECORDS, 0x20) == 0
  {
    PlaceIsUnique(TO_RECORDS, 0);
    FirstMissedEntries();
    FirstMissedCounts();
  }

  lemma FirstMissedEntries()
    ensures Emit(FROM_RECORDS, 0) == Some([0x21, 0x20, 0x22])
  {
    var s1, s2 := [XlatRec(0x20, 1), XlatRec(0x22, 2)], [XlatRec(0x22, 2)];
    assert FROM_RECORDS[1..] == s1 && s1[1..] == s2 && s2[1..] == [];
    assert Emit(s2, 2) == Entry(0x22, Some([])) && [0x22] + [] == [0x22];
    assert Emit(s1, 1) == Entry(0x20, Emit(s2, 2)) && [0x20] + [0x22] == [0x20, 0x22];
    assert [0x21] + [0x20, 0x22] == [0x21, 0x20, 0x22];
  }

  lemma FirstMissedCounts()
    ensures GapFree(FROM_RECORDS, 0)
  {
    var s1, s2 := [XlatRec(0x20, 1), XlatRec(0x22, 2)], [XlatRec(0x22, 2)];
    assert FROM_RECORDS[1..] == s1 && s1[1..] == s2 && s2[1..] == [];
    forall c: nat | c <= 2 ensures Count(FROM_RECORDS, c) == 1 {
      assert Count(s2, c) == if c == 2 then 1 else 0;
      assert Count(s1, c) == if c >= 1 then 1 else 0;
    }
  }

  /** No character occurs in two records. */
  ghost predicate DistinctChars(s: seq<XlatRec>) {
    NoRepeats(s) && forall a, b :: a in s && b in s && a.uniVal == b.uniVal ==> a == b
  }

  lemma DistinctIncrease(records: seq<XlatRec>, t: seq<XlatRec>)
    requires DistinctChars(records) && OrderedTo(t) && multiset(t) == multiset(records)
    ensures Increasing(t)
  {
    SameMembers(t, records);
    NoRepeatsCount(t);
    NoRepeatsCount(records);
    forall i, j | 0 <= i < j < |t| ensures t[i].uniVal < t[j].uniVal {
      assert CompTo(t[i], t[j]) <= 0 && t[i] != t[j];
      assert t[i] in records && t[j] in records;
    }
  }

  /**
   * What the two sorts leave of records with distinct characters and without gaps: the "from" table is the
   * right one, and the "to" table is strictly increasing, so that the results above apply.
   */
  lemma SortedTablesPair(records: seq<XlatRec>, s: seq<XlatRec>, t: seq<XlatRec>)
    requires DistinctChars(records) && GapFree(records, 0)
    requires OrderedFrom(s) && multiset(s) == multiset(records)
    requires OrderedTo(t) && multiset(t) == multiset(records)
    ensures Paired(s, t) && Right(s, 0, records)
  {
    DistinctIncrease(records, t);
    GapFreeFits(records, 0);
    FromTableIff(s, records);
    SameMembers(s, records);
    forall c: nat ensures Count(s, c) == Count(records, c) {
      CountPermuted(s, records, c);
    }
  }
}
