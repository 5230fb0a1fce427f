/**
 * The code page tables made from a UCM file: the "from" table by code page value, the "to" table by Unicode
 * value, and when the two agree.
 */
module IcuTables {
  import opened Options

  type Unicode = x: nat | x < 0x10000
  type Byte = x: nat | x < 0x100

  datatype XlatRec = XlatRec(uniVal: Unicode, cpVal: Byte)

  /** Stands in the "from" table where no character has the code page value. */
  const FILLER: Unicode := 0xFFFF

  function CompTo(a: XlatRec, b: XlatRec): int { a.uniVal - b.uniVal }

  function CompFrom(a: XlatRec, b: XlatRec): int {
    if a.cpVal == b.cpVal then a.uniVal - b.uniVal else a.cpVal - b.cpVal
  }

  predicate OrderedFrom(s: seq<XlatRec>) {
    forall i, j :: 0 <= i < j < |s| ==> CompFrom(s[i], s[j]) <= 0
  }

  predicate OrderedTo(s: seq<XlatRec>) {
    forall i, j :: 0 <= i < j < |s| ==> CompTo(s[i], s[j]) <= 0
  }

  // -------------------------------------------------------------------------
  //  The "from" table
  // -------------------------------------------------------------------------

  /**
   * The entries printed for the records s, sorted by code page value, when `cur` is the next value; None if
   * the program gives up. A filler uses up a record too, and at most one further record of a value is
   * skipped.
   */
  function Emit(s: seq<XlatRec>, cur: nat): Option<seq<Unicode>>
    decreases |s|
  {
    if s == [] then Some([])
    else if cur == s[0].cpVal then Entry(s[0].uniVal, Emit(AfterEntry(s), cur + 1))
    else if cur < s[0].cpVal then Entry(FILLER, Emit(s[1..], cur + 1))
    else None
  }

  function Entry(v: Unicode, rest: Option<seq<Unicode>>): Option<seq<Unicode>> {
    if rest.None? then None else Some([v] + rest.value)
  }

  function AfterEntry(s: seq<XlatRec>): (r: seq<XlatRec>)
    requires s != []
  {
    if |s| > 1 && s[1].cpVal == s[0].cpVal then s[2..] else s[1..]
  }

  /** The smallest Unicode value of a code page value, or the filler if there is none. */
  ghost predicate IsEntry(s: seq<XlatRec>, c: nat, v: Unicode) {
    if exists r :: r in s && r.cpVal == c then
      (exists r :: r in s && r.cpVal == c && r.uniVal == v) && forall r :: r in s && r.cpVal == c ==> v <= r.uniVal
    else v == 0xFFFF
  }

  /** The table has the right entry for every value from `cur` up to the largest in use. */
  ghost predicate IsFromTable(s: seq<XlatRec>, cur: nat, table: seq<Unicode>) {
    && (forall r :: r in s ==> r.cpVal - cur < |table|)
    && (forall j :: 0 <= j < |table| ==> IsEntry(s, cur + j, table[j]))
  }

  /** The number of records with this code page value. */
  function Count(s: seq<XlatRec>, c: nat): nat {
    if s == [] then 0 else Count(s[1..], c) + if s[0].cpVal == c then 1 else 0
  }

  /** Every value from `cur` up to the largest in use occurs once or twice. */
  ghost predicate GapFree(s: seq<XlatRec>, cur: nat) {
    forall r, c :: r in s && cur <= c <= r.cpVal ==> 1 <= Count(s, c) <= 2
  }

  /** The number of values just below c, from `cur` on, that do not occur. */
  function Gap(s: seq<XlatRec>, cur: nat, c: nat): nat
    requires cur <= c
  {
    if c == cur || Count(s, c - 1) > 0 then 0 else 1 + Gap(s, cur, c - 1)
  }

  /** A record with the smallest character of its code page value. */
  ghost predicate Smallest(s: seq<XlatRec>, r: XlatRec) {
    r in s && forall q :: q in s && q.cpVal == r.cpVal ==> r.uniVal <= q.uniVal
  }

  /**
   * Each value in use has more copies of its smallest record than there are missing values before it, for the
   * fillers use them up, and at most two records more than that.
   */
  ghost predicate Fits(s: seq<XlatRec>, cur: nat) {
    forall r :: Smallest(s, r) && cur <= r.cpVal ==>
      Gap(s, cur, r.cpVal) < multiset(s)[r] && Count(s, r.cpVal) <= Gap(s, cur, r.cpVal) + 2
  }

  ghost predicate AllFrom(s: seq<XlatRec>, cur: nat) {
    forall r :: r in s ==> cur <= r.cpVal
  }

  ghost predicate NoFiller(s: seq<XlatRec>) {
    forall r :: r in s ==> r.uniVal != FILLER
  }

  lemma FirstIsSmallest(s: seq<XlatRec>, r: XlatRec)
    requires OrderedFrom(s) && r in s
    ensures s[0].cpVal <= r.cpVal && (s[0].cpVal == r.cpVal ==> s[0].uniVal <= r.uniVal)
  {
    var i :| 0 <= i < |s| && s[i] == r;
    if i > 0 {
      assert CompFrom(s[0], s[i]) <= 0;
    }
  }

  /** What is left after an entry: nothing changes for the other values. */
  lemma AfterMembers(s: seq<XlatRec>)
    requires s != [] && OrderedFrom(s)
    ensures var t := AfterEntry(s);
            && OrderedFrom(t) && |t| < |s| && (forall r :: r in t ==> r in s)
            && (forall r :: r in s && r.cpVal != s[0].cpVal ==> r in t)
  {
    var t := AfterEntry(s);
    var skip := |s| - |t|;
    assert forall i :: 0 <= i < |t| ==> t[i] == s[i + skip];
    forall r | r in s && r.cpVal != s[0].cpVal ensures r in t {
      var i :| 0 <= i < |s| && s[i] == r;
      assert t[i - skip] == r;
    }
  }

  lemma {:induction false} CountPositive(s: seq<XlatRec>, c: nat)
    ensures Count(s, c) > 0 <==> exists r :: r in s && r.cpVal == c
  {
    if s != [] {
      CountPositive(s[1..], c);
      assert s == [s[0]] + s[1..];
      if s[0].cpVal == c {
        assert s[0] in s;
      }
      if r: XlatRec :| r in s[1..] && r.cpVal == c {
        assert r in s;
      }
    }
  }

  /** The counts after an entry: of the other values, the same; of the entry's value, one or two less. */
  lemma AfterCount(s: seq<XlatRec>, c: nat)
    requires s != []
    ensures Count(s, c) == Count(AfterEntry(s), c) + if s[0].cpVal != c then 0 else |s| - |AfterEntry(s)|
  {
    if |s| > 1 && s[1].cpVal == s[0].cpVal {
      assert s[1..][1..] == s[2..];
    }
  }

  lemma AfterMultiset(s: seq<XlatRec>, r: XlatRec)
    requires s != [] && r.cpVal != s[0].cpVal
    ensures multiset(AfterEntry(s))[r] == multiset(s)[r]
  {
    if |s| > 1 && s[1].cpVal == s[0].cpVal {
      assert s == [s[0], s[1]] + s[2..];
    } else {
      assert s == [s[0]] + s[1..];
    }
  }

  /** After an entry, records of its value are left exactly if there were more than two. */
  lemma AtMostTwo(s: seq<XlatRec>, cur: nat)
    requires s != [] && OrderedFrom(s) && AllFrom(s, cur) && cur == s[0].cpVal
    ensures AllFrom(AfterEntry(s), cur + 1) <==> Count(s, cur) <= 2
  {
    var t := AfterEntry(s);
    AfterMembers(s);
    AfterCount(s, cur);
    CountPositive(t, cur);
    if AllFrom(t, cur + 1) {
      assert Count(t, cur) == 0;
    } else {
      NextIsThird(s, cur);
    }
  }

  lemma NextIsThird(s: seq<XlatRec>, cur: nat)
    requires s != [] && OrderedFrom(s) && AllFrom(s, cur) && cur == s[0].cpVal && !AllFrom(AfterEntry(s), cur + 1)
    ensures Count(s, cur) > 2
  {
    var t := AfterEntry(s);
    AfterMembers(s);
    AfterCount(s, cur);
    CountPositive(t, cur);
    var r :| r in t && r.cpVal < cur + 1;
    FirstIsSmallest(t, r);
    assert t[0] in s && t[0].cpVal == cur;
  }

  lemma EntriesMatch(s: seq<XlatRec>, t: seq<XlatRec>, c: nat, v: Unicode)
    requires forall r: XlatRec :: r.cpVal == c ==> (r in s <==> r in t)
    ensures IsEntry(s, c, v) <==> IsEntry(t, c, v)
  {
    if exists r :: r in s && r.cpVal == c {
      var r :| r in s && r.cpVal == c;
      assert r in t;
    }
    if exists r :: r in t && r.cpVal == c {
      var r :| r in t && r.cpVal == c;
      assert r in s;
    }
    if IsEntry(s, c, v) && exists r :: r in s && r.cpVal == c {
      var r :| r in s && r.cpVal == c && r.uniVal == v;
      assert r in t;
    }
    if IsEntry(t, c, v) && exists r :: r in t && r.cpVal == c {
      var r :| r in t && r.cpVal == c && r.uniVal == v;
      assert r in s;
    }
  }

  /** The right table for s is an entry for the first value, then the right table for the others. */
  lemma TableSplits(s: seq<XlatRec>, t: seq<XlatRec>, cur: nat, table: seq<Unicode>)
    requires table != []
    requires AllFrom(s, cur) && AllFrom(t, cur + 1)
    requires forall r: XlatRec :: r.cpVal != cur ==> (r in s <==> r in t)
    ensures IsFromTable(s, cur, table) <==> IsEntry(s, cur, table[0]) && IsFromTable(t, cur + 1, table[1..])
  {
    forall c, v: Unicode | c > cur ensures IsEntry(s, c, v) <==> IsEntry(t, c, v) {
      EntriesMatch(s, t, c, v);
    }
    if IsFromTable(s, cur, table) {
      forall j | 0 <= j < |table[1..]| ensures IsEntry(t, cur + 1 + j, table[1..][j]) {
        assert IsEntry(s, cur + (j + 1), table[j + 1]);
      }
      forall r | r in t ensures r.cpVal - (cur + 1) < |table[1..]| {
        assert r in s;
      }
    }
    if IsEntry(s, cur, table[0]) && IsFromTable(t, cur + 1, table[1..]) {
      forall j | 0 <= j < |table| ensures IsEntry(s, cur + j, table[j]) {
        if j > 0 {
          assert IsEntry(t, cur + 1 + (j - 1), table[1..][j - 1]);
        }
      }
      forall r | r in s ensures r.cpVal - cur < |table| {
        if r.cpVal != cur {
          assert r in t;
        }
      }
    }
  }

  /** A record used up by a filler never appears in the table at its value. */
  lemma {:induction false} LostRecord(t: seq<XlatRec>, cur: nat, lost: XlatRec)
    requires forall r :: r in t ==> CompFrom(lost, r) < 0
    requires cur <= lost.cpVal && lost.uniVal != FILLER
    requires Emit(t, cur).Some? && lost.cpVal - cur < |Emit(t, cur).value|
    ensures Emit(t, cur).value[lost.cpVal - cur] != lost.uniVal
    decreases |t|
  {
    var rest := if cur == t[0].cpVal then AfterEntry(t) else t[1..];
    assert forall r :: r in rest ==> r in t;
    assert t[0] in t;
    if cur < lost.cpVal {
      LostRecord(rest, cur + 1, lost);
    }
  }

  /** The entries printed for s, from value cur, are the right table for these records. */
  ghost predicate Right(s: seq<XlatRec>, cur: nat, records: seq<XlatRec>) {
    Emit(s, cur).Some? && IsFromTable(records, cur, Emit(s, cur).value)
  }

  /** Nothing about the values after an entry changes. */
  lemma {:induction false} GapAfterEntry(s: seq<XlatRec>, cur: nat, c: nat)
    requires s != [] && cur == s[0].cpVal && cur < c
    ensures Gap(s, cur, c) == Gap(AfterEntry(s), cur + 1, c)
    decreases c
  {
    AfterCount(s, c - 1);
    if c == cur + 1 {
      CountPositive(s, cur);
      assert s[0] in s;
    } else {
      GapAfterEntry(s, cur, c - 1);
    }
  }

  lemma SmallestAfter(s: seq<XlatRec>, r: XlatRec)
    requires s != [] && OrderedFrom(s) && r.cpVal != s[0].cpVal
    ensures Smallest(s, r) <==> Smallest(AfterEntry(s), r)
  {
    AfterMembers(s);
  }

  lemma FitsAfterEntry(s: seq<XlatRec>, cur: nat)
    requires s != [] && OrderedFrom(s) && AllFrom(s, cur) && cur == s[0].cpVal
    ensures Fits(s, cur) <==> Count(s, cur) <= 2 && Fits(AfterEntry(s), cur + 1)
  {
    hide OrderedFrom, AfterEntry, Count, Gap, Smallest;
    var t := AfterEntry(s);
    forall r: XlatRec | r.cpVal > cur
      ensures Smallest(s, r) <==> Smallest(t, r)
      ensures multiset(s)[r] == multiset(t)[r] && Count(s, r.cpVal) == Count(t, r.cpVal)
      ensures Gap(s, cur, r.cpVal) == Gap(t, cur + 1, r.cpVal)
    {
      SmallestAfter(s, r);
      AfterMultiset(s, r);
      AfterCount(s, r.cpVal);
      GapAfterEntry(s, cur, r.cpVal);
    }
    FirstHasNoGap(s, cur);
    if Fits(s, cur) {
      assert Smallest(s, s[0]);
    }
  }

  lemma FirstHasNoGap(s: seq<XlatRec>, cur: nat)
    requires s != [] && OrderedFrom(s) && cur == s[0].cpVal
    ensures Gap(s, cur, cur) == 0 && Smallest(s, s[0])
    ensures forall r :: r in s ==> multiset(s)[r] > 0
    ensures forall r :: Smallest(s, r) ==> r in s
  {
    forall r | r in s ensures s[0].cpVal == r.cpVal ==> s[0].uniVal <= r.uniVal {
      FirstIsSmallest(s, r);
    }
  }

  /** A filler that uses up a copy. */
  predicate Doubled(s: seq<XlatRec>) { |s| > 1 && s[1] == s[0] }

  lemma {:induction false} GapOfFirst(s: seq<XlatRec>, cur: nat, c: nat)
    requires s != [] && OrderedFrom(s) && cur <= c <= s[0].cpVal
    ensures Gap(s, cur, c) == c - cur
    decreases c
  {
    if cur < c {
      CountPositive(s, c - 1);
      if r: XlatRec :| r in s && r.cpVal == c - 1 {
        FirstIsSmallest(s, r);
      }
      GapOfFirst(s, cur, c - 1);
    }
  }

  lemma {:induction false} GapAfterFiller(s: seq<XlatRec>, cur: nat, c: nat)
    requires Doubled(s) && OrderedFrom(s) && cur < s[0].cpVal < c
    ensures Gap(s, cur, c) == Gap(s[1..], cur + 1, c)
    decreases c
  {
    CountPositive(s, c - 1);
    CountPositive(s[1..], c - 1);
    assert s[0] in s && s[1..][0] == s[0];
    if c - 1 > s[0].cpVal {
      GapAfterFiller(s, cur, c - 1);
    }
  }

  lemma SameWithoutCopy(s: seq<XlatRec>)
    requires Doubled(s)
    ensures forall r :: r in s <==> r in s[1..]
    ensures forall r :: multiset(s)[r] == multiset(s[1..])[r] + if r == s[0] then 1 else 0
  {
    assert s == [s[0]] + s[1..] && s[1..][0] == s[0];
  }

  lemma FitsAfterFiller(s: seq<XlatRec>, cur: nat)
    requires Doubled(s) && OrderedFrom(s) && cur < s[0].cpVal
    ensures Fits(s, cur) <==> Fits(s[1..], cur + 1)
  {
    hide OrderedFrom, Gap;
    var t := s[1..];
    SameWithoutCopy(s);
    OrderedTail(s);
    GapOfFirst(s, cur, s[0].cpVal);
    GapOfFirst(t, cur + 1, s[0].cpVal);
    forall r: XlatRec | r.cpVal > s[0].cpVal ensures Gap(s, cur, r.cpVal) == Gap(t, cur + 1, r.cpVal) {
      GapAfterFiller(s, cur, r.cpVal);
    }
    forall r | Smallest(s, r) ensures r.cpVal >= s[0].cpVal && (r.cpVal == s[0].cpVal ==> r == s[0]) {
      FirstIsSmallest(s, r);
      assert s[0] in s;
    }
    forall r: XlatRec ensures Smallest(s, r) <==> Smallest(t, r) {
    }
  }

  lemma OrderedTail(s: seq<XlatRec>)
    requires s != [] && OrderedFrom(s)
    ensures OrderedFrom(s[1..])
  {
  }

  /** Without a copy to use up, a filler makes the table unfit. */
  lemma UnfitGap(s: seq<XlatRec>, cur: nat)
    requires s != [] && OrderedFrom(s) && cur < s[0].cpVal && !Doubled(s)
    ensures !Fits(s, cur)
  {
    var r := s[0];
    GapOfFirst(s, cur, r.cpVal);
    FirstHasNoGap(s, r.cpVal);
    FirstOnce(s);
    assert Smallest(s, r);
  }

  lemma FirstOnce(s: seq<XlatRec>)
    requires s != [] && OrderedFrom(s) && !Doubled(s)
    ensures multiset(s)[s[0]] == 1 && forall r :: r in s[1..] ==> CompFrom(s[0], r) < 0
  {
    var t := s[1..];
    assert s == [s[0]] + t;
    forall r | r in t ensures CompFrom(s[0], r) < 0 {
      var i :| 0 <= i < |t| && t[i] == r;
      assert CompFrom(s[0], s[1]) <= 0 && s[1] != s[0];
      assert i > 0 ==> CompFrom(s[1], s[i + 1]) <= 0;
    }
    assert s[0] !in t;
  }

  /** The emission meets its purpose exactly on the tables that fit. */
  lemma {:induction false} EmitIff(s: seq<XlatRec>, cur: nat)
    requires OrderedFrom(s) && AllFrom(s, cur)
    ensures Fits(s, cur) ==> Right(s, cur, s)
    ensures NoFiller(s) && Right(s, cur, s) ==> Fits(s, cur)
    decreases |s|
  {
    hide OrderedFrom, Fits, Right, AfterEntry;
    if s == [] {
      NothingToEmit(cur);
    } else if s[0].cpVal == cur {
      EmitEntryIff(s, cur);
    } else {
      assert s[0] in s;
      EmitFillerIff(s, cur);
    }
  }

  lemma NothingToEmit(cur: nat)
    ensures Fits([], cur) && Right([], cur, [])
  {
  }

  lemma {:induction false} EmitEntryIff(s: seq<XlatRec>, cur: nat)
    requires s != [] && OrderedFrom(s) && AllFrom(s, cur) && s[0].cpVal == cur
    ensures Fits(s, cur) ==> Right(s, cur, s)
    ensures NoFiller(s) && Right(s, cur, s) ==> Fits(s, cur)
    decreases |s|, 0
  {
    hide OrderedFrom, Fits, Right, AfterEntry, Count;
    var t := AfterEntry(s);
    AfterMembers(s);
    AtMostTwo(s, cur);
    FitsAfterEntry(s, cur);
    if AllFrom(t, cur + 1) {
      EmitIff(t, cur + 1);
      RestDecides(s, t, cur);
    } else {
      ThirdRecordStops(s, cur);
    }
  }

  lemma RestDecides(s: seq<XlatRec>, t: seq<XlatRec>, cur: nat)
    requires s != [] && OrderedFrom(s) && AllFrom(s, cur) && s[0].cpVal == cur && t == AfterEntry(s)
    requires AllFrom(t, cur + 1)
    ensures Right(s, cur, s) <==> Right(t, cur + 1, t)
  {
    hide IsFromTable, IsEntry, OrderedFrom;
    AfterMembers(s);
    assert s[0] in s;
    FirstEntry(s, cur);
    if Emit(t, cur + 1).Some? {
      TableSplits(s, t, cur, Emit(s, cur).value);
      assert Emit(s, cur).value[1..] == Emit(t, cur + 1).value;
    }
  }

  lemma FirstEntry(s: seq<XlatRec>, cur: nat)
    requires s != [] && OrderedFrom(s) && s[0].cpVal == cur
    ensures IsEntry(s, cur, s[0].uniVal)
  {
    assert s[0] in s;
    forall r | r in s && r.cpVal == cur ensures s[0].uniVal <= r.uniVal {
      FirstIsSmallest(s, r);
    }
  }

  lemma ThirdRecordStops(s: seq<XlatRec>, cur: nat)
    requires s != [] && OrderedFrom(s) && s[0].cpVal == cur && !AllFrom(AfterEntry(s), cur + 1)
    ensures !Right(s, cur, s)
  {
    hide AfterEntry, OrderedFrom, IsFromTable;
    AfterMembers(s);
    Stops(AfterEntry(s), cur + 1);
  }

  lemma Stops(t: seq<XlatRec>, cur: nat)
    requires OrderedFrom(t) && !AllFrom(t, cur)
    ensures Emit(t, cur).None?
  {
    var r :| r in t && r.cpVal < cur;
    FirstIsSmallest(t, r);
  }

  lemma {:induction false} EmitFillerIff(s: seq<XlatRec>, cur: nat)
    requires s != [] && OrderedFrom(s) && AllFrom(s, cur) && s[0].cpVal > cur
    ensures Fits(s, cur) ==> Right(s, cur, s)
    ensures NoFiller(s) && Right(s, cur, s) ==> Fits(s, cur)
    decreases |s|, 0
  {
    hide OrderedFrom, Fits, Right;
    if Doubled(s) {
      OrderedTail(s);
      SameWithoutCopy(s);
      TailFrom(s, cur);
      EmitIff(s[1..], cur + 1);
      FitsAfterFiller(s, cur);
      FillerDecides(s, cur);
    } else {
      UnfitGap(s, cur);
      if NoFiller(s) && Right(s, cur, s) {
        GapLosesRecord(s, cur);
      }
    }
  }

  lemma TailFrom(s: seq<XlatRec>, cur: nat)
    requires s != [] && OrderedFrom(s) && s[0].cpVal > cur
    ensures AllFrom(s[1..], cur + 1) && AllFrom(s, cur + 1)
  {
    forall r | r in s ensures cur + 1 <= r.cpVal {
      FirstIsSmallest(s, r);
    }
  }

  lemma FillerDecides(s: seq<XlatRec>, cur: nat)
    requires Doubled(s) && OrderedFrom(s) && s[0].cpVal > cur
    ensures Right(s, cur, s) <==> Right(s[1..], cur + 1, s[1..])
  {
    hide IsFromTable, IsEntry, OrderedFrom;
    var t := s[1..];
    SameWithoutCopy(s);
    TailFrom(s, cur);
    NoEntryBelow(s, cur);
    if Emit(t, cur + 1).Some? {
      TableSplits(s, t, cur, Emit(s, cur).value);
      assert Emit(s, cur).value[1..] == Emit(t, cur + 1).value;
    }
  }

  lemma NoEntryBelow(s: seq<XlatRec>, cur: nat)
    requires AllFrom(s, cur + 1)
    ensures AllFrom(s, cur) && IsEntry(s, cur, FILLER)
  {
  }

  lemma GapLosesRecord(s: seq<XlatRec>, cur: nat)
    requires s != [] && OrderedFrom(s) && NoFiller(s) && s[0].cpVal > cur && !Doubled(s)
    ensures !Right(s, cur, s)
  {
    assert s[0] in s;
    FirstOnce(s);
    var k := s[0].cpVal - cur;
    FirstEntry(s, cur + k);
    if Right(s, cur, s) {
      var table := Emit(s, cur).value;
      assert IsEntry(s, cur + k, table[k]);
      assert table[k] == Emit(s[1..], cur + 1).value[k - 1];
      LostRecord(s[1..], cur + 1, s[0]);
    }
  }

  /** Records may be listed in any order. */
  lemma {:induction false} CountPermuted(s: seq<XlatRec>, t: seq<XlatRec>, c: nat)
    requires multiset(s) == multiset(t)
    ensures Count(s, c) == Count(t, c)
    decreases |s|
  {
    SameMembers(s, t);
    if s != [] {
      assert s[0] in t;
      var k :| 0 <= k < |t| && t[k] == s[0];
      WithoutOne(s, t, k);
      CountPermuted(s[1..], t[..k] + t[k + 1..], c);
      CountJoined(t[..k], t[k + 1..], c);
      CountFrom(t, k, c);
    }
  }

  lemma WithoutOne(s: seq<XlatRec>, t: seq<XlatRec>, k: nat)
    requires s != [] && k < |t| && t[k] == s[0] && multiset(s) == multiset(t)
    ensures multiset(s[1..]) == multiset(t[..k] + t[k + 1..])
  {
    assert s == [s[0]] + s[1..] && t == t[..k] + [t[k]] + t[k + 1..];
    assert multiset(s) == multiset([s[0]]) + multiset(s[1..]);
    assert multiset(t) == multiset(t[..k]) + multiset([t[k]]) + multiset(t[k + 1..]);
    assert multiset(t[..k] + t[k + 1..]) == multiset(t) - multiset([t[k]]);
    assert multiset(s[1..]) == multiset(s) - multiset([s[0]]);
  }

  lemma CountFrom(t: seq<XlatRec>, k: nat, c: nat)
    requires k < |t|
    ensures Count(t, c) == Count(t[..k], c) + Count(t[k + 1..], c) + if t[k].cpVal == c then 1 else 0
  {
    CountJoined(t[..k], t[k..], c);
    assert t == t[..k] + t[k..] && t[k..][1..] == t[k + 1..];
  }

  lemma {:induction false} CountJoined(a: seq<XlatRec>, b: seq<XlatRec>, c: nat)
    ensures Count(a + b, c) == Count(a, c) + Count(b, c)
  {
    if a == [] {
      assert a + b == b;
    } else {
      CountJoined(a[1..], b, c);
      assert (a + b)[1..] == a[1..] + b;
    }
  }

  lemma {:induction false} GapPermuted(s: seq<XlatRec>, t: seq<XlatRec>, cur: nat, c: nat)
    requires multiset(s) == multiset(t) && cur <= c
    ensures Gap(s, cur, c) == Gap(t, cur, c)
    decreases c
  {
    if cur < c {
      CountPermuted(s, t, c - 1);
      GapPermuted(s, t, cur, c - 1);
    }
  }

  lemma FitsPermuted(s: seq<XlatRec>, t: seq<XlatRec>, cur: nat)
    requires multiset(s) == multiset(t) && Fits(s, cur)
    ensures Fits(t, cur)
  {
    hide Gap, Count;
    SameMembers(s, t);
    forall r | Smallest(t, r) && cur <= r.cpVal
      ensures Gap(t, cur, r.cpVal) < multiset(t)[r] && Count(t, r.cpVal) <= Gap(t, cur, r.cpVal) + 2
    {
      assert Smallest(s, r);
      GapPermuted(s, t, cur, r.cpVal);
      CountPermuted(s, t, r.cpVal);
    }
  }

  /**
   * The program prints the right "from" table if the records fit, and otherwise it does not, unless a record
   * for U+FFFF looks like a filler. Records may repeat.
   */
  lemma FromTableIff(s: seq<XlatRec>, records: seq<XlatRec>)
    requires OrderedFrom(s) && multiset(s) == multiset(records)
    ensures Fits(records, 0) ==> Right(s, 0, records)
    ensures NoFiller(records) ==> (Right(s, 0, records) <==> Fits(records, 0))
  {
    hide OrderedFrom, Fits;
    SameMembers(s, records);
    EmitIff(s, 0);
    forall c: nat, v: Unicode ensures IsEntry(s, c, v) <==> IsEntry(records, c, v) {
      EntriesMatch(s, records, c, v);
    }
    if Fits(s, 0) { FitsPermuted(s, records, 0); }
    if Fits(records, 0) { FitsPermuted(records, s, 0); }
  }

  /** Records fit when every value up to the largest in use occurs once or twice, ... */
  lemma GapFreeFits(s: seq<XlatRec>, cur: nat)
    requires GapFree(s, cur)
    ensures Fits(s, cur)
  {
    hide Count;
    forall r | Smallest(s, r) && cur <= r.cpVal
      ensures Gap(s, cur, r.cpVal) < multiset(s)[r] && Count(s, r.cpVal) <= Gap(s, cur, r.cpVal) + 2
    {
      assert r.cpVal > cur ==> 1 <= Count(s, r.cpVal - 1);
      assert 1 <= Count(s, r.cpVal) <= 2;
    }
  }

  /** ... and only then if no record repeats. */
  lemma FitsIffGapFree(s: seq<XlatRec>)
    requires NoRepeats(s)
    ensures Fits(s, 0) <==> GapFree(s, 0)
  {
    if GapFree(s, 0) {
      GapFreeFits(s, 0);
    }
    if Fits(s, 0) {
      forall r, c | r in s && 0 <= c <= r.cpVal ensures 1 <= Count(s, c) <= 2 {
        NoGapBelow(s, r, c);
      }
    }
  }

  lemma {:induction false} SmallestExists(s: seq<XlatRec>, r: XlatRec)
    requires r in s
    ensures exists q :: Smallest(s, q) && q.cpVal == r.cpVal
    decreases r.uniVal
  {
    if q: XlatRec :| q in s && q.cpVal == r.cpVal && q.uniVal < r.uniVal {
      SmallestExists(s, q);
    } else {
      assert Smallest(s, r);
    }
  }

  lemma {:induction false} NoGapBelow(s: seq<XlatRec>, r: XlatRec, c: nat)
    requires NoRepeats(s) && Fits(s, 0) && r in s && c <= r.cpVal
    ensures 1 <= Count(s, c) <= 2
    decreases r.cpVal
  {
    hide NoRepeats, Fits, Count;
    NoGapHere(s, r);
    if c < r.cpVal {
      CountPositive(s, r.cpVal - 1);
      var p :| p in s && p.cpVal == r.cpVal - 1;
      NoGapBelow(s, p, c);
    }
  }

  lemma NoGapHere(s: seq<XlatRec>, r: XlatRec)
    requires NoRepeats(s) && Fits(s, 0) && r in s
    ensures 1 <= Count(s, r.cpVal) <= 2 && (r.cpVal > 0 ==> Count(s, r.cpVal - 1) > 0)
  {
    hide NoRepeats, Smallest, Count;
    NoRepeatsCount(s);
    SmallestExists(s, r);
    var q :| Smallest(s, q) && q.cpVal == r.cpVal;
    assert multiset(s)[q] <= 1;
    CountPositive(s, r.cpVal);
  }

  /** A gap may be filled by a copy, and two copies count as two records. */
  lemma CopiesFillGaps()
    ensures Emit([XlatRec(0x20, 0), XlatRec(0x20, 0)], 0) == Some([0x20])
    ensures Emit([XlatRec(0x20, 0), XlatRec(0x41, 2), XlatRec(0x41, 2)], 0) == Some([0x20, FILLER, 0x41])
  {
    var s := [XlatRec(0x20, 0), XlatRec(0x41, 2), XlatRec(0x41, 2)];
    var two, one := [XlatRec(0x41, 2), XlatRec(0x41, 2)], [XlatRec(0x41, 2)];
    assert AfterEntry([XlatRec(0x20, 0), XlatRec(0x20, 0)]) == [] && [0x20] + [] == [0x20];
    assert AfterEntry(s) == two && two[1..] == one && AfterEntry(one) == [] && [0x41] + [] == [0x41];
    assert Emit(one, 2) == Some([0x41]);
    assert [FILLER] + [0x41] == [FILLER, 0x41] && [0x20] + [FILLER, 0x41] == [0x20, FILLER, 0x41];
    assert Emit(two, 1) == Entry(FILLER, Emit(one, 2));
  }

  const GAP := [XlatRec(0x20, 0), XlatRec(0x41, 2)]

  const TRIPLE := [XlatRec(0x20, 0), XlatRec(0x21, 0), XlatRec(0x22, 0)]

  /** With a gap the record behind it is lost; with three records of one value there is no table. */
  lemma GapAndTriple()
    ensures Emit(GAP, 0) == Some([0x20, FILLER]) && !Fits(GAP, 0) && !Right(GAP, 0, GAP)
    ensures Emit(TRIPLE, 0) == None && !Fits(TRIPLE, 0) && !Right(TRIPLE, 0, TRIPLE)
  {
    hide Emit, Fits;
    EmitGap();
    EmitTriple();
    assert GAP[1] in GAP;
    FromTableIff(GAP, GAP);
    FromTableIff(TRIPLE, TRIPLE);
  }

  lemma EmitGap()
    ensures Emit(GAP, 0) == Some([0x20, FILLER])
  {
    var one := [XlatRec(0x41, 2)];
    assert AfterEntry(GAP) == one && one[1..] == [] && [FILLER] + [] == [FILLER] && [0x20] + [FILLER] == [0x20, FILLER];
    assert Emit(one, 1) == Entry(FILLER, Emit([], 2));
  }

  lemma EmitTriple()
    ensures Emit(TRIPLE, 0) == None
  {
    assert AfterEntry(TRIPLE) == [XlatRec(0x22, 0)];
  }

  lemma SameMembers(s: seq<XlatRec>, t: seq<XlatRec>)
    requires multiset(s) == multiset(t)
    ensures |s| == |t| && forall r :: r in s <==> r in t
  {
    assert |multiset(s)| == |multiset(t)|;
    forall r ensures r in s <==> r in t {
      assert r in s <==> r in multiset(s);
      assert r in t <==> r in multiset(t);
    }
  }

  /** When the records fit, the table has an entry for every value up to the largest in use. */
  lemma {:induction false} EntryCount(s: seq<XlatRec>, cur: nat)
    requires OrderedFrom(s) && AllFrom(s, cur) && Fits(s, cur)
    ensures Emit(s, cur).Some?
    ensures |Emit(s, cur).value| == if s == [] then 0 else s[|s| - 1].cpVal - cur + 1
    decreases |s|
  {
    hide OrderedFrom, Fits;
    if s != [] {
      assert s[0] in s;
      if s[0].cpVal == cur {
        RestFits(s, cur);
        EntryCount(AfterEntry(s), cur + 1);
      } else {
        if !Doubled(s) { UnfitGap(s, cur); }
        FitsAfterFiller(s, cur);
        OrderedTail(s);
        TailFrom(s, cur);
        EntryCount(s[1..], cur + 1);
      }
    }
  }

  lemma RestFits(s: seq<XlatRec>, cur: nat)
    requires s != [] && OrderedFrom(s) && AllFrom(s, cur) && Fits(s, cur) && s[0].cpVal == cur
    ensures var t := AfterEntry(s);
            && OrderedFrom(t) && AllFrom(t, cur + 1) && Fits(t, cur + 1)
            && if t == [] then s[|s| - 1].cpVal == cur else t[|t| - 1] == s[|s| - 1]
  {
    hide OrderedFrom, Fits, Count;
    AfterMembers(s);
    FitsAfterEntry(s, cur);
    AtMostTwo(s, cur);
  }

  ghost predicate NoRepeats(s: seq<XlatRec>) {
    forall i, j :: 0 <= i < j < |s| ==> s[i] != s[j]
  }

  lemma {:induction false} NoRepeatsCount(s: seq<XlatRec>)
    ensures NoRepeats(s) <==> forall r :: multiset(s)[r] <= 1
    decreases |s|
  {
    if s != [] {
      var front, last := s[..|s| - 1], s[|s| - 1];
      assert s == front + [last];
      NoRepeatsCount(front);
      assert forall r :: multiset(s)[r] == multiset(front)[r] + if r == last then 1 else 0;
      assert last in front <==> last in multiset(front);
    }
  }

  // -------------------------------------------------------------------------
  //  Sorting
  // -------------------------------------------------------------------------

  predicate Before(byCode: bool, a: XlatRec, b: XlatRec) {
    (if byCode then CompFrom(a, b) else CompTo(a, b)) <= 0
  }

  ghost predicate Ordered(byCode: bool, s: seq<XlatRec>) {
    forall i, j :: 0 <= i < j < |s| ==> Before(byCode, s[i], s[j])
  }

  function Insert(byCode: bool, s: seq<XlatRec>, r: XlatRec): (t: seq<XlatRec>)
    ensures multiset(t) == multiset(s) + multiset([r])
  {
    if s == [] || Before(byCode, r, s[0]) then
      [r] + s
    else
      assert s == [s[0]] + s[1..];
      [s[0]] + Insert(byCode, s[1..], r)
  }

  lemma {:induction false} InsertOrdered(byCode: bool, s: seq<XlatRec>, r: XlatRec)
    requires Ordered(byCode, s)
    ensures Ordered(byCode, Insert(byCode, s, r))
  {
    if s != [] && !Before(byCode, r, s[0]) {
      InsertOrdered(byCode, s[1..], r);
      var rest := Insert(byCode, s[1..], r);
      forall x | x in rest ensures Before(byCode, s[0], x) {
        assert x in multiset(rest);
        assert x in s[1..] || x == r;
      }
    }
  }

  /** Stands for the library's qsort on the first records of the table. */
  method SortRecords(table: array<XlatRec>, size: nat, byCode: bool)
    requires size <= table.Length
    modifies table
    ensures Ordered(byCode, table[..size]) && multiset(table[..size]) == multiset(old(table[..size]))
    ensures table[size..] == old(table[size..])
  {
    var s := [];
    for i := 0 to size
      invariant table[..] == old(table[..])
      invariant Ordered(byCode, s) && multiset(s) == multiset(table[..i]) && |s| == i
    {
      InsertOrdered(byCode, s, table[i]);
      s := Insert(byCode, s, table[i]);
      assert table[..i + 1] == table[..i] + [table[i]];
      assert |multiset(s)| == |s|;
    }
    assert table[..size] == old(table[..size]) && table[size..] == old(table[size..]);
    forall i | 0 <= i < size {
      table[i] := s[i];
    }
    assert table[..size] == s;
  }
}
