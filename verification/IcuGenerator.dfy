/**
 * The table generator: it fills its record table from the lines of a UCM file and prints the two tables.
 * Printed tables are kept as their entries; the layout of the C++ text is not modelled.
 */
module IcuGenerator {
  import opened CStrings
  import opened Options
  import opened IcuTables
  import opened IcuText
  import opened IcuLoading
  import opened IcuFiles
  import opened IcuLookup

  const LINE_SIZE := 2047

  /** The buffer holds this string and its terminator. */
  ghost predicate Holds(buf: array<char>, s: string)
    reads buf
  {
    |s| < buf.Length && buf[..|s|] == s && buf[|s|] == NUL
  }

  /** The lines fit the line buffer and hold no terminator. */
  predicate Storable(lines: seq<string>) {
    forall i :: 0 <= i < |lines| ==> |lines[i]| < LINE_SIZE && NUL !in lines[i]
  }

  method LengthOf(buf: array<char>, ghost s: string) returns (n: nat)
    requires Holds(buf, s) && NUL !in s
    ensures n == |s|
  {
    n := StringLength(buf);
    assert forall k :: 0 <= k < |s| ==> buf[k] == buf[..|s|][k] == s[k];
  }

  method ReadLine(line: string, buf: array<char>)
    requires |line| < buf.Length
    modifies buf
    ensures Holds(buf, line)
  {
    for i := 0 to |line|
      invariant buf[..i] == line[..i]
    {
      buf[i] := line[i];
    }
    buf[|line|] := NUL;
    assert buf[..|line|] == line;
  }

  /** Ends the text at its first comment sign. */
  method CutComment(buf: array<char>, ghost line: string)
    requires Holds(buf, line) && NUL !in line
    modifies buf
    ensures Holds(buf, BeforeComment(line))
  {
    ghost var text := BeforeComment(line);
    var endPtr := 0;
    while buf[endPtr] != NUL && buf[endPtr] != '#'
      invariant endPtr <= |text|
      decreases |line| - endPtr
    {
      assert buf[endPtr] == buf[..|line|][endPtr] == line[endPtr];
      endPtr := endPtr + 1;
    }
    if buf[endPtr] == '#' {
      buf[endPtr] := NUL;
    }
  }

  /** Ends the text after its last character that is not white space; there is one. */
  method CutSpaces(buf: array<char>, ghost text: string)
    requires Holds(buf, text) && NUL !in text && TrimRight(text) != ""
    modifies buf
    ensures Holds(buf, TrimRight(text))
  {
    ghost var kept := TrimRight(text);
    var n := LengthOf(buf, text);
    var endPtr := n - 1;
    while IsSpace(buf[endPtr])
      invariant |kept| - 1 <= endPtr < |text|
      decreases endPtr
    {
      assert buf[endPtr] == buf[..|text|][endPtr] == text[endPtr];
      endPtr := endPtr - 1;
    }
    assert buf[endPtr] == buf[..|text|][endPtr] == text[endPtr];
    buf[endPtr + 1] := NUL;
  }

  /** The characters up to the terminator. */
  method TextOf(buf: array<char>, ghost s: string) returns (text: string)
    requires Holds(buf, s) && NUL !in s
    ensures text == s
  {
    var n := LengthOf(buf, s);
    text := buf[..n];
  }

  class Generator {
    var inFile: seq<string>
    var lineNum: nat
    const mainTable: array<XlatRec>
    var tableSize: nat
    var maxChar: nat
    var minChar: nat
    var repChar: Byte
    /** The entries of the two tables printed, and the size printed after them. */
    var fromTable: seq<Unicode>
    var toTable: seq<XlatRec>
    var toTableSize: nat

    ghost predicate Valid()
      reads this
    {
      mainTable.Length == MAX_RECORDS && tableSize <= MAX_RECORDS
    }

    ghost function Records(): seq<XlatRec>
      requires Valid()
      reads this, mainTable
    {
      mainTable[..tableSize]
    }

    constructor (lines: seq<string>)
      ensures Valid() && fresh(mainTable) && Records() == [] && inFile == lines
      ensures maxChar == 0 && minChar == 0 && repChar == 1
    {
      inFile, lineNum := lines, 0;
      mainTable := new XlatRec[MAX_RECORDS](_ => XlatRec(0, 0));
      tableSize, maxChar, minChar, repChar := 0, 0, 0, 1;
      fromTable, toTable, toTableSize := [], [], 0;
    }

    /** The two tables are those of the records. */
    ghost predicate RightTables(records: seq<XlatRec>)
      reads this
    {
      && IsFromTable(records, 0, fromTable)
      && (fromTable != [] ==> exists r :: r in records && r.cpVal == |fromTable| - 1)
      && multiset(toTable) == multiset(records) && toTableSize == |toTable|
      && (forall i, j :: 0 <= i < j < |toTable| ==> toTable[i].uniVal <= toTable[j].uniVal)
      && (DistinctChars(records) ==> Increasing(toTable))
    }

    // -----------------------------------------------------------------------
    //  Loading
    // -----------------------------------------------------------------------

    /** Leaves the next line that is not a comment in the buffer, cleaned; its length. */
    method GetLine(toFill: array<char>) returns (n: nat)
      requires Valid() && toFill.Length == LINE_SIZE && Storable(inFile) && NextLine(inFile).Line?
      modifies toFill, this`inFile, this`lineNum
      ensures Valid() && Storable(inFile) && inFile == NextLine(old(inFile)).rest
      ensures Holds(toFill, NextLine(old(inFile)).text) && NUL !in NextLine(old(inFile)).text
      ensures n == |NextLine(old(inFile)).text| && n > 0
      ensures lineNum - old(lineNum) == |old(inFile)| - |inFile|
    {
      ghost var line := "";
      var isComment := true;
      while isComment
        invariant isComment ==> NextLine(inFile) == NextLine(old(inFile))
        invariant Valid() && Storable(inFile)
        invariant !isComment ==> Clean(line) != "" && NextLine(old(inFile)) == Line(Clean(line), inFile)
        invariant !isComment ==> Holds(toFill, line) && NUL !in line
        invariant lineNum - old(lineNum) == |old(inFile)| - |inFile|
        decreases |inFile|, isComment
      {
        line := inFile[0];
        ReadLine(inFile[0], toFill);
        inFile := inFile[1..];
        lineNum := lineNum + 1;
        FirstChar(toFill, line);
        isComment := toFill[0] == '#';
      }
      CutComment(toFill, line);
      CutSpaces(toFill, BeforeComment(line));
      n := LengthOf(toFill, Clean(line));
    }

    static lemma FirstChar(buf: array<char>, s: string)
      requires Holds(buf, s) && NUL !in s
      ensures buf[0] == '#' <==> s != "" && s[0] == '#'
    {
      if s != "" {
        assert buf[..|s|][0] == s[0];
      }
    }

    method ReadHeader(tmpBuf: array<char>) returns (ok: bool)
      requires Valid() && tmpBuf.Length == LINE_SIZE && Storable(inFile)
      requires !LoadHeader(inFile, Header(maxChar, minChar, repChar)).Stuck?
      modifies tmpBuf, this`inFile, this`lineNum, this`maxChar, this`minChar, this`repChar
      ensures Valid() && Storable(inFile)
      ensures var r := LoadHeader(old(inFile), old(Header(maxChar, minChar, repChar)));
              && ok == r.Done?
              && (ok ==> Header(maxChar, minChar, repChar) == r.value && inFile == r.rest)
    {
      ghost var whole := LoadHeader(inFile, Header(maxChar, minChar, repChar));
      ok := true;
      var more := true;
      while more
        invariant Valid() && Storable(inFile)
        invariant more ==> ok && LoadHeader(inFile, Header(maxChar, minChar, repChar)) == whole
        invariant !more && ok ==> whole == Done(Header(maxChar, minChar, repChar), inFile)
        invariant !ok ==> whole.Exit?
        decreases more, |inFile|
      {
        NextLineShrinks(inFile);
        ghost var text := NextLine(inFile).text;
        var n := GetLine(tmpBuf);
        var line := TextOf(tmpBuf, text);
        if line == "CHARMAP" {
          more := false;
        } else {
          ok := ReadHeaderLine(line);
          more := ok;
        }
      }
    }

    /** Stores the value a header line sets; false where the program exits. */
    method ReadHeaderLine(line: string) returns (ok: bool)
      requires Valid() && !HeaderLine(Header(maxChar, minChar, repChar), line).Stuck?
      modifies this`maxChar, this`minChar, this`repChar
      ensures Valid()
      ensures var r := HeaderLine(old(Header(maxChar, minChar, repChar)), line);
              ok == r.Done? && (ok ==> Header(maxChar, minChar, repChar) == r.value)
    {
      ok := true;
      if MAX_TAG <= line {
        var v := ParseNumber(line[|MAX_TAG|..]);
        if v.Done? { maxChar := v.value; } else { ok := false; }
      } else if MIN_TAG <= line {
        var v := ParseNumber(line[|MIN_TAG|..]);
        if v.Done? { minChar := v.value; } else { ok := false; }
      } else if SUB_TAG <= line {
        var v := ParseNumber(line[|SUB_TAG|..]);
        if v.Done? { repChar := v.value % 0x100; } else { ok := false; }
      }
    }

    /** The part of a line of the character map that makes a record; None where the program exits. */
    method ReadEntry(line: string) returns (r: Option<XlatRec>)
      requires !ParseEntry(line).Stuck?
      ensures r == if ParseEntry(line).Done? then Some(ParseEntry(line).value) else None
    {
      if |line| < 12 || line[0] != '<' || line[1] != 'U' || line[6] != '>' {
        return None;
      }
      var uni := Strtoul(line[2..6], Hex);
      if uni.consumed < 4 {
        return None;
      }
      var srcPtr := 7;
      while srcPtr < |line| && line[srcPtr] != '\\'
        invariant 7 <= srcPtr <= |line| && Backslash(line, srcPtr) == Backslash(line, 7)
      {
        srcPtr := srcPtr + 1;
      }
      if srcPtr == |line| {
        return None;
      }
      srcPtr := srcPtr + 2;
      var cp := Strtoul(line[srcPtr..], Hex);
      if srcPtr + cp.consumed < |line| {
        return None;
      }
      var uniVal, cpVal := uni.value % UINT_LIMIT, cp.value % UINT_LIMIT;
      if uniVal > 0xFFFF || cpVal > 0xFF {
        return None;
      }
      return Some(XlatRec(uniVal, cpVal));
    }

    method ReadRecords(tmpBuf: array<char>) returns (ok: bool)
      requires Valid() && tmpBuf.Length == LINE_SIZE && Storable(inFile)
      requires !LoadRecords(inFile, Records()).Stuck?
      modifies tmpBuf, mainTable, this`inFile, this`lineNum, this`tableSize
      ensures Valid() && Storable(inFile)
      ensures var r := LoadRecords(old(inFile), old(Records()));
              ok == r.Done? && (ok ==> Records() == r.value && inFile == r.rest)
    {
      ghost var whole := LoadRecords(inFile, Records());
      ok := true;
      var more := true;
      while more
        invariant Valid() && Storable(inFile)
        invariant more ==> ok && LoadRecords(inFile, Records()) == whole
        invariant !more && ok ==> whole == Done(Records(), inFile)
        invariant !ok ==> whole.Exit?
        decreases more, |inFile|
      {
        NextLineShrinks(inFile);
        ghost var text := NextLine(inFile).text;
        var n := GetLine(tmpBuf);
        var line := TextOf(tmpBuf, text);
        if line == "END CHARMAP" {
          more := false;
        } else {
          var entry := ReadEntry(line);
          if entry.None? {
            ok, more := false, false;
          } else {
            AddRecord(entry.value);
          }
        }
      }
    }

    method AddRecord(r: XlatRec)
      requires Valid() && tableSize < MAX_RECORDS
      modifies mainTable, this`tableSize
      ensures Valid() && Records() == old(Records()) + [r]
    {
      mainTable[tableSize] := r;
      tableSize := tableSize + 1;
    }

    /** Reads the header and the character map; false where the program exits. */
    method LoadTable() returns (ok: bool)
      requires Valid() && Storable(inFile)
      requires var h := LoadHeader(inFile, Header(maxChar, minChar, repChar));
               !h.Stuck? && (h.Done? ==> !LoadRecords(h.rest, Records()).Stuck?)
      modifies mainTable, this`inFile, this`lineNum, this`maxChar, this`minChar, this`repChar, this`tableSize
      ensures Valid()
      ensures var h := LoadHeader(old(inFile), old(Header(maxChar, minChar, repChar)));
              && (ok <==> h.Done? && LoadRecords(h.rest, old(Records())).Done?)
              && (ok ==> Header(maxChar, minChar, repChar) == h.value
                         && Records() == LoadRecords(h.rest, old(Records())).value)
    {
      var tmpBuf := new char[LINE_SIZE](_ => NUL);
      ok := ReadHeader(tmpBuf);
      if ok {
        ok := ReadRecords(tmpBuf);
      }
    }

    // -----------------------------------------------------------------------
    //  Printing
    // -----------------------------------------------------------------------

    /**
     * Prints both tables, or exits. The "from" table follows the records sorted by code page value; the
     * loop looks at the record behind the last one too.
     */
    method FormatSBTables() returns (ok: bool, ghost sorted: seq<XlatRec>)
      requires Valid() && tableSize < MAX_RECORDS
      modifies mainTable, this`fromTable, this`toTable, this`toTableSize
      ensures Valid()
      ensures OrderedFrom(sorted) && multiset(sorted) == multiset(old(Records()))
      ensures ok <==> minChar == 1 && maxChar == 1 && Emit(sorted, 0).Some?
      ensures ok ==> fromTable == Emit(sorted, 0).value
      ensures ok ==> OrderedTo(toTable) && multiset(toTable) == multiset(old(Records()))
      ensures ok ==> toTableSize == |toTable|
    {
      ghost var initial := Records();
      sorted := SortedFrom(initial);
      if minChar != 1 || maxChar != 1 {
        return false, sorted;
      }
      SortRecords(mainTable, tableSize, true);
      sorted := Records();
      ok := PrintFromTable();
      if ok {
        SortRecords(mainTable, tableSize, false);
        PrintToTable();
      }
    }

    /** Some order in which the records could stand after the first sort. */
    static ghost function SortedFrom(s: seq<XlatRec>): (r: seq<XlatRec>)
      ensures OrderedFrom(r) && multiset(r) == multiset(s)
    {
      if s == [] then []
      else
        var front := SortedFrom(s[..|s| - 1]);
        assert s == s[..|s| - 1] + [s[|s| - 1]];
        InsertOrdered(true, front, s[|s| - 1]);
        Insert(true, front, s[|s| - 1])
    }

    ghost function Behind(index: nat): seq<XlatRec>
      requires Valid()
      reads this, mainTable
    {
      if index <= tableSize then mainTable[index..tableSize] else []
    }

    /** The place behind a record and behind a further one of the same value; the last place may be passed. */
    method SkipDuplicate(index: nat) returns (next: nat)
      requires Valid() && index < tableSize < MAX_RECORDS
      ensures next > index && Behind(next) == AfterEntry(Behind(index))
    {
      next := index + 1;
      if mainTable[index + 1].cpVal == mainTable[index].cpVal {
        next := index + 2;
      }
    }

    lemma EmitUnfolds(index: nat, cur: nat)
      requires Valid() && index < tableSize
      ensures var r := mainTable[index];
              Emit(Behind(index), cur) ==
                if cur == r.cpVal then Entry(r.uniVal, Emit(AfterEntry(Behind(index)), cur + 1))
                else if cur < r.cpVal then Entry(FILLER, Emit(Behind(index + 1), cur + 1))
                else None
    {
      assert Behind(index)[1..] == Behind(index + 1);
    }

    /** Prints what stands at the next value: the record's character, or the filler; false where the program exits. */
    method PrintEntry(index: nat, curValue: nat) returns (ok: bool, next: nat)
      requires Valid() && index < tableSize < MAX_RECORDS
      modifies this`fromTable
      ensures ok == (curValue <= mainTable[index].cpVal)
      ensures !ok ==> Emit(Behind(index), curValue).None?
      ensures ok ==> next > index && var now, more := Emit(Behind(index), curValue), Emit(Behind(next), curValue + 1);
                                     && (now.Some? <==> more.Some?)
                                     && (now.Some? ==> old(fromTable) + now.value == fromTable + more.value)
    {
      hide Emit, AfterEntry;
      ghost var before := fromTable;
      EmitUnfolds(index, curValue);
      ok, next := true, index + 1;
      if curValue == mainTable[index].cpVal {
        fromTable := fromTable + [mainTable[index].uniVal];
        next := SkipDuplicate(index);
      } else if curValue < mainTable[index].cpVal {
        fromTable := fromTable + [FILLER];
      } else {
        ok := false;
      }
      if ok && Emit(Behind(next), curValue + 1).Some? {
        var more := Emit(Behind(next), curValue + 1).value;
        assert fromTable + more == before + (fromTable[|before|..] + more);
      }
    }

    method PrintFromTable() returns (ok: bool)
      requires Valid() && tableSize < MAX_RECORDS && OrderedFrom(Records())
      modifies this`fromTable
      ensures ok <==> Emit(Records(), 0).Some?
      ensures ok ==> fromTable == Emit(Records(), 0).value
    {
      hide Emit, AfterEntry, OrderedFrom;
      fromTable := [];
      var curValue, index := 0, 0;
      assert Behind(0) == Records();
      while index < tableSize
        invariant Emit(Records(), 0).Some? <==> Emit(Behind(index), curValue).Some?
        invariant Emit(Records(), 0).Some? ==>
                    Emit(Records(), 0).value == fromTable + Emit(Behind(index), curValue).value
        decreases tableSize - index
      {
        var next;
        ok, next := PrintEntry(index, curValue);
        if !ok {
          return;
        }
        curValue := curValue + 1;
        index := next;
        // The program exits here if the value is above 256: a record's value never is.
        assert curValue <= 256;
      }
      ok := true;
      assert Behind(index) == [] && Emit([], curValue) == Some([]) by {
        NothingLeft(curValue);
      }
    }

    static lemma NothingLeft(cur: nat)
      ensures Emit([], cur) == Some([])
    {
    }

    method PrintToTable()
      requires Valid()
      modifies this`toTable, this`toTableSize
      ensures toTable == Records() && toTableSize == |toTable|
    {
      toTable := [];
      for index := 0 to tableSize
        invariant toTable == mainTable[..index]
      {
        toTable := toTable + [mainTable[index]];
      }
      toTableSize := tableSize;
    }

    // -----------------------------------------------------------------------
    //  The whole program
    // -----------------------------------------------------------------------

    lemma TablesRight(records: seq<XlatRec>, sorted: seq<XlatRec>)
      requires OrderedFrom(sorted) && multiset(sorted) == multiset(records) && Fits(records, 0)
      requires Emit(sorted, 0).Some? && fromTable == Emit(sorted, 0).value
      requires OrderedTo(toTable) && multiset(toTable) == multiset(records) && toTableSize == |toTable|
      ensures RightTables(records)
    {
      hide Emit, Fits;
      FromTableIff(sorted, records);
      FitsPermuted(records, sorted, 0);
      EntryCount(sorted, 0);
      SameMembers(sorted, records);
      SameMembers(toTable, records);
      forall i, j | 0 <= i < j < |toTable| ensures toTable[i].uniVal <= toTable[j].uniVal {
        assert CompTo(toTable[i], toTable[j]) <= 0;
      }
      if DistinctChars(records) {
        DistinctIncrease(records, toTable);
      }
      if sorted != [] {
        assert sorted[|sorted| - 1] in records;
      }
    }

    static lemma SortedEmits(sorted: seq<XlatRec>, records: seq<XlatRec>)
      requires OrderedFrom(sorted) && multiset(sorted) == multiset(records) && Fits(records, 0)
      ensures Emit(sorted, 0).Some?
    {
      FromTableIff(sorted, records);
    }

    /** A file is accepted only if it is a single-byte one with records; it gives its two tables, if its records fit. */
    ghost predicate Answers(f: UcmFile, initial: Header, ok: bool)
      requires f.Valid()
      reads this
    {
      var h, records := HeaderOf(f.header, initial), f.Records();
      && (ok ==> records != [] && h.minChar == 1 && h.maxChar == 1)
      && (records != [] && h.minChar == 1 && h.maxChar == 1 && (Fits(records, 0) || GapFree(records, 0)) ==>
            ok && RightTables(records) && repChar == h.repChar)
    }

    /**
     * The program: it loads the table and prints both tables; false where it gives up. A file as it is written in the
     * given form is accepted only if it is for a single-byte encoding and has records; and if the records fit, or
     * every value up to the largest occurs once or twice, the tables are those of the records.
     */
    method Run() returns (ok: bool)
      requires Valid() && Storable(inFile) && Records() == []
      requires var h := LoadHeader(inFile, Header(maxChar, minChar, repChar));
               !h.Stuck? && (h.Done? ==> var r := LoadRecords(h.rest, []);
                                         !r.Stuck? && (r.Done? ==> |r.value| < MAX_RECORDS))
      modifies this, mainTable
      ensures Valid()
      ensures forall f: UcmFile :: f.Valid() && |f.records| <= MAX_RECORDS && f.Lines() == old(inFile) ==>
                Answers(f, old(Header(maxChar, minChar, repChar)), ok)
    {
      ghost var lines, initial := inFile, Header(maxChar, minChar, repChar);
      ghost var sorted := [];
      ok := LoadTable();
      ghost var records := Records();
      ghost var loaded := ok;
      if ok && tableSize == 0 {
        ok := false;
      }
      if ok {
        ok, sorted := FormatSBTables();
      }
      assert loaded ==> LoadRecords(LoadHeader(lines, initial).rest, []).value == records;
      forall f: UcmFile | f.Valid() && |f.records| <= MAX_RECORDS && f.Lines() == lines
        ensures Answers(f, initial, ok) {
        FileUndoesWriting(f, initial);
        assert loaded && f.Records() == records;
        var h := HeaderOf(f.header, initial);
        if records != [] && h.minChar == 1 && h.maxChar == 1 && (Fits(records, 0) || GapFree(records, 0)) {
          if GapFree(records, 0) { GapFreeFits(records, 0); }
          SortedEmits(sorted, records);
          TablesRight(records, sorted);
        }
      }
    }
  }
}
