/** What loading a UCM file yields, as a function of its lines, and that loading undoes writing. */
module IcuLoading {
  import opened IcuTables
  import opened IcuText

  const MAX_RECORDS := 1024

  /** The outcome of loading; Stuck where the program reads past the end of the file, its table or a string. */
  datatype Outcome<+T> = Stuck | Exit | Done(value: T, rest: seq<string>)

  datatype Line = NoLine | Line(text: string, rest: seq<string>)

  /** The next line that is not a comment; NoLine at the end of the input or if it is blank. */
  function NextLine(lines: seq<string>): Line
    decreases |lines|
  {
    if lines == [] then NoLine
    else if lines[0] != "" && lines[0][0] == '#' then NextLine(lines[1..])
    else if Clean(lines[0]) == "" then NoLine
    else Line(Clean(lines[0]), lines[1..])
  }

  lemma {:induction false} NextLineShrinks(lines: seq<string>)
    ensures NextLine(lines).Line? ==> |NextLine(lines).rest| < |lines|
    decreases |lines|
  {
    if lines != [] {
      NextLineShrinks(lines[1..]);
    }
  }

  /** The place of the first backslash from place i on. */
  function Backslash(text: string, i: nat): (b: nat)
    requires i <= |text|
    ensures i <= b <= |text| && (b < |text| ==> text[b] == '\\')
    ensures forall k :: i <= k < b ==> text[k] != '\\'
    decreases |text| - i
  {
    if i == |text| || text[i] == '\\' then i else Backslash(text, i + 1)
  }

  function ParseEntry(text: string): Outcome<XlatRec> {
    if |text| < 12 || text[0] != '<' || text[1] != 'U' || text[6] != '>' then Exit
    else
      var uni := Strtoul(text[2..6], Hex);
      var b := Backslash(text, 7);
      if uni.consumed < 4 || b == |text| then Exit
      else if b + 2 > |text| then Stuck
      else
        var cp := Strtoul(text[b + 2..], Hex);
        if b + 2 + cp.consumed < |text| then Exit
        else CheckedRecord(uni.value % UINT_LIMIT, cp.value % UINT_LIMIT)
  }

  function CheckedRecord(uniVal: nat, cpVal: nat): Outcome<XlatRec> {
    if uniVal > 0xFFFF || cpVal > 0xFF then Exit else Done(XlatRec(uniVal, cpVal), [])
  }

  /** The records up to the end of the character map, behind those already in the table. */
  function LoadRecords(lines: seq<string>, table: seq<XlatRec>): Outcome<seq<XlatRec>>
    decreases |lines|
  {
    NextLineShrinks(lines);
    match NextLine(lines)
    case NoLine => Stuck
    case Line(text, rest) =>
      if text == "END CHARMAP" then Done(table, rest)
      else
        match ParseEntry(text)
        case Done(r, _) => if |table| < MAX_RECORDS then LoadRecords(rest, table + [r]) else Stuck
        case Exit => Exit
        case Stuck => Stuck
  }

  /** What the lines before the character map set. */
  datatype Header = Header(maxChar: nat, minChar: nat, repChar: Byte)

  function ParseNumber(s: string): Outcome<nat> {
    var digits := SkipSpaces(s);
    if digits == "" then Exit
    else if digits[0] == '\\' then
      if |digits| < 2 then Stuck else WholeNumber(digits[2..], Hex)
    else WholeNumber(digits, Dec)
  }

  function WholeNumber(s: string, base: Base): Outcome<nat> {
    var n := Strtoul(s, base);
    if n.consumed < |s| then Exit else Done(n.value % UINT_LIMIT, [])
  }

  const MAX_TAG := "<mb_cur_max>"
  const MIN_TAG := "<mb_cur_min>"
  const SUB_TAG := "<subchar>"

  function HeaderLine(h: Header, text: string): Outcome<Header> {
    if MAX_TAG <= text then WithNumber(ParseNumber(text[|MAX_TAG|..]), (n: nat) => h.(maxChar := n))
    else if MIN_TAG <= text then WithNumber(ParseNumber(text[|MIN_TAG|..]), (n: nat) => h.(minChar := n))
    else if SUB_TAG <= text then WithNumber(ParseNumber(text[|SUB_TAG|..]), (n: nat) => h.(repChar := n % 0x100))
    else Done(h, [])
  }

  function WithNumber(n: Outcome<nat>, update: nat -> Header): Outcome<Header> {
    match n
    case Done(v, _) => Done(update(v), [])
    case Exit => Exit
    case Stuck => Stuck
  }

  function LoadHeader(lines: seq<string>, h: Header): Outcome<Header>
    decreases |lines|
  {
    NextLineShrinks(lines);
    match NextLine(lines)
    case NoLine => Stuck
    case Line(text, rest) =>
      if text == "CHARMAP" then Done(h, rest)
      else
        match HeaderLine(h, text)
        case Done(next, _) => LoadHeader(rest, next)
        case Exit => Exit
        case Stuck => Stuck
  }

  // -------------------------------------------------------------------------
  //  Loading undoes writing
  // -------------------------------------------------------------------------

  /** The parts of a line for a record: `<U` uni `>` filler `\x` cp tail. */
  datatype RecordText = RecordText(uni: string, filler: string, cp: string, tail: string) {
    /** Four hex digits, some more behind a backslash and an x, and at most a comment behind them. */
    predicate Shaped() {
      && |uni| == 4 && AllDigits(uni, Hex) && cp != "" && AllDigits(cp, Hex)
      && |filler| + |cp| >= 3 && '\\' !in filler && '#' !in filler
      && TrimRight(BeforeComment(tail)) == ""
    }

    /** The code page value is a byte. */
    predicate Valid() { Shaped() && Word32(Numeral(cp, Hex)) <= 0xFF }

    function Core(): string { "<U" + uni + ">" + filler + "\\x" + cp }

    function Text(): string { Core() + tail }

    function Value(): XlatRec
      requires Valid()
    {
      NumeralBound(uni);
      assert PowerOf16(4) == 0x10000;
      XlatRec(Numeral(uni, Hex), Word32(Numeral(cp, Hex)))
    }
  }

  lemma BeforeCommentAppend(a: string, b: string)
    requires '#' !in a
    ensures BeforeComment(a + b) == a + BeforeComment(b)
  {
    hide BeforeComment;
    var s, r, q := a + b, BeforeComment(a + b), a + BeforeComment(b);
    forall k | 0 <= k < |q| ensures s[k] == q[k] && q[k] != '#' {
      assert if k < |a| then q[k] in a else q[k] in BeforeComment(b);
    }
    assert |q| <= |r|;
    assert |q| < |s| ==> s[|q|] == b[|q| - |a|] == '#';
    assert forall k :: 0 <= k < |r| ==> s[k] == r[k] && r[k] in r;
    assert q == s[..|q|] && r == s[..|r|];
  }

  lemma {:induction false} TrimRightAppend(a: string, b: string)
    requires a != "" && !IsSpace(a[|a| - 1]) && TrimRight(b) == ""
    ensures TrimRight(a + b) == a
    decreases |b|
  {
    if b == "" {
      assert a + b == a;
    } else {
      assert IsSpace(b[|b| - 1]);
      TrimRightAppend(a, b[..|b| - 1]);
      assert (a + b)[..|a + b| - 1] == a + b[..|b| - 1];
    }
  }

  lemma PlainDigits(s: string)
    requires AllDigits(s, Hex)
    ensures '#' !in s && '\\' !in s && (s != "" ==> !IsSpace(s[|s| - 1]))
  {
    forall c | c in s ensures c != '#' && c != '\\' && !IsSpace(c) {
      HexDigitIsPlain(c);
    }
  }

  /** A comment and white space behind a record's line are dropped. */
  lemma CleanRecord(t: RecordText)
    requires t.Shaped()
    ensures Clean(t.Text()) == t.Core() && t.Text() != "" && t.Text()[0] != '#'
  {
    hide IsSpace, TrimRight, BeforeComment, DigitValue;
    PlainDigits(t.uni);
    PlainDigits(t.cp);
    var core := t.Core();
    assert '#' !in core;
    assert core[|core| - 1] == t.cp[|t.cp| - 1];
    BeforeCommentAppend(core, t.tail);
    TrimRightAppend(core, BeforeComment(t.tail));
  }

  lemma CoreParts(t: RecordText, more: string)
    requires t.Shaped()
    ensures var s, b := t.Core() + more, 7 + |t.filler|;
            && |s| >= 12 && s[0] == '<' && s[1] == 'U' && s[6] == '>' && s[2..6] == t.uni && b + 2 <= |s|
            && s[b] == '\\' && s[b + 2..] == t.cp + more && Backslash(s, 7) == b
  {
    hide IsSpace, TrimRight, BeforeComment, DigitValue;
    var s, b := t.Core() + more, 7 + |t.filler|;
    assert s[7..b] == t.filler;
    forall k | 7 <= k < b ensures s[k] != '\\' {
      assert s[k] == t.filler[k - 7];
    }
  }

  /** The line of a record parses to the record if its value is a byte; otherwise the program exits. */
  lemma ParseRecord(t: RecordText)
    requires t.Shaped()
    ensures ParseEntry(t.Core()) == if t.Valid() then Done(t.Value(), []) else Exit
  {
    hide IsSpace, TrimRight, BeforeComment, DigitValue, Strtoul, Numeral, Word32;
    CoreParts(t, "");
    assert t.Core() + "" == t.Core() && t.cp + "" == t.cp;
    NumeralBound(t.uni);
    assert PowerOf16(4) == 0x10000;
    StrtoulDigits(t.uni, Hex);
    StrtoulDigits(t.cp, Hex);
  }

  /** Anything behind the digits makes the program exit. */
  lemma RecordJunkRejected(t: RecordText, junk: string)
    requires t.Shaped() && junk != "" && DigitValue(junk[0]) >= 16 && !HexPrefix(t.cp + junk)
    ensures ParseEntry(t.Core() + junk) == Exit
  {
    hide IsSpace, TrimRight, BeforeComment, DigitValue, Strtoul, Numeral;
    CoreParts(t, junk);
    StrtoulDigits(t.uni, Hex);
    StrtoulStops(t.cp, junk, Hex);
  }

  /** A line without the signs around the numbers, or that is too short, makes it exit too. */
  lemma EntryHasSigns(text: string)
    requires ParseEntry(text).Done?
    ensures |text| >= 12 && text[..2] == "<U" && text[6] == '>'
    ensures exists b :: 7 <= b <= |text| - 2 && text[b] == '\\'
  {
    hide Strtoul;
    assert text[Backslash(text, 7)] == '\\';
  }

  function Lines(texts: seq<RecordText>): seq<string> {
    if texts == [] then [] else [texts[0].Text()] + Lines(texts[1..])
  }

  ghost predicate AllValid(texts: seq<RecordText>) {
    forall i :: 0 <= i < |texts| ==> texts[i].Valid()
  }

  function Values(texts: seq<RecordText>): (r: seq<XlatRec>)
    requires AllValid(texts)
    ensures |r| == |texts| && forall i :: 0 <= i < |r| ==> r[i] == texts[i].Value()
  {
    if texts == [] then [] else [texts[0].Value()] + Values(texts[1..])
  }

  const END_LINE := "END CHARMAP\n"

  lemma NewlineTrims()
    ensures TrimRight("\n") == "" && BeforeComment("") == ""
  {
    assert "\n"[..0] == "";
  }

  lemma EndText()
    ensures Clean(END_LINE) == "END CHARMAP" && END_LINE[0] == 'E'
  {
    hide BeforeComment, TrimRight;
    var a := "END CHARMAP";
    NewlineTrims();
    BeforeCommentAppend(END_LINE, "");
    assert END_LINE + "" == END_LINE && a + "\n" == END_LINE;
    TrimRightAppend(a, "\n");
  }

  lemma EndLine(rest: seq<string>)
    ensures NextLine([END_LINE] + rest) == Line("END CHARMAP", rest)
  {
    hide Clean;
    EndText();
    assert ([END_LINE] + rest)[1..] == rest;
  }

  lemma RecordLine(t: RecordText, more: seq<string>)
    requires t.Valid()
    ensures NextLine([t.Text()] + more) == Line(t.Core(), more)
  {
    CleanRecord(t);
    assert ([t.Text()] + more)[1..] == more;
  }

  /** The lines written for records load as exactly these records, in order. */
  lemma {:induction false} LoadUndoesWriting(texts: seq<RecordText>, table: seq<XlatRec>, rest: seq<string>)
    requires AllValid(texts) && |table| + |texts| <= MAX_RECORDS
    ensures LoadRecords(Lines(texts) + ([END_LINE] + rest), table) == Done(table + Values(texts), rest)
    decreases |texts|
  {
    if texts == [] {
      LoadEnd(table, rest);
    } else {
      LoadUndoesWriting(texts[1..], table + [texts[0].Value()], rest);
      LoadNext(texts, table, rest);
    }
  }

  lemma LoadEnd(table: seq<XlatRec>, rest: seq<string>)
    ensures LoadRecords(Lines([]) + ([END_LINE] + rest), table) == Done(table + Values([]), rest)
  {
    hide ParseEntry, NextLine;
    EndLine(rest);
    assert Lines([]) + ([END_LINE] + rest) == [END_LINE] + rest;
    assert table + [] == table;
  }

  lemma LoadNext(texts: seq<RecordText>, table: seq<XlatRec>, rest: seq<string>)
    requires texts != [] && AllValid(texts) && |table| < MAX_RECORDS
    ensures var t, more := texts[0], Lines(texts[1..]) + ([END_LINE] + rest);
            LoadRecords(Lines(texts) + ([END_LINE] + rest), table) == LoadRecords(more, table + [t.Value()])
    ensures table + [texts[0].Value()] + Values(texts[1..]) == table + Values(texts)
  {
    hide ParseEntry, NextLine, Lines, Values, RecordText.Text, RecordText.Core, RecordText.Value;
    var t, more := texts[0], Lines(texts[1..]) + ([END_LINE] + rest);
    RecordLine(t, more);
    ParseRecord(t);
    NotEnd(t);
    LinesNext(texts, [END_LINE] + rest);
    ValuesNext(texts, table);
  }

  lemma NotEnd(t: RecordText)
    ensures t.Core() != "END CHARMAP"
  {
    assert t.Core()[0] == '<';
  }

  lemma LinesNext(texts: seq<RecordText>, rest: seq<string>)
    requires texts != []
    ensures Lines(texts) + rest == [texts[0].Text()] + (Lines(texts[1..]) + rest)
  {
    hide RecordText.Text;
    assert Lines(texts) == [texts[0].Text()] + Lines(texts[1..]);
  }

  lemma ValuesNext(texts: seq<RecordText>, table: seq<XlatRec>)
    requires texts != [] && AllValid(texts)
    ensures table + [texts[0].Value()] + Values(texts[1..]) == table + Values(texts)
  {
    hide RecordText.Value;
    assert Values(texts) == [texts[0].Value()] + Values(texts[1..]);
  }

  /** Every record can be written. */
  function Write(r: XlatRec, filler: string, tail: string): RecordText {
    RecordText(HexText(r.uniVal, 4), filler, HexText(r.cpVal, 2), tail)
  }

  lemma WriteIsValid(r: XlatRec, filler: string, tail: string)
    requires filler != "" && '\\' !in filler && '#' !in filler && TrimRight(BeforeComment(tail)) == ""
    ensures Write(r, filler, tail).Valid() && Write(r, filler, tail).Value() == r
  {
    hide Numeral, DigitValue, TrimRight, BeforeComment, HexText;
    assert PowerOf16(4) == 0x10000 && PowerOf16(2) == 0x100;
    HexReadsBack(r.uniVal, 4);
    HexReadsBack(r.cpVal, 2);
  }
}
