/** A UCM file as it is written, and that loading it gives back its header values and its records. */
module IcuFiles {
  import opened IcuTables
  import opened IcuText
  import opened IcuLoading
  import Numerals

  datatype HeaderTag = MaxTag | MinTag | SubTag {
    function Word(): string {
      match this
      case MaxTag => "<mb_cur_max>"
      case MinTag => "<mb_cur_min>"
      case SubTag => "<subchar>"
    }
  }

  /** A number is written in decimal, or in hexadecimal behind a backslash and an x. */
  datatype NumberText = NumberText(base: Base, digits: string) {
    predicate Valid() { digits != "" && AllDigits(digits, base) }

    function Text(): string { if base.Hex? then "\\x" + digits else digits }

    function Value(): nat { Word32(Numeral(digits, base)) }
  }

  /** The lines that may stand in front of the character map. */
  datatype HeaderText =
    | TagLine(tag: HeaderTag, lead: string, number: NumberText, tail: string)
    | OtherLine(text: string, tail: string)
    | CommentLine(text: string)
  {
    predicate Valid() {
      match this
      case TagLine(_, lead, number, tail) => AllSpaces(lead) && number.Valid() && IsBlank(tail)
      case OtherLine(text, tail) =>
        && text != "" && !IsSpace(text[|text| - 1]) && '#' !in text && text != "CHARMAP" && IsBlank(tail)
        && !("<mb_cur_max>" <= text) && !("<mb_cur_min>" <= text) && !("<subchar>" <= text)
      case CommentLine(text) => text != "" && text[0] == '#'
    }

    /** What the line says, without the white space and the comment behind it. */
    function Core(): string {
      match this
      case TagLine(tag, lead, number, _) => tag.Word() + lead + number.Text()
      case OtherLine(text, _) => text
      case CommentLine(_) => ""
    }

    function Text(): string { if CommentLine? then text else Core() + tail }
  }

  predicate AllSpaces(s: string) { forall i :: 0 <= i < |s| ==> IsSpace(s[i]) }

  /** White space, and at most a comment behind it. */
  predicate IsBlank(s: string) { TrimRight(BeforeComment(s)) == "" }

  ghost predicate HeaderValid(texts: seq<HeaderText>) { forall i :: 0 <= i < |texts| ==> texts[i].Valid() }

  function HeaderLines(texts: seq<HeaderText>): (r: seq<string>)
    ensures |r| == |texts| && forall i :: 0 <= i < |r| ==> r[i] == texts[i].Text()
  {
    if texts == [] then [] else [texts[0].Text()] + HeaderLines(texts[1..])
  }

  /** The number written last for the tag, if there is one. */
  function LastNumber(texts: seq<HeaderText>, tag: HeaderTag, otherwise: nat): nat {
    if texts == [] then otherwise
    else
      var last := texts[|texts| - 1];
      if last.TagLine? && last.tag == tag then last.number.Value() else LastNumber(texts[..|texts| - 1], tag, otherwise)
  }

  /** The header that the lines set, when it was h before; the substitution character is a byte. */
  function HeaderOf(texts: seq<HeaderText>, h: Header): Header {
    Header(LastNumber(texts, MaxTag, h.maxChar), LastNumber(texts, MinTag, h.minChar),
           LastNumber(texts, SubTag, h.repChar) % 0x100)
  }

  // -------------------------------------------------------------------------
  //  Numbers
  // -------------------------------------------------------------------------

  lemma {:induction false} SpacesSkipped(lead: string, s: string)
    requires AllSpaces(lead) && s != "" && !IsSpace(s[0])
    ensures SkipSpaces(lead + s) == s
    decreases |lead|
  {
    var whole := lead + s;
    if lead == "" {
      assert whole == s;
    } else {
      assert whole[0] == lead[0] && whole[1..] == lead[1..] + s;
      SpacesSkipped(lead[1..], s);
    }
  }

  lemma NumberParsed(lead: string, number: NumberText)
    requires AllSpaces(lead) && number.Valid()
    ensures ParseNumber(lead + number.Text()) == Done(number.Value(), [])
  {
    hide DigitValue, IsSpace, Numeral, SkipSpaces, Strtoul;
    var s := number.Text();
    HexDigitIsPlain(number.digits[0]);
    assert !IsSpace('\\') by { BackslashIsNoSpace(); }
    SpacesSkipped(lead, s);
    StrtoulDigits(number.digits, number.base);
    if number.base.Hex? {
      assert s[2..] == number.digits;
    }
  }

  /** Behind a number nothing may follow: then the program exits. */
  lemma JunkRejected(lead: string, number: NumberText, junk: string)
    requires AllSpaces(lead) && number.Valid() && junk != "" && DigitValue(junk[0]) >= number.base.Size()
    requires number.base.Hex? ==> !HexPrefix(number.digits + junk)
    ensures ParseNumber(lead + number.Text() + junk) == Exit
  {
    hide IsSpace, Numeral, SkipSpaces, Strtoul, DigitValue;
    var s, rest := number.Text() + junk, number.digits + junk;
    HexDigitIsPlain(number.digits[0]);
    BackslashIsNoSpace();
    assert lead + number.Text() + junk == lead + s && s[0] == number.Text()[0];
    SpacesSkipped(lead, s);
    StrtoulStops(number.digits, junk, number.base);
    if number.base.Hex? {
      assert s[2..] == rest;
    } else {
      assert s == rest;
    }
  }

  lemma BackslashIsNoSpace()
    ensures !IsSpace('\\')
  {
  }

  // -------------------------------------------------------------------------
  //  Lines
  // -------------------------------------------------------------------------

  lemma DigitsPlain(s: string, base: Base)
    requires AllDigits(s, base)
    ensures '#' !in s && (s != "" ==> !IsSpace(s[|s| - 1]))
  {
    hide DigitValue;
    forall c | c in s ensures c != '#' && !IsSpace(c) {
      HexDigitIsPlain(c);
    }
  }

  lemma SpacesPlain(s: string)
    requires AllSpaces(s)
    ensures '#' !in s
  {
    forall i | 0 <= i < |s| ensures s[i] != '#' {
      assert IsSpace(s[i]);
    }
  }

  lemma CoreOk(t: HeaderText)
    requires t.Valid() && !t.CommentLine?
    ensures t.Core() != "" && !IsSpace(t.Core()[|t.Core()| - 1]) && '#' !in t.Core() && t.Core() != "CHARMAP"
  {
    hide IsSpace, DigitValue, IsBlank;
    if t.TagLine? {
      var core := t.Core();
      DigitsPlain(t.number.digits, t.number.base);
      SpacesPlain(t.lead);
      WordsDiffer(t.tag);
      assert core[0] == t.tag.Word()[0];
      assert core[|core| - 1] == t.number.digits[|t.number.digits| - 1];
    }
  }

  lemma WordsDiffer(tag: HeaderTag)
    ensures '#' !in tag.Word() && tag.Word() != "" && tag.Word()[0] == '<'
    ensures |MAX_TAG| == |MIN_TAG| == 12 && |SUB_TAG| == 9
    ensures MAX_TAG[9] == 'a' && MIN_TAG[9] == 'i' && MAX_TAG[1] == MIN_TAG[1] == 'm' && SUB_TAG[1] == 's'
  {
  }

  lemma CleanLine(t: HeaderText)
    requires t.Valid() && !t.CommentLine?
    ensures Clean(t.Text()) == t.Core() && t.Text() != "" && t.Text()[0] != '#'
  {
    hide IsSpace, TrimRight, BeforeComment, DigitValue, HeaderText.Valid, HeaderText.Core;
    var core := t.Core();
    CoreOk(t);
    TailBlank(t);
    assert core[0] in core && t.Text()[0] == core[0];
    BeforeCommentAppend(core, t.tail);
    TrimRightAppend(core, BeforeComment(t.tail));
  }

  lemma TailBlank(t: HeaderText)
    requires t.Valid() && !t.CommentLine?
    ensures IsBlank(t.tail)
  {
  }

  /** What one line does to the header. */
  function After(t: HeaderText, h: Header): Header { HeaderOf([t], h) }

  lemma Single(t: HeaderText, tag: HeaderTag, n: nat)
    ensures LastNumber([t], tag, n) == if t.TagLine? && t.tag == tag then t.number.Value() else n
  {
    var texts := [t];
    assert texts[..|texts| - 1] == [];
  }

  lemma AfterIs(t: HeaderText, h: Header)
    ensures After(t, h) == if !t.TagLine? then h
                           else
                             match t.tag
                             case MaxTag => h.(maxChar := t.number.Value())
                             case MinTag => h.(minChar := t.number.Value())
                             case SubTag => h.(repChar := t.number.Value() % 0x100)
  {
    hide LastNumber, NumberText.Value;
    Single(t, MaxTag, h.maxChar);
    Single(t, MinTag, h.minChar);
    Single(t, SubTag, h.repChar);
  }

  lemma OneLine(t: HeaderText, h: Header)
    requires t.Valid() && !t.CommentLine?
    ensures HeaderLine(h, t.Core()) == Done(After(t, h), [])
  {
    hide AllSpaces, NumberText.Valid, NumberText.Value, NumberText.Text, ParseNumber, IsBlank, IsSpace, After;
    AfterIs(t, h);
    if t.TagLine? {
      TagRead(t, h);
    }
  }

  lemma TagRead(t: HeaderText, h: Header)
    requires t.Valid() && t.TagLine?
    ensures var number := t.number.Value();
            HeaderLine(h, t.Core()) == Done(match t.tag
                                            case MaxTag => h.(maxChar := number)
                                            case MinTag => h.(minChar := number)
                                            case SubTag => h.(repChar := number % 0x100), [])
  {
    hide AllSpaces, NumberText.Valid, NumberText.Value, NumberText.Text, ParseNumber, IsBlank, IsSpace;
    var word, number, core := t.tag.Word(), t.lead + t.number.Text(), t.Core();
    NumberParsed(t.lead, t.number);
    WordsDiffer(t.tag);
    assert core == word + number;
    assert core[|word|..] == number && word <= core;
    assert forall i :: 0 <= i < |word| ==> core[i] == word[i];
  }

  lemma LineRead(t: HeaderText, more: seq<string>)
    requires t.Valid()
    ensures NextLine([t.Text()] + more) == if t.CommentLine? then NextLine(more) else Line(t.Core(), more)
  {
    hide HeaderText.Valid, HeaderText.Core, Clean;
    assert ([t.Text()] + more)[1..] == more;
    if !t.CommentLine? {
      CleanLine(t);
      CoreOk(t);
    } else {
      CommentFirst(t);
    }
  }

  lemma CommentFirst(t: HeaderText)
    requires t.Valid() && t.CommentLine?
    ensures t.Text() != "" && t.Text()[0] == '#'
  {
  }

  // -------------------------------------------------------------------------
  //  Files
  // -------------------------------------------------------------------------

  const MAP_LINE := "CHARMAP\n"

  lemma MapText()
    ensures Clean(MAP_LINE) == "CHARMAP" && MAP_LINE[0] == 'C'
  {
    hide BeforeComment, TrimRight;
    NewlineTrims();
    BeforeCommentAppend(MAP_LINE, "");
    assert MAP_LINE + "" == MAP_LINE && "CHARMAP" + "\n" == MAP_LINE;
    TrimRightAppend("CHARMAP", "\n");
  }

  /** The first line first. */
  lemma {:induction false} HeaderOfFirst(texts: seq<HeaderText>, h: Header)
    requires texts != []
    ensures HeaderOf(texts, h) == HeaderOf(texts[1..], After(texts[0], h))
    decreases |texts|
  {
    LastNumberFirst(texts, MaxTag, h.maxChar);
    LastNumberFirst(texts, MinTag, h.minChar);
    LastNumberFirst(texts, SubTag, h.repChar);
    ByteLast(texts[1..], LastNumber([texts[0]], SubTag, h.repChar));
  }

  /** A byte stays a byte. */
  lemma {:induction false} ByteLast(texts: seq<HeaderText>, n: nat)
    ensures LastNumber(texts, SubTag, n) % 0x100 == LastNumber(texts, SubTag, n % 0x100) % 0x100
    decreases |texts|
  {
    hide NumberText.Value;
    if texts != [] {
      ByteLast(texts[..|texts| - 1], n);
    }
  }

  lemma {:induction false} LastNumberFirst(texts: seq<HeaderText>, tag: HeaderTag, n: nat)
    requires texts != []
    ensures LastNumber(texts, tag, n) == LastNumber(texts[1..], tag, LastNumber([texts[0]], tag, n))
    decreases |texts|
  {
    hide NumberText.Value;
    var last := texts[|texts| - 1];
    if |texts| == 1 {
      assert texts == [texts[0]] && texts[1..] == [];
    } else {
      var front := texts[..|texts| - 1];
      LastNumberFirst(front, tag, n);
      assert texts[1..][..|texts[1..]| - 1] == front[1..] && texts[1..][|texts[1..]| - 1] == last;
    }
  }

  /**
   * Loading undoes writing for the header: whatever other lines and comments stand between, in any order, the values
   * are those written last for each tag, and the initial ones where there is none.
   */
  lemma {:induction false} HeaderUndoesWriting(texts: seq<HeaderText>, h: Header, rest: seq<string>)
    requires HeaderValid(texts)
    ensures LoadHeader(HeaderLines(texts) + ([MAP_LINE] + rest), h) == Done(HeaderOf(texts, h), rest)
    decreases |texts|
  {
    hide HeaderText.Valid, HeaderText.Text, HeaderOf, HeaderLine, Clean;
    var more := [MAP_LINE] + rest;
    if texts == [] {
      MapText();
      assert HeaderLines(texts) + more == more && more[1..] == rest;
      assert HeaderOf(texts, h) == h by { NothingSet(h); }
    } else {
      var t, others := texts[0], HeaderLines(texts[1..]) + more;
      assert HeaderLines(texts) + more == [t.Text()] + others;
      LineRead(t, others);
      HeaderOfFirst(texts, h);
      HeaderUndoesWriting(texts[1..], After(t, h), rest);
      if t.CommentLine? {
        AfterIs(t, h);
        SameNextLine([t.Text()] + others, others, h);
      } else {
        CoreOk(t);
        OneLine(t, h);
      }
    }
  }

  lemma NothingSet(h: Header)
    ensures HeaderOf([], h) == h
  {
  }

  lemma SameNextLine(lines: seq<string>, others: seq<string>, h: Header)
    requires NextLine(lines) == NextLine(others)
    ensures LoadHeader(lines, h) == LoadHeader(others, h)
  {
    hide HeaderLine, NextLine;
  }

  /** A file: the header, the character map, and whatever stands behind it. */
  datatype UcmFile = UcmFile(header: seq<HeaderText>, records: seq<RecordText>, rest: seq<string>) {
    ghost predicate Valid() { HeaderValid(header) && AllValid(records) }

    function Lines(): seq<string> {
      HeaderLines(header) + (["CHARMAP\n"] + (IcuLoading.Lines(records) + (["END CHARMAP\n"] + rest)))
    }

    function Records(): seq<XlatRec>
      requires Valid()
    {
      Values(records)
    }
  }

  /** Loading a file gives back what was written. */
  lemma FileUndoesWriting(file: UcmFile, h: Header)
    requires file.Valid() && |file.records| <= MAX_RECORDS
    ensures var r := LoadHeader(file.Lines(), h);
            && r.Done? && r.value == HeaderOf(file.header, h)
            && LoadRecords(r.rest, []) == Done(file.Records(), file.rest)
  {
    hide HeaderOf, LoadHeader, LoadRecords, HeaderLines, Values, AllValid, HeaderValid, IcuLoading.Lines;
    HeaderUndoesWriting(file.header, h, IcuLoading.Lines(file.records) + (["END CHARMAP\n"] + file.rest));
    LoadUndoesWriting(file.records, [], file.rest);
    assert [] + Values(file.records) == Values(file.records);
  }

  /** Decimal text of a number reads as that number. */
  lemma {:induction false} DecimalReadsBack(n: nat)
    ensures AllDigits(Numerals.Decimal(n), Dec) && Numeral(Numerals.Decimal(n), Dec) == n
    decreases n
  {
    var s := Numerals.Decimal(n);
    assert forall k :: 0 <= k < |s| ==> Numerals.IsDigit(s[k]);
    if n >= 10 {
      DecimalReadsBack(n / 10);
      assert s[..|s| - 1] == Numerals.Decimal(n / 10);
    } else {
      assert s[..0] == "" && s[|s| - 1] == Numerals.DigitChar(n);
    }
  }
}
