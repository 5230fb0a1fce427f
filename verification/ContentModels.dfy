/** The content model printer: the text of a particle tree, and a parser that recovers the tree. */
module ContentModels {
  import opened Options

  datatype Compositor = Sequence | Choice | All

  /** A particle may be NULL; the number of occurrences is not printed. */
  datatype Particle =
    | NullParticle
    | Particle(minOccurs: nat, maxOccurs: Option<nat>, term: Term)

  datatype Term =
    | ElementTerm(name: string)
    | GroupTerm(compositor: Compositor, particles: seq<Particle>)
    | WildcardTerm
    | EmptyTerm

  const NULL_TEXT := "xsParticle is NULL"
  const WILDCARD_TEXT := "* (wildcard)"

  /** Names have none of the printer's own signs in them, as no XML name has. */
  predicate IsName(s: string) { s != "" && forall i :: 0 <= i < |s| ==> NameChar(s[i]) }

  predicate NameChar(c: char) { c !in "(),|* " }

  /** Element names are names. */
  predicate ProperNames(p: Particle) {
    p.Particle? ==>
      match p.term
      case ElementTerm(name) => IsName(name)
      case GroupTerm(_, particles) => forall i :: 0 <= i < |particles| ==> ProperNames(particles[i])
      case _ => true
  }

  /** No group in the particle is empty. */
  predicate Filled(p: Particle) {
    p.Particle? && p.term.GroupTerm? ==> p.term.particles != [] && AllFilled(p.term.particles)
  }

  predicate AllFilled(ps: seq<Particle>) { forall i :: 0 <= i < |ps| ==> Filled(ps[i]) }

  predicate Printable(p: Particle) { ProperNames(p) && Filled(p) }

  predicate AllPrintable(ps: seq<Particle>) { forall i :: 0 <= i < |ps| ==> Printable(ps[i]) }

  lemma MembersPrintable(p: Particle)
    requires Printable(p) && p.Particle? && p.term.GroupTerm?
    ensures p.term.particles != [] && AllPrintable(p.term.particles)
  {
    assert AllFilled(p.term.particles);
  }

  // -------------------------------------------------------------------------
  //  Printing
  // -------------------------------------------------------------------------

  function Connector(c: Compositor): char {
    match c
    case Sequence => ','
    case Choice => '|'
    case All => '*'
  }

  /** The text of a particle that is printed to the end. */
  function Print(p: Particle): string
    decreases p, 0
  {
    if p.NullParticle? then NULL_TEXT
    else
      match p.term
      case ElementTerm(name) => name
      case GroupTerm(c, particles) => "(" + PrintList(c, particles) + ")"
      case WildcardTerm => WILDCARD_TEXT
      case EmptyTerm => ""
  }

  function PrintList(c: Compositor, ps: seq<Particle>): string
    decreases ps, 1
  {
    if ps == [] then ""
    else if |ps| == 1 then Print(ps[0])
    else Print(ps[0]) + [Connector(c)] + PrintList(c, ps[1..])
  }

  /** The text of a particle up to its first empty group, where the program throws. */
  function Cut(p: Particle): string
    requires !Filled(p)
    decreases p, 0
  {
    "(" + if p.term.particles == [] then "" else CutList(p.term.compositor, p.term.particles)
  }

  function CutList(c: Compositor, ps: seq<Particle>): string
    requires !AllFilled(ps)
    decreases ps, 1
  {
    if !Filled(ps[0]) then Cut(ps[0])
    else
      RestNotFilled(ps);
      Print(ps[0]) + [Connector(c)] + CutList(c, ps[1..])
  }

  lemma RestNotFilled(ps: seq<Particle>)
    requires !AllFilled(ps) && Filled(ps[0])
    ensures !AllFilled(ps[1..])
  {
    var i :| 0 <= i < |ps| && !Filled(ps[i]);
    assert ps[1..][i - 1] == ps[i];
  }

  lemma PrintListStep(c: Compositor, ps: seq<Particle>, i: nat)
    requires i < |ps|
    ensures PrintList(c, ps[i..])
         == if i == |ps| - 1 then Print(ps[i]) else Print(ps[i]) + [Connector(c)] + PrintList(c, ps[i + 1..])
  {
    assert ps[i..][0] == ps[i] && ps[i..][1..] == ps[i + 1..];
  }

  lemma FilledStep(c: Compositor, ps: seq<Particle>, i: nat)
    requires i < |ps|
    ensures AllFilled(ps[i..]) <==> Filled(ps[i]) && AllFilled(ps[i + 1..])
    ensures !AllFilled(ps[i..]) ==>
              CutList(c, ps[i..]) == if !Filled(ps[i]) then Cut(ps[i])
                                     else Print(ps[i]) + [Connector(c)] + CutList(c, ps[i + 1..])
  {
    var rest, more := ps[i..], ps[i + 1..];
    assert rest[0] == ps[i] && rest[1..] == more;
    assert forall k :: 0 < k < |rest| ==> rest[k] == more[k - 1];
    assert forall k :: 0 <= k < |more| ==> more[k] == rest[k + 1];
  }

  class Printer {
    var out: string

    constructor ()
      ensures out == ""
    {
      out := "";
    }

    method PrintCompositorTypeConnector(c: Compositor)
      modifies this
      ensures out == old(out) + [Connector(c)]
    {
      match c {
        case Sequence => out := out + ",";
        case Choice => out := out + "|";
        case All => out := out + "*";
      }
    }

    /** Throws at an empty group: the list's elementAt does. */
    method ProcessParticle(p: Particle) returns (threw: bool)
      modifies this
      ensures threw <==> !Filled(p)
      ensures out == old(out) + if threw then Cut(p) else Print(p)
      decreases p, 0
    {
      threw := false;
      if p.NullParticle? {
        out := out + "xsParticle is NULL";
        return;
      }
      match p.term {
        case ElementTerm(name) =>
          out := out + name;
        case GroupTerm(c, particles) =>
          threw := ProcessGroup(c, particles);
        case WildcardTerm =>
          out := out + "* (wildcard)";
        case EmptyTerm =>
      }
    }

    method ProcessGroup(c: Compositor, particles: seq<Particle>) returns (threw: bool)
      modifies this
      ensures threw <==> particles == [] || !AllFilled(particles)
      ensures !threw ==> out == old(out) + ("(" + PrintList(c, particles) + ")")
      ensures threw ==> out == old(out) + ("(" + if particles == [] then "" else CutList(c, particles))
      decreases particles, 2
    {
      hide PrintList, AllFilled, CutList;
      out := out + "(";
      threw := ProcessParticles(c, particles);
      if !threw {
        out := out + ")";
      }
    }

    /** The bound of the loop is the number of members less one, which wraps around for none. */
    method ProcessParticles(c: Compositor, particles: seq<Particle>) returns (threw: bool)
      modifies this
      ensures threw <==> particles == [] || !AllFilled(particles)
      ensures !threw ==> out == old(out) + PrintList(c, particles)
      ensures threw ==> out == old(out) + if particles == [] then "" else CutList(c, particles)
      decreases particles, 1
    {
      if |particles| == 0 {
        return true;
      }
      var i := 0;
      assert particles[0..] == particles;
      while i < |particles| - 1
        invariant i < |particles|
        invariant AllFilled(particles[i..]) <==> AllFilled(particles)
        invariant out + PrintList(c, particles[i..]) == old(out) + PrintList(c, particles)
        invariant !AllFilled(particles) ==> out + CutList(c, particles[i..]) == old(out) + CutList(c, particles)
      {
        threw := ProcessMember(c, particles, i);
        if threw {
          return;
        }
        i := i + 1;
      }
      threw := ProcessParticle(particles[i]);
      PrintListStep(c, particles, i);
      FilledStep(c, particles, i);
      assert AllFilled(particles[i + 1..]);
    }

    method ProcessMember(c: Compositor, particles: seq<Particle>, i: nat) returns (threw: bool)
      requires i + 1 < |particles|
      modifies this
      ensures threw <==> !Filled(particles[i])
      ensures !threw ==>
                && (AllFilled(particles[i..]) <==> AllFilled(particles[i + 1..]))
                && out + PrintList(c, particles[i + 1..]) == old(out) + PrintList(c, particles[i..])
                && (!AllFilled(particles[i..]) ==>
                      out + CutList(c, particles[i + 1..]) == old(out) + CutList(c, particles[i..]))
      ensures threw ==> !AllFilled(particles[i..]) && out == old(out) + CutList(c, particles[i..])
      decreases particles, 0
    {
      hide Print, PrintList, Filled, Cut, CutList, AllFilled;
      PrintListStep(c, particles, i);
      FilledStep(c, particles, i);
      threw := ProcessParticle(particles[i]);
      if !threw {
        PrintCompositorTypeConnector(c);
      }
    }
  }

  // -------------------------------------------------------------------------
  //  Parsing
  // -------------------------------------------------------------------------

  /** What the text tells of a particle: a group of one does not show its compositor. */
  datatype Form =
    | NullForm
    | ElementForm(name: string)
    | GroupForm(compositor: Option<Compositor>, members: seq<Form>)
    | WildcardForm
    | EmptyForm

  function FormOf(p: Particle): Form
    decreases p, 0
  {
    if p.NullParticle? then NullForm
    else
      match p.term
      case ElementTerm(name) => ElementForm(name)
      case GroupTerm(c, particles) => GroupForm(if |particles| > 1 then Some(c) else None, Forms(particles))
      case WildcardTerm => WildcardForm
      case EmptyTerm => EmptyForm
  }

  function Forms(ps: seq<Particle>): seq<Form>
    decreases ps, 1
  {
    seq(|ps|, i requires 0 <= i < |ps| => FormOf(ps[i]))
  }

  datatype Parsed = Parsed(form: Form, rest: string)

  function NameLength(s: string): (n: nat)
    ensures n <= |s| && (forall i :: 0 <= i < n ==> NameChar(s[i])) && (n < |s| ==> !NameChar(s[n]))
  {
    if s == "" || !NameChar(s[0]) then 0 else 1 + NameLength(s[1..])
  }

  function ConnectorOf(c: char): Option<Compositor> {
    if c == ',' then Some(Sequence) else if c == '|' then Some(Choice) else if c == '*' then Some(All) else None
  }

  /** The particle the text starts with, and the text behind it. */
  function Parse(s: string): (r: Option<Parsed>)
    ensures r.Some? ==> |r.value.rest| <= |s|
    decreases |s|, 1
  {
    if s != "" && s[0] == '(' then ParseGroup(s[1..], None, [])
    else if WILDCARD_TEXT <= s then Some(Parsed(WildcardForm, s[|WILDCARD_TEXT|..]))
    else if NULL_TEXT <= s then Some(Parsed(NullForm, s[|NULL_TEXT|..]))
    else
      var n := NameLength(s);
      Some(Parsed(if n == 0 then EmptyForm else ElementForm(s[..n]), s[n..]))
  }

  /** The members of a group from the next one on, up to and with the closing parenthesis. */
  function ParseGroup(s: string, c: Option<Compositor>, before: seq<Form>): (r: Option<Parsed>)
    ensures r.Some? ==> |r.value.rest| <= |s|
    decreases |s|, 2
  {
    var first := Parse(s);
    if first.None? || first.value.rest == "" then None
    else
      var members, rest := before + [first.value.form], first.value.rest;
      if rest[0] == ')' then Some(Parsed(GroupForm(c, members), rest[1..]))
      else
        var d := ConnectorOf(rest[0]);
        if d.None? || (c.Some? && c != d) then None else ParseGroup(rest[1..], d, members)
  }

  /** What may stand behind a particle. */
  predicate Follows(k: string) {
    k == "" || k[0] in ",|)" || (k[0] == '*' && (|k| == 1 || k[1] != ' '))
  }

  lemma {:induction false} NameEnds(name: string, k: string)
    requires (forall i :: 0 <= i < |name| ==> NameChar(name[i])) && (k == "" || !NameChar(k[0]))
    ensures NameLength(name + k) == |name|
    decreases |name|
  {
    if name == "" {
      assert name + k == k;
    } else {
      NameEnds(name[1..], k);
      assert (name + k)[1..] == name[1..] + k;
    }
  }

  /** No particle's text starts with a space. */
  lemma PrintStart(p: Particle)
    requires Printable(p)
    ensures Print(p) != "" ==> Print(p)[0] != ' '
  {
  }

  lemma ListStart(c: Compositor, ps: seq<Particle>)
    requires ps != [] && AllPrintable(ps)
    ensures PrintList(c, ps) != "" ==> PrintList(c, ps)[0] != ' '
  {
    PrintStart(ps[0]);
  }

  /** The parser reads a particle back and stops right behind it. */
  lemma {:induction false} ParsePrint(p: Particle, k: string)
    requires Printable(p) && Follows(k)
    ensures Parse(Print(p) + k) == Some(Parsed(FormOf(p), k))
    decreases p, 0
  {
    if p.NullParticle? {
      ParseFixed(NULL_TEXT, k);
    } else {
      match p.term
      case ElementTerm(name) => ParseName(name, k);
      case WildcardTerm => ParseFixed(WILDCARD_TEXT, k);
      case EmptyTerm =>
        assert "" + k == k;
        ParseEmpty(k);
      case GroupTerm(c, particles) =>
        var inner := PrintList(c, particles) + ([')'] + k);
        assert Print(p) + k == ['('] + inner && (['('] + inner)[1..] == inner;
        MembersPrintable(p);
        ParseMembers(c, particles, None, [], k);
        assert [] + Forms(particles) == Forms(particles);
    }
  }

  lemma ParseFixed(text: string, k: string)
    requires text == NULL_TEXT || text == WILDCARD_TEXT
    ensures Parse(text + k) == Some(Parsed(if text == NULL_TEXT then NullForm else WildcardForm, k))
  {
    assert text <= text + k && (text + k)[|text|..] == k;
    assert (text + k)[0] == text[0];
  }

  lemma ParseEmpty(k: string)
    requires Follows(k)
    ensures Parse(k) == Some(Parsed(EmptyForm, k))
  {
    assert WILDCARD_TEXT[1] == ' ';
    assert k[0..] == k;
  }

  lemma ParseName(name: string, k: string)
    requires IsName(name) && Follows(k)
    ensures Parse(name + k) == Some(Parsed(ElementForm(name), k))
  {
    var s := name + k;
    NameEnds(name, k);
    assert NameChar(s[0]);
    assert s[NameLength(s)..] == k && s[..NameLength(s)] == name;
    NoNullText(name, k);
  }

  lemma NoNullText(name: string, k: string)
    requires IsName(name) && Follows(k)
    ensures !(NULL_TEXT <= name + k)
  {
    var s := name + k;
    NameEnds(name, k);
    if NULL_TEXT <= s {
      var rest := " is NULL" + s[|NULL_TEXT|..];
      assert NULL_TEXT == "xsParticle" + " is NULL";
      assert s == "xsParticle" + rest;
      NameEnds("xsParticle", rest);
    }
  }

  lemma {:induction false} ParseMembers(c: Compositor, ps: seq<Particle>, d: Option<Compositor>, before: seq<Form>,
                                        k: string)
    requires ps != [] && AllPrintable(ps) && (d == None || d == Some(c))
    ensures ParseGroup(PrintList(c, ps) + ([')'] + k), d, before)
         == Some(Parsed(GroupForm(if |ps| > 1 then Some(c) else d, before + Forms(ps)), k))
    decreases ps, 1
  {
    if |ps| == 1 {
      ParsePrint(ps[0], [')'] + k);
      LastMember(ps[0], d, before, k);
      assert Forms(ps) == [FormOf(ps[0])];
    } else {
      var more := PrintList(c, ps[1..]) + ([')'] + k);
      MoreFollows(c, ps[1..], [')'] + k);
      ParsePrint(ps[0], [Connector(c)] + more);
      ParseMembers(c, ps[1..], Some(c), before + [FormOf(ps[0])], k);
      NextMember(c, ps[0], d, before, more);
      ListSplits(c, ps, before, [')'] + k);
    }
  }

  lemma ListSplits(c: Compositor, ps: seq<Particle>, before: seq<Form>, behind: string)
    requires |ps| > 1
    ensures PrintList(c, ps) + behind == Print(ps[0]) + ([Connector(c)] + (PrintList(c, ps[1..]) + behind))
    ensures before + [FormOf(ps[0])] + Forms(ps[1..]) == before + Forms(ps)
  {
    hide Print, FormOf, Connector;
    assert Forms(ps) == [FormOf(ps[0])] + Forms(ps[1..]);
    assert before + [FormOf(ps[0])] + Forms(ps[1..]) == before + ([FormOf(ps[0])] + Forms(ps[1..]));
  }

  lemma MoreFollows(c: Compositor, ps: seq<Particle>, behind: string)
    requires ps != [] && AllPrintable(ps) && behind != "" && behind[0] == ')'
    ensures Follows([Connector(c)] + (PrintList(c, ps) + behind))
  {
    ListStart(c, ps);
  }

  lemma LastMember(p: Particle, d: Option<Compositor>, before: seq<Form>, k: string)
    requires Printable(p) && Parse(Print(p) + ([')'] + k)) == Some(Parsed(FormOf(p), [')'] + k))
    ensures ParseGroup(Print(p) + ([')'] + k), d, before) == Some(Parsed(GroupForm(d, before + [FormOf(p)]), k))
  {
    hide Print, FormOf, Parse;
    assert ([')'] + k)[1..] == k;
  }

  lemma NextMember(c: Compositor, p: Particle, d: Option<Compositor>, before: seq<Form>, more: string)
    requires Printable(p) && (d == None || d == Some(c))
    requires Parse(Print(p) + ([Connector(c)] + more)) == Some(Parsed(FormOf(p), [Connector(c)] + more))
    ensures ParseGroup(Print(p) + ([Connector(c)] + more), d, before)
         == ParseGroup(more, Some(c), before + [FormOf(p)])
  {
    hide Print, FormOf, Parse;
    assert ([Connector(c)] + more)[1..] == more;
    assert ConnectorOf(Connector(c)) == Some(c) && Connector(c) != ')';
  }

  // -------------------------------------------------------------------------
  //  Text that is cut off
  // -------------------------------------------------------------------------

  /** The parentheses that are open at the end of a text. */
  function Balance(s: string): int {
    if s == "" then 0
    else Balance(s[..|s| - 1]) + match s[|s| - 1] { case '(' => 1 case ')' => -1 case _ => 0 }
  }

  lemma {:induction false} BalanceAppend(a: string, b: string)
    ensures Balance(a + b) == Balance(a) + Balance(b)
    decreases |b|
  {
    if b == "" {
      assert a + b == a;
    } else {
      BalanceAppend(a, b[..|b| - 1]);
      assert (a + b)[..|a + b| - 1] == a + b[..|b| - 1];
    }
  }

  lemma {:induction false} NoParentheses(s: string)
    requires forall i :: 0 <= i < |s| ==> s[i] != '(' && s[i] != ')'
    ensures Balance(s) == 0
    decreases |s|
  {
    if s != "" {
      NoParentheses(s[..|s| - 1]);
    }
  }

  lemma OneParenthesis()
    ensures Balance("(") == 1 && Balance(")") == -1
  {
    assert "("[..0] == "" && ")"[..0] == "";
  }

  lemma FixedTexts()
    ensures Balance("(") == 1 && Balance(")") == -1 && Balance(WILDCARD_TEXT) == Balance(NULL_TEXT) == 0
  {
    hide Balance;
    OneParenthesis();
    BalanceAppend("* ", "(wildcard)");
    BalanceAppend("(", "wildcard)");
    BalanceAppend("wildcard", ")");
    NoParentheses("* ");
    NoParentheses("wildcard");
    NoParentheses(NULL_TEXT);
    assert WILDCARD_TEXT == "* " + "(wildcard)" && "(wildcard)" == "(" + "wildcard)" && "wildcard)" == "wildcard" + ")";
  }

  lemma {:induction false} PrintBalanced(p: Particle)
    requires ProperNames(p)
    ensures Balance(Print(p)) == 0
    decreases p, 0
  {
    hide Balance;
    FixedTexts();
    if p.Particle? && p.term.ElementTerm? {
      NoParentheses(p.term.name);
    } else if p.Particle? && p.term.GroupTerm? {
      ListBalanced(p.term.compositor, p.term.particles);
      BalanceAppend("(" + PrintList(p.term.compositor, p.term.particles), ")");
      BalanceAppend("(", PrintList(p.term.compositor, p.term.particles));
    } else {
      NoParentheses("");
    }
  }

  lemma {:induction false} ListBalanced(c: Compositor, ps: seq<Particle>)
    requires forall i :: 0 <= i < |ps| ==> ProperNames(ps[i])
    ensures Balance(PrintList(c, ps)) == 0
    decreases ps, 1
  {
    hide Balance;
    if ps == [] {
      NoParentheses("");
    } else {
      PrintBalanced(ps[0]);
      if |ps| > 1 {
        ListBalanced(c, ps[1..]);
        BalanceAppend(Print(ps[0]) + [Connector(c)], PrintList(c, ps[1..]));
        ConnectorBalanced(c, Print(ps[0]));
      }
    }
  }

  lemma ConnectorBalanced(c: Compositor, before: string)
    ensures Balance(before + [Connector(c)]) == Balance(before)
  {
    BalanceAppend(before, [Connector(c)]);
    NoParentheses([Connector(c)]);
  }

  lemma {:induction false} CutOpen(p: Particle)
    requires ProperNames(p) && !Filled(p)
    ensures Balance(Cut(p)) > 0
    decreases p, 0
  {
    hide Balance;
    FixedTexts();
    if p.term.particles == [] {
      assert "(" + "" == "(";
    } else {
      ListCutOpen(p.term.compositor, p.term.particles);
      BalanceAppend("(", CutList(p.term.compositor, p.term.particles));
    }
  }

  lemma {:induction false} ListCutOpen(c: Compositor, ps: seq<Particle>)
    requires (forall i :: 0 <= i < |ps| ==> ProperNames(ps[i])) && !AllFilled(ps)
    ensures Balance(CutList(c, ps)) > 0
    decreases ps, 1
  {
    hide Balance;
    if !Filled(ps[0]) {
      CutOpen(ps[0]);
    } else {
      RestNotFilled(ps);
      PrintBalanced(ps[0]);
      ListCutOpen(c, ps[1..]);
      BalanceAppend(Print(ps[0]) + [Connector(c)], CutList(c, ps[1..]));
      ConnectorBalanced(c, Print(ps[0]));
    }
  }

  // -------------------------------------------------------------------------
  //  Main results
  // -------------------------------------------------------------------------

  /** The text of a content model gives back its form. */
  lemma Unambiguous(p: Particle)
    requires Printable(p)
    ensures Parse(Print(p)) == Some(Parsed(FormOf(p), ""))
  {
    ParsePrint(p, "");
    assert Print(p) + "" == Print(p);
  }

  lemma {:induction false} SameFormSameText(p: Particle, q: Particle)
    requires Printable(p) && Printable(q) && FormOf(p) == FormOf(q)
    ensures Print(p) == Print(q)
    decreases p, 0
  {
    if p.Particle? && p.term.GroupTerm? {
      MembersPrintable(p);
      MembersPrintable(q);
      SameFormsSameText(p.term.compositor, p.term.particles, q.term.compositor, q.term.particles);
    }
  }

  lemma {:induction false} SameFormsSameText(c: Compositor, ps: seq<Particle>, d: Compositor, qs: seq<Particle>)
    requires ps != [] && qs != [] && AllPrintable(ps) && AllPrintable(qs)
    requires Forms(ps) == Forms(qs) && (|ps| > 1 ==> c == d)
    ensures PrintList(c, ps) == PrintList(d, qs)
    decreases ps, 1
  {
    assert |Forms(ps)| == |Forms(qs)| && Forms(ps)[0] == Forms(qs)[0];
    SameFormSameText(ps[0], qs[0]);
    if |ps| > 1 {
      assert Forms(ps[1..]) == Forms(ps)[1..] && Forms(qs[1..]) == Forms(qs)[1..];
      SameFormsSameText(c, ps[1..], d, qs[1..]);
    }
  }

  /** Two content models print the same text exactly if they have the same form. */
  lemma SameTextIff(p: Particle, q: Particle)
    requires Printable(p) && Printable(q)
    ensures Print(p) == Print(q) <==> FormOf(p) == FormOf(q)
  {
    Unambiguous(p);
    Unambiguous(q);
    if FormOf(p) == FormOf(q) {
      SameFormSameText(p, q);
    }
  }

  /** What is left when the printer throws is the whole text of no content model. */
  lemma CutIsNoModel(p: Particle, q: Particle)
    requires ProperNames(p) && !Filled(p) && ProperNames(q)
    ensures Cut(p) != Print(q)
  {
    CutOpen(p);
    PrintBalanced(q);
  }

  /** A sequence of an element and an empty choice. */
  lemma EmptyGroupCut()
    ensures var once := (t: Term) => Particle(1, Some(1), t);
            var p := once(GroupTerm(Sequence, [once(ElementTerm("a")), once(GroupTerm(Choice, []))]));
            !Filled(p) && Cut(p) == "(a,("
  {
    var a, empty := Particle(1, Some(1), ElementTerm("a")), Particle(1, Some(1), GroupTerm(Choice, []));
    var p := Particle(1, Some(1), GroupTerm(Sequence, [a, empty]));
    assert p.term.particles[1] == empty && [a, empty][1..] == [empty];
    assert !AllFilled([empty]) by { assert !Filled([empty][0]); }
    assert CutList(Sequence, [empty]) == "(";
    assert CutList(Sequence, [a, empty]) == "a" + "," + "(";
  }
}
