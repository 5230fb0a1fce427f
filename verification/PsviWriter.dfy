/**
 * The PSVI writer. Its methods change the writer's fields and append lines to its output step by step, as
 * the program's do; the ghost field place records which trees those lines spell out.
 */
module PsviWriter {
  import opened CStrings
  import opened Options
  import opened Numerals
  import opened PsviOutput
  import opened PsviComponents
  import opened PsviPlans
  import opened PsviExpansion
  import opened PsviPlaces
  import opened PsviIds
  import opened PsviEvents
  import opened PsviShape
  import Names = PsviNamespaces

  const TAB := '\t'

  class Writer {
    /** The schema components the pointers lead to; the writer does not change them. */
    const graph: Graph

    var output: seq<Token>
    var attrList: seq<Attr>
    var indentChars: array<char>
    var indent: nat
    var indentCap: nat
    var anonNum: nat
    var idMap: map<Obj, string>
    var definedIds: seq<Obj>
    var prefixMap: map<string, string>
    var namespaces: seq<string>
    var nsAttributes: seq<nat>
    var elementChildren: seq<bool>
    var attributesInfo: seq<AttrInfo>
    var baseUri: string

    /** The objects whose id was made with the counter, and the number each one got. */
    ghost var counted: map<Obj, nat>
    /** The prefix each object's namespace had when its id was made. */
    ghost var prefixes: map<Obj, string>
    /** The mentions since the last reset, and those before the callback that is running. */
    ghost var requests: seq<Request>
    ghost var asked: seq<Request>
    /** The trees printed since the last reset. */
    ghost var place: Place
    /** The lines printed before the last reset. */
    ghost var earlier: seq<Token>

    /** The indent buffer holds indent tabs and a terminator, within its allocation. */
    ghost predicate TabsOk()
      reads this`indent, this`indentCap, this`indentChars, indentChars
    {
      && 0 < indentCap && indentChars.Length == indentCap + 1
      && indent <= indentCap
      && (forall k :: 0 <= k < indent ==> indentChars[k] == TAB)
      && indentChars[indent] == NUL
    }

    ghost function Ids(): IdTable
      reads this`idMap, this`prefixes, this`counted, this`anonNum
    {
      IdTable(idMap, prefixes, counted, anonNum)
    }

    ghost function Scope(): Names.Scope
      reads this`namespaces, this`prefixMap
    {
      Names.Scope(namespaces, prefixMap)
    }

    ghost predicate Valid()
      reads this, indentChars
    {
      Settled() && Objects(requests) == MentionedAt(graph, place)
    }

    /** All but that the mentions are those of the trees. */
    ghost predicate Settled()
      reads this, indentChars
    {
      && TabsOk()
      && indent == place.Depth()
      && Traces(graph, idMap, place, earlier, output, definedIds)
      && TableOk(graph, Ids()) && Ids() == MintAll(graph, EmptyTable(), requests)
      && Names.WellFormed(Scope())
    }

    /** Between callbacks: the stack of flags matches the open levels. */
    ghost predicate Between()
      reads this
    {
      Shape(place, elementChildren)
    }

    /** As after construction: no document is being written. */
    ghost predicate AtRest()
      reads this, indentChars
    {
      Valid() && Cleared()
    }

    ghost predicate Cleared()
      reads this
    {
      && indent == 0 && anonNum == FIRST_NUMBER && baseUri == ""
      && idMap == map[] && definedIds == [] && counted == map[] && prefixes == map[]
      && requests == []
      && prefixMap == map[] && namespaces == [] && elementChildren == []
      && place == Idle() && earlier == output
    }

    /** The local components not yet defined: what makes the walk end. */
    ghost function Pending(): set<Obj>
      reads this
    {
      Undefined(graph, definedIds)
    }

    /** The places noted are those the trees shown say. */
    ghost predicate Noted()
      reads this`nsAttributes, this`place
    {
      nsAttributes == NotesAt(graph, place)
    }

    /** The mentions made by the running callback had the prefixes in scope. */
    ghost predicate Asked()
      reads this`requests, this`asked, this`prefixMap, this`namespaces
    {
      AskedIn(graph, Scope(), asked, requests)
    }

    /** What only the callbacks for mappings, attributes and resets change. */
    twostate predicate Kept()
      reads this, indentChars
    {
      KeptRest() && (old(Noted()) ==> Noted())
    }

    /** The same, but for the places noted. */
    twostate predicate KeptRest()
      reads this, indentChars
    {
      && Valid()
      && prefixMap == old(prefixMap) && namespaces == old(namespaces)
      && attributesInfo == old(attributesInfo)
      && baseUri == old(baseUri) && earlier == old(earlier)
      && asked == old(asked) && (old(Asked()) ==> Asked())
      && Pending() <= old(Pending())
      && (indentChars == old(indentChars) || fresh(indentChars))
    }

    /** What no part of the walk changes. */
    twostate predicate Steady()
      reads this, indentChars
    {
      Kept() && elementChildren == old(elementChildren)
    }

    twostate predicate SteadyRest()
      reads this, indentChars
    {
      KeptRest() && elementChildren == old(elementChildren)
    }

    /** The trees f now stand at the innermost level; nothing else changed. */
    twostate predicate Wrote(f: Nodes)
      reads this, indentChars
    {
      Steady() && place == old(place).(done := f)
    }

    /** A level is open inside the old one, with the trees f in it; nothing else changed. */
    twostate predicate Within(tag: Tag, head: Head, f: Nodes)
      reads this, indentChars
    {
      Steady() && place == Place(f, Tagged(tag, head, old(place)))
    }

    // -----------------------------------------------------------------------
    //  The indent buffer
    // -----------------------------------------------------------------------

    method IncIndent()
      requires TabsOk()
      modifies this`indent, this`indentCap, this`indentChars, indentChars
      ensures TabsOk() && indent == old(indent) + 1
      ensures indentCap == if old(indent) >= old(indentCap) then 2 * old(indentCap) else old(indentCap)
      ensures indentChars == old(indentChars) || fresh(indentChars)
    {
      if indent >= indentCap {
        indentCap := indentCap * 2;
        var temp := new char[indentCap + 1](_ => NUL);
        var n := StringLength(indentChars);
        forall k | 0 <= k <= n {
          temp[k] := indentChars[k];
        }
        indentChars := temp;
      }
      assert indentChars[indent] == NUL;
      var end := StringLength(indentChars);
      indentChars[end] := TAB;
      indentChars[end + 1] := NUL;
      indent := indent + 1;
    }

    method DecIndent()
      requires TabsOk() && 0 < indent
      modifies this`indent, indentChars
      ensures TabsOk() && indent == old(indent) - 1
    {
      var n := StringLength(indentChars);
      indentChars[n - 1] := NUL;
      indent := indent - 1;
    }

    // -----------------------------------------------------------------------
    //  Lines; the indent printed is the text of the indent buffer
    // -----------------------------------------------------------------------

    method WriteOpen(tag: Tag, attrs: seq<Attr>)
      requires TabsOk()
      modifies this`output
      ensures output == old(output) + [Open(indent, tag, attrs)]
    {
      var n := StringLength(indentChars);
      output := output + [Open(n, tag, attrs)];
    }

    method WriteClose(tag: Tag)
      requires TabsOk()
      modifies this`output
      ensures output == old(output) + [Close(indent, tag)]
    {
      var n := StringLength(indentChars);
      output := output + [Close(n, tag)];
    }

    method WriteEmpty(tag: Tag, attrs: seq<Attr>)
      requires TabsOk()
      modifies this`output
      ensures output == old(output) + [Empty(indent, tag, attrs)]
    {
      var n := StringLength(indentChars);
      output := output + [Empty(n, tag, attrs)];
    }

    method WriteText(tag: Tag, text: string)
      requires TabsOk()
      modifies this`output
      ensures output == old(output) + [Token.Value(indent, tag, text)]
    {
      var n := StringLength(indentChars);
      output := output + [Token.Value(n, tag, text)];
    }

    method WriteCommentStart()
      requires TabsOk()
      modifies this`output
      ensures output == old(output) + [CommentStart(indent)]
    {
      var n := StringLength(indentChars);
      output := output + [CommentStart(n)];
    }

    method WriteCommentEnd()
      requires TabsOk()
      modifies this`output
      ensures output == old(output) + [CommentEnd(indent)]
    {
      var n := StringLength(indentChars);
      output := output + [CommentEnd(n)];
    }

    /** An opening line; what follows is indented by one more tab. */
    method WriteLevel(tag: Tag, attrs: seq<Attr>)
      requires TabsOk()
      modifies this`output, this`indent, this`indentCap, this`indentChars, indentChars
      ensures TabsOk() && indent == old(indent) + 1 && output == old(output) + [Open(old(indent), tag, attrs)]
      ensures indentChars == old(indentChars) || fresh(indentChars)
    {
      hide TabsOk;
      WriteOpen(tag, attrs);
      IncIndent();
    }

    method WriteCommentLevel()
      requires TabsOk()
      modifies this`output, this`indent, this`indentCap, this`indentChars, indentChars
      ensures TabsOk() && indent == old(indent) + 1 && output == old(output) + [CommentStart(old(indent))]
      ensures indentChars == old(indentChars) || fresh(indentChars)
    {
      hide TabsOk;
      WriteCommentStart();
      IncIndent();
    }

    // -----------------------------------------------------------------------
    //  Ids
    // -----------------------------------------------------------------------

    /** The prefix of a namespace, empty if it has none. */
    method PrefixFor(uri: string) returns (prefix: string)
      ensures prefix == Names.PrefixOf(Scope(), uri)
    {
      prefix := if uri in prefixMap then prefixMap[uri] else "";
    }

    method CreateId(o: Obj) returns (result: string)
      requires o in graph && o !in idMap
      modifies this`anonNum, this`counted
      ensures result == NewId(graph[o], Names.PrefixOf(Scope(), graph[o].Namespace()), old(anonNum))
      ensures if NeedsNumber(graph[o], Names.PrefixOf(Scope(), graph[o].Namespace()))
              then anonNum == old(anonNum) + 1 && counted == old(counted)[o := old(anonNum)]
              else anonNum == old(anonNum) && counted == old(counted)
    {
      var x := graph[o];
      var objPrefix := PrefixFor(x.Namespace());
      if x.Namespace() == XML_SCHEMA_URI {
        result := x.Name();
      } else {
        var hasPrefix := objPrefix != "";
        if hasPrefix {
          result := objPrefix + "." + KindText(x);
        } else {
          result := KindText(x);
        }
        result := result + ".";
        if x.IsAnonymous() {
          result := result + "anon_" + Decimal(anonNum);
          counted := counted[o := anonNum];
          anonNum := anonNum + 1;
        } else {
          result := result + x.Name();
          if !hasPrefix {
            result := result + "." + Decimal(anonNum);
            counted := counted[o := anonNum];
            anonNum := anonNum + 1;
          }
        }
      }
    }

    method GetIdName(o: Obj) returns (id: string)
      requires o in graph && TableOk(graph, Ids())
      modifies this`idMap, this`anonNum, this`counted, this`prefixes
      ensures Ids() == Mint(old(Ids()), o, graph[o], Names.PrefixOf(Scope(), graph[o].Namespace()))
      ensures TableOk(graph, Ids()) && Extends(old(idMap), idMap)
      ensures o in idMap && id == idMap[o]
    {
      hide TableOk, NewId, NeedsNumber;
      MintOk(graph, Ids(), o, Names.PrefixOf(Scope(), graph[o].Namespace()));
      if o in idMap {
        id := idMap[o];
      } else {
        id := AddId(o);
      }
    }

    method AddId(o: Obj) returns (id: string)
      requires o in graph && o !in idMap
      modifies this`idMap, this`anonNum, this`counted, this`prefixes
      ensures Ids() == Mint(old(Ids()), o, graph[o], Names.PrefixOf(Scope(), graph[o].Namespace()))
      ensures o in idMap && id == idMap[o]
    {
      hide NewId, NeedsNumber;
      id := CreateId(o);
      idMap := idMap[o := id];
      prefixes := prefixes[o := Names.PrefixOf(Scope(), graph[o].Namespace())];
    }

    /** An id for o; what was printed before still reads the same, and o is about to be printed. */
    method GiveId(o: Obj) returns (id: string)
      requires Valid() && o in graph
      modifies this`idMap, this`anonNum, this`counted, this`prefixes, this`requests
      ensures Settled() && Objects(requests) == MentionedAt(graph, place) + [o] && o in idMap && id == idMap[o]
      ensures old(Asked()) ==> Asked()
    {
      hide TabsOk, Traces, NotesAt, MentionedAt, MintAll, TableOk, AllLinked;
      hide Mint;
      ghost var ids, r := idMap, Request(o, Names.PrefixOf(Scope(), graph[o].Namespace()));
      MintAllMore(graph, EmptyTable(), requests, r);
      AskOne(r);
      id := GetIdName(o);
      requests := requests + [r];
      NewIdsTrace(graph, ids, idMap, place, earlier, output, definedIds);
    }

    lemma AskOne(r: Request)
      requires r.obj in graph && r.prefix == Names.PrefixOf(Scope(), graph[r.obj].Namespace())
      ensures Objects(requests + [r]) == Objects(requests) + [r.obj]
      ensures Asked() ==> AskedIn(graph, Scope(), asked, requests + [r])
    {
    }

    // -----------------------------------------------------------------------
    //  Elements
    // -----------------------------------------------------------------------

    method SendElementEmpty(tag: Tag)
      requires Valid()
      modifies this
      ensures Wrote(old(place.done).Absent(tag)) && nsAttributes == old(nsAttributes)
      ensures definedIds == old(definedIds)
    {
      hide Settled, NotesAt, MentionedAt, Asked, AllLinked;
      LineRecords(graph, place, Node.Nil(tag));
      PutNil(tag);
    }

    method PutNil(tag: Tag)
      requires Settled()
      modifies this`output, this`attrList, this`place
      ensures Settled() && place == Append(old(place), Node.Nil(tag))
    {
      hide TabsOk, Traces, MintAll, TableOk, AllLinked, Names.WellFormed;
      LineTraces(graph, idMap, place, earlier, output, definedIds, Node.Nil(tag));
      attrList := [Attr(XsiNil, "true")];
      WriteEmpty(tag, attrList);
      place := Append(place, Node.Nil(tag));
    }

    method SendBlank(tag: Tag)
      requires Valid()
      modifies this
      ensures Wrote(old(place.done).Blank(tag)) && nsAttributes == old(nsAttributes)
    {
      hide Settled, NotesAt, MentionedAt, Asked, AllLinked;
      LineRecords(graph, place, Bare(tag));
      PutBare(tag);
    }

    method PutBare(tag: Tag)
      requires Settled()
      modifies this`output, this`place
      ensures Settled() && place == Append(old(place), Bare(tag))
    {
      hide TabsOk, Traces, MintAll, TableOk, AllLinked, Names.WellFormed;
      LineTraces(graph, idMap, place, earlier, output, definedIds, Bare(tag));
      WriteEmpty(tag, []);
      place := Append(place, Bare(tag));
    }

    method SendText(tag: Tag, text: string)
      requires Valid()
      modifies this
      ensures Wrote(old(place.done).Written(tag, text)) && nsAttributes == old(nsAttributes)
      ensures definedIds == old(definedIds)
    {
      hide Settled, NotesAt, MentionedAt, Asked, AllLinked;
      LineRecords(graph, place, Text(tag, text));
      PutText(tag, text);
    }

    method PutText(tag: Tag, text: string)
      requires Settled()
      modifies this`output, this`place
      ensures Settled() && place == Append(old(place), Text(tag, text))
    {
      hide TabsOk, Traces, MintAll, TableOk, AllLinked, Names.WellFormed;
      LineTraces(graph, idMap, place, earlier, output, definedIds, Text(tag, text));
      WriteText(tag, text);
      place := Append(place, Text(tag, text));
    }

    method SendElementValueInt(tag: Tag, value: nat)
      requires Valid()
      modifies this
      ensures Wrote(old(place.done).Int(tag, value)) && nsAttributes == old(nsAttributes)
    {
      SendText(tag, Decimal(value));
    }

    method SendElementValue(tag: Tag, value: string)
      requires Valid()
      modifies this
      ensures Wrote(old(place.done).Val(tag, value)) && nsAttributes == old(nsAttributes)
      ensures definedIds == old(definedIds)
    {
      if value == "" {
        SendElementEmpty(tag);
      } else {
        SendText(tag, value);
      }
    }

    method SendElementValueList(tag: Tag, values: Option<seq<string>>)
      requires Valid()
      modifies this
      ensures Wrote(old(place.done).List(tag, values)) && nsAttributes == old(nsAttributes)
    {
      if values.None? {
        SendElementEmpty(tag);
      } else {
        var text := "";
        for i := 0 to |values.value|
          invariant text == Spaced(values.value, i)
        {
          text := text + values.value[i] + " ";
        }
        SendText(tag, text);
      }
    }

    method SendIndentedElement(tag: Tag)
      requires Valid()
      modifies this, indentChars
      ensures Within(tag, Plain, Start) && nsAttributes == old(nsAttributes)
      ensures definedIds == old(definedIds)
    {
      hide Settled, NotesAt, MentionedAt, Asked, AllLinked;
      EnterRecords(graph, place, Tagged(tag, Plain, place));
      EnterLevel(tag);
    }

    method EnterLevel(tag: Tag)
      requires Settled()
      modifies this`output, this`indent, this`indentCap, this`indentChars, this`place, indentChars
      ensures Settled() && place == Enter(old(place), tag, Plain)
      ensures indentChars == old(indentChars) || fresh(indentChars)
    {
      hide TabsOk, Traces, MintAll, TableOk, AllLinked, Names.WellFormed;
      assert definedIds + [] == definedIds;
      EnterTraces(graph, idMap, place, earlier, output, definedIds, tag, Plain);
      WriteLevel(tag, []);
      place := Enter(place, tag, Plain);
    }

    method SendIndentedElementWithId(tag: Tag, o: Obj)
      requires Valid() && o in graph
      modifies this, indentChars
      ensures Within(tag, Named(o), Start)
      ensures Pending() == old(Pending()) - {o}
    {
      hide Valid, Settled, Noted, Asked, TabsOk, Traces, TableOk, AllLinked;
      var id := GiveId(o);
      DefineHere(tag, o, id);
    }

    method DefineHere(tag: Tag, o: Obj, id: string)
      requires Settled() && Objects(requests) == MentionedAt(graph, place) + [o]
      requires o in idMap && id == idMap[o]
      modifies this, indentChars
      ensures Within(tag, Named(o), Start)
      ensures Pending() == old(Pending()) - {o}
    {
      hide Settled, NotesAt, MentionedAt, Asked, AllLinked, Undefined;
      UndefinedAfter(graph, definedIds, o);
      EnterRecords(graph, place, Tagged(tag, Named(o), place));
      EnterDefinition(tag, o, id);
    }

    method EnterDefinition(tag: Tag, o: Obj, id: string)
      requires Settled() && o in idMap && id == idMap[o]
      modifies this`output, this`indent, this`indentCap, this`indentChars, this`place, this`definedIds, this`attrList,
               indentChars
      ensures Settled() && place == Enter(old(place), tag, Named(o)) && definedIds == old(definedIds) + [o]
      ensures indentChars == old(indentChars) || fresh(indentChars)
    {
      hide TabsOk, Traces, MintAll, TableOk, AllLinked, Names.WellFormed, HeadAttrs;
      NamedAttrs(o);
      EnterTraces(graph, idMap, place, earlier, output, definedIds, tag, Named(o));
      definedIds := definedIds + [o];
      attrList := [Attr(Id, id)];
      WriteLevel(tag, attrList);
      place := Enter(place, tag, Named(o));
    }

    lemma NamedAttrs(o: Obj)
      requires o in idMap
      ensures HeadAttrs(idMap, Named(o)) == [Attr(Id, idMap[o])]
    {
    }

    method SendUnindentedElement(tag: Tag)
      requires Valid() && place.around.Tagged? && place.around.tag == tag
      modifies this, indentChars
      ensures Steady() && place == Leave(old(place)) && nsAttributes == old(nsAttributes)
    {
      hide Settled, NotesAt, MentionedAt, Asked, AllLinked;
      LeaveRecords(graph, place);
      LeaveLevel(tag);
    }

    method LeaveLevel(tag: Tag)
      requires Settled() && place.around.Tagged? && place.around.tag == tag
      modifies this`output, this`indent, this`place, indentChars
      ensures Settled() && place == Leave(old(place))
    {
      hide TabsOk, Traces, MintAll, TableOk, AllLinked, Names.WellFormed;
      LeaveTraces(graph, idMap, place, earlier, output, definedIds);
      DecIndent();
      WriteClose(tag);
      place := Leave(place);
    }

    method OpenComment()
      requires Valid()
      modifies this, indentChars
      ensures Steady() && place == Place(Start, Commented(old(place)))
      ensures nsAttributes == old(nsAttributes)
    {
      hide Settled, NotesAt, MentionedAt, Asked, AllLinked;
      EnterRecords(graph, place, Commented(place));
      EnterComment();
    }

    method EnterComment()
      requires Settled()
      modifies this`output, this`indent, this`indentCap, this`indentChars, this`place, indentChars
      ensures Settled() && place == Place(Start, Commented(old(place)))
      ensures indentChars == old(indentChars) || fresh(indentChars)
    {
      hide TabsOk, Traces, MintAll, TableOk, AllLinked, Names.WellFormed;
      CommentTraces(graph, idMap, place, earlier, output, definedIds);
      WriteCommentLevel();
      place := Place(Start, Commented(place));
    }

    method CloseComment()
      requires Valid() && place.around.Commented?
      modifies this, indentChars
      ensures Steady() && place == Leave(old(place)) && nsAttributes == old(nsAttributes)
    {
      hide Settled, NotesAt, MentionedAt, Asked, AllLinked;
      LeaveRecords(graph, place);
      LeaveComment();
    }

    method LeaveComment()
      requires Settled() && place.around.Commented?
      modifies this`output, this`indent, this`place, indentChars
      ensures Settled() && place == Leave(old(place))
    {
      hide TabsOk, Traces, MintAll, TableOk, AllLinked, Names.WellFormed;
      LeaveTraces(graph, idMap, place, earlier, output, definedIds);
      DecIndent();
      WriteCommentEnd();
      place := Leave(place);
    }

    /** A comment with one element in it. */
    method OpenInComment(tag: Tag)
      requires Valid()
      modifies this, indentChars
      ensures Steady() && nsAttributes == old(nsAttributes)
      ensures place == Enter(Place(Start, Commented(old(place))), tag, Plain)
    {
      hide Valid, Noted, Asked, TabsOk, Traces, TableOk, Pending;
      OpenComment();
      SendIndentedElement(tag);
    }

    method CloseInComment(tag: Tag)
      requires Valid() && place.around.Tagged? && place.around.tag == tag && place.around.outer.around.Commented?
      modifies this, indentChars
      ensures Steady() && nsAttributes == old(nsAttributes) && place == Leave(Leave(old(place)))
    {
      hide Valid, Noted, Asked, TabsOk, Traces, TableOk, Pending;
      SendUnindentedElement(tag);
      CloseComment();
    }

    method SendReference(tag: Tag, o: Option<Obj>)
      requires Valid() && AnyLink(graph, o)
      modifies this
      ensures Wrote(old(place.done).Ref(tag, o)) && nsAttributes == old(nsAttributes)
    {
      if o.None? {
        SendElementEmpty(tag);
      } else {
        SendLink(tag, o.value);
      }
    }

    method SendLink(tag: Tag, o: Obj)
      requires Valid() && o in graph
      modifies this
      ensures Wrote(More(old(place.done), Link(tag, o, false))) && nsAttributes == old(nsAttributes)
    {
      hide Valid, Settled, Noted, Asked, TabsOk, Traces, TableOk, Names.WellFormed;
      var id := GiveId(o);
      WriteLink(tag, o, id);
    }

    method WriteLink(tag: Tag, o: Obj, id: string)
      requires Settled() && Objects(requests) == MentionedAt(graph, place) + [o]
      requires o in idMap && id == idMap[o]
      modifies this
      ensures Wrote(More(old(place.done), Link(tag, o, false))) && nsAttributes == old(nsAttributes)
    {
      hide TabsOk, Traces, NotesAt, MentionedAt, MintAll, Asked, TableOk, AllLinked, Names.WellFormed, RenderNode,
           RefAttrs;
      LinkLine(tag, o);
      LineTraces(graph, idMap, place, earlier, output, definedIds, Link(tag, o, false));
      LineRecords(graph, place, Link(tag, o, false));
      attrList := [Attr(Ref, id), Attr(XsiNil, "true")];
      WriteEmpty(tag, attrList);
      place := Append(place, Link(tag, o, false));
    }

    lemma LinkLine(tag: Tag, o: Obj)
      requires o in idMap
      ensures RenderNode(indent, idMap, Link(tag, o, false))
           == [Empty(indent, tag, [Attr(Ref, idMap[o]), Attr(XsiNil, "true")])]
    {
    }

    // -----------------------------------------------------------------------
    //  Annotations
    // -----------------------------------------------------------------------

    method SendDomAttribute(attr: DomAttr)
      requires Valid()
      modifies this, indentChars
      ensures Wrote(old(place.done).Group(Attribute, DomAttrBody(attr)))
      ensures nsAttributes == old(nsAttributes)
    {
      hide Valid, Noted, Asked, TabsOk, Traces, TableOk, Pending, Plainly, PlainlyBut, Joined, DomAttrBody;
      SendIndentedElement(Attribute);
      SendDomAttributeBody(attr);
      SendUnindentedElement(Attribute);
    }

    method SendDomAttributeBody(attr: DomAttr)
      requires Valid() && place.done == Start
      modifies this, indentChars
      ensures Wrote(DomAttrBody(attr)) && nsAttributes == old(nsAttributes)
    {
      hide Valid, Noted, Asked, TabsOk, Traces, TableOk, Pending, Plainly, PlainlyBut, Joined;
      SendElementValue(NamespaceName, attr.namespace);
      SendElementValue(LocalName, attr.localName);
      SendElementValue(Prefix, attr.prefix);
      SendElementValue(NormalizedValue, attr.value);
      SendElementValue(Specified, BoolText(attr.specified));
      SendElementValue(AttributeType, attr.typeName);
      SendElementEmpty(References);
    }

    /** Ordinary attributes are shown at once; namespace declarations are noted and shown afterwards. */
    method ProcessDOMAttributes(attrs: seq<DomAttr>)
      requires Valid()
      modifies this, indentChars
      ensures Wrote(DomAttributes(old(place.done), attrs))
    {
      hide Valid, Noted, Asked, TabsOk, Traces, TableOk, Pending, Plainly, PlainlyBut, Joined, AttrGroup, Select,
           NamespaceIndices;
      ProcessPlainDOMAttributes(attrs);
      ProcessDOMNamespaces(attrs);
      RecordNotes();
    }

    method ProcessPlainDOMAttributes(attrs: seq<DomAttr>)
      requires Valid()
      modifies this, indentChars
      ensures SteadyRest() && nsAttributes == NamespaceIndices(attrs, |attrs|)
      ensures place == old(place).(done := AttrGroup(old(place.done), Attributes, Select(attrs, |attrs|, false)))
    {
      hide Valid, Noted, Asked, TabsOk, Traces, TableOk, Pending, Plainly, PlainlyBut, Joined, DomAttrBody, AttrGroup,
           AttrPlace;
      ClearNamespaceAttributes();
      var firstFlag := true;
      ghost var pre := place;
      SelectNone(attrs, pre);
      for count := 0 to |attrs|
        invariant SteadyRest() && nsAttributes == NamespaceIndices(attrs, count)
        invariant firstFlag <==> Select(attrs, count, false) == []
        invariant place == AttrPlace(pre, Select(attrs, count, false))
      {
        firstFlag := ProcessDOMAttribute(attrs[count], count, firstFlag, pre, Select(attrs, count, false));
      }
      EndDOMAttributes(firstFlag, pre, Select(attrs, |attrs|, false));
    }

    /** The trees say which places are noted. */
    ghost method RecordNotes()
      requires Valid()
      modifies this`place
      ensures SteadyRest() && Noted() && place == old(place).(done := old(place.done).Marked(nsAttributes))
      ensures nsAttributes == old(nsAttributes)
    {
      hide TabsOk, Traces, NotesAt, MentionedAt, MintAll, Asked, TableOk, AllLinked, Names.WellFormed;
      MarkTraces(graph, idMap, place, earlier, output, definedIds, nsAttributes);
      MarkRecords(graph, place, nsAttributes);
      place := Append(place, Mark(nsAttributes));
    }

    method ClearNamespaceAttributes()
      requires Valid()
      modifies this`nsAttributes
      ensures SteadyRest() && place == old(place) && nsAttributes == []
    {
      nsAttributes := [];
    }

    method NoteNamespaceAttribute(index: nat)
      requires Valid()
      modifies this`nsAttributes
      ensures SteadyRest() && place == old(place) && nsAttributes == old(nsAttributes) + [index]
    {
      nsAttributes := nsAttributes + [index];
    }

    method ProcessDOMAttribute(attr: DomAttr, count: nat, firstFlag: bool, ghost pre: Place, ghost plain: seq<DomAttr>)
      returns (stillFirst: bool)
      requires Valid() && place == AttrPlace(pre, plain) && (firstFlag <==> plain == [])
      modifies this, indentChars
      ensures SteadyRest()
      ensures IsNamespaceDecl(attr) ==>
                stillFirst == firstFlag && place == old(place) && nsAttributes == old(nsAttributes) + [count]
      ensures !IsNamespaceDecl(attr) ==>
                !stillFirst && place == AttrPlace(pre, plain + [attr]) && nsAttributes == old(nsAttributes)
    {
      if IsNamespaceDecl(attr) {
        NoteNamespaceAttribute(count);
        stillFirst := firstFlag;
      } else {
        ShowDOMAttribute(attr, firstFlag, pre, plain);
        stillFirst := false;
      }
    }

    method ShowDOMAttribute(attr: DomAttr, firstFlag: bool, ghost pre: Place, ghost plain: seq<DomAttr>)
      requires Valid() && place == AttrPlace(pre, plain) && (firstFlag <==> plain == [])
      modifies this, indentChars
      ensures Steady() && place == AttrPlace(pre, plain + [attr]) && nsAttributes == old(nsAttributes)
    {
      hide Valid, Noted, Asked, TabsOk, Traces, TableOk, Pending, Plainly, PlainlyBut, Joined, DomAttrBody;
      BeginDOMAttributes(firstFlag, pre, plain);
      DomAttrNodesMore(plain, attr);
      SendDomAttribute(attr);
    }

    method BeginDOMAttributes(firstFlag: bool, ghost pre: Place, ghost plain: seq<DomAttr>)
      requires Valid() && place == AttrPlace(pre, plain) && (firstFlag <==> plain == [])
      modifies this, indentChars
      ensures Steady() && nsAttributes == old(nsAttributes)
      ensures place == Place(DomAttrNodes(plain), Tagged(Attributes, Plain, pre))
    {
      if firstFlag {
        SendIndentedElement(Attributes);
      }
    }

    method EndDOMAttributes(firstFlag: bool, ghost pre: Place, ghost plain: seq<DomAttr>)
      requires Valid() && place == AttrPlace(pre, plain) && (firstFlag <==> plain == [])
      modifies this, indentChars
      ensures Steady() && place == pre.(done := AttrGroup(pre.done, Attributes, plain))
      ensures nsAttributes == old(nsAttributes)
    {
      if firstFlag {
        SendBlank(Attributes);
      } else {
        SendUnindentedElement(Attributes);
      }
    }

    method ProcessDOMNamespaces(attrs: seq<DomAttr>)
      requires Valid() && nsAttributes == NamespaceIndices(attrs, |attrs|)
      modifies this, indentChars
      ensures Wrote(AttrGroup(old(place.done), NamespaceAttributes, Select(attrs, |attrs|, true)))
      ensures nsAttributes == old(nsAttributes)
    {
      IndicesSelect(attrs, |attrs|);
      if |nsAttributes| == 0 {
        SendBlank(NamespaceAttributes);
      } else {
        SendDOMNamespaces(attrs, Select(attrs, |attrs|, true));
      }
    }

    method SendDOMNamespaces(attrs: seq<DomAttr>, ghost wanted: seq<DomAttr>)
      requires Valid() && |nsAttributes| == |wanted|
      requires forall k :: 0 <= k < |wanted| ==> nsAttributes[k] < |attrs| && wanted[k] == attrs[nsAttributes[k]]
      modifies this, indentChars
      ensures Wrote(old(place.done).Group(NamespaceAttributes, DomAttrNodes(wanted)))
      ensures nsAttributes == old(nsAttributes)
    {
      hide Valid, Noted, Asked, TabsOk, Traces, TableOk, Pending, Plainly, PlainlyBut, Joined, DomAttrNodes;
      SendIndentedElement(NamespaceAttributes);
      SendEachNamespace(attrs, wanted);
      SendUnindentedElement(NamespaceAttributes);
    }

    method SendEachNamespace(attrs: seq<DomAttr>, ghost wanted: seq<DomAttr>)
      requires Valid() && |nsAttributes| == |wanted| && place.done == Start
      requires forall k :: 0 <= k < |wanted| ==> nsAttributes[k] < |attrs| && wanted[k] == attrs[nsAttributes[k]]
      modifies this, indentChars
      ensures Wrote(DomAttrNodes(wanted)) && nsAttributes == old(nsAttributes)
    {
      hide Valid, Noted, Asked, TabsOk, Traces, TableOk, Pending, Plainly, PlainlyBut, Joined, DomAttrNodes;
      NoDomAttributes();
      assert wanted[..0] == [];
      for k := 0 to |nsAttributes|
        invariant nsAttributes == old(nsAttributes)
        invariant Wrote(DomAttrNodes(wanted[..k]))
      {
        assert wanted[..k + 1] == wanted[..k] + [wanted[k]];
        SendNextDomAttribute(attrs[nsAttributes[k]], wanted[..k]);
      }
      assert wanted[..|wanted|] == wanted;
    }

    lemma NoDomAttributes()
      ensures DomAttrNodes([]) == Start
    {
    }

    method SendNextDomAttribute(attr: DomAttr, ghost before: seq<DomAttr>)
      requires Valid() && place.done == DomAttrNodes(before)
      modifies this, indentChars
      ensures Wrote(DomAttrNodes(before + [attr])) && nsAttributes == old(nsAttributes)
    {
      hide Valid, Noted, Asked, TabsOk, Traces, TableOk, Pending, Plainly, PlainlyBut, Joined, DomAttrBody,
           DomAttrNodes;
      DomAttrNodesMore(before, attr);
      SendDomAttribute(attr);
    }

    method ProcessDOMElement(encloseName: Tag, elems: seq<DomElement>)
      requires Valid()
      modifies this, indentChars
      ensures Wrote(DomElements(old(place.done), encloseName, elems))
    {
      if |elems| == 0 {
        SendElementEmpty(encloseName);
      } else {
        SendDOMElements(encloseName, elems);
      }
    }

    method SendDOMElements(encloseName: Tag, elems: seq<DomElement>)
      requires Valid()
      modifies this, indentChars
      ensures Wrote(old(place.done).Group(encloseName, DomElementNodes(elems, |elems|)))
    {
      hide Valid, Noted, Asked, TabsOk, Traces, TableOk, Pending, Plainly, PlainlyBut, Joined, DomElementNodes;
      SendIndentedElement(encloseName);
      SendEachDOMElement(elems);
      SendUnindentedElement(encloseName);
    }

    method SendEachDOMElement(elems: seq<DomElement>)
      requires Valid() && place.done == Start
      modifies this, indentChars
      ensures Wrote(DomElementNodes(elems, |elems|))
    {
      hide Valid, Noted, Asked, TabsOk, Traces, TableOk, Pending, Plainly, PlainlyBut, Joined, DomElementBody;
      for i := 0 to |elems|
        invariant Wrote(DomElementNodes(elems, i))
      {
        SendDOMElement(elems[i]);
      }
    }

    method SendDOMElement(elem: DomElement)
      requires Valid()
      modifies this, indentChars
      ensures Wrote(old(place.done).Group(Element, DomElementBody(elem)))
    {
      hide Valid, Noted, Asked, TabsOk, Traces, TableOk, Pending, Plainly, PlainlyBut, Joined, DomElementBody;
      SendIndentedElement(Element);
      SendDOMElementBody(elem);
      SendUnindentedElement(Element);
    }

    method SendDOMElementBody(elem: DomElement)
      requires Valid() && place.done == Start
      modifies this, indentChars
      ensures Wrote(DomElementBody(elem))
    {
      hide Valid, Noted, Asked, TabsOk, Traces, TableOk, Pending, Plainly, PlainlyBut, Joined, DomAttributes;
      SendElementValue(NamespaceName, elem.namespace);
      SendElementValue(LocalName, elem.localName);
      SendElementValue(Prefix, elem.prefix);
      SendDOMText(elem.text);
      ProcessDOMAttributes(elem.attrs);
    }

    method SendDOMText(text: string)
      requires Valid()
      modifies this, indentChars
      ensures Wrote(old(place.done).Group(Children, Start.Group(Character, Start.Val(TextContent, text))))
    {
      hide Valid, Noted, Asked, TabsOk, Traces, TableOk, Pending, Plainly, PlainlyBut, Joined;
      SendIndentedElement(Children);
      SendTextChild(Character, TextContent, text);
      SendUnindentedElement(Children);
    }

    method ProcessAnnotation(annotation: Annotation)
      requires Valid()
      modifies this, indentChars
      ensures Wrote(AnnotationPlan(old(place.done), annotation))
    {
      if annotation.NoAnnotation? {
        SendElementEmpty(Tag.Annotation);
      } else {
        ProcessAnnotationChain(annotation);
      }
    }

    method ProcessAnnotationChain(annotation: Annotation)
      requires Valid()
      modifies this, indentChars
      ensures Wrote(AnnotationChain(old(place.done), annotation))
    {
      hide Valid, Noted, Asked, TabsOk, Traces, TableOk, Pending, Plainly, PlainlyBut, Joined, AnnotationBody;
      var annot := annotation;
      while annot.Annotation?
        invariant Steady() && place == old(place).(done := place.done)
        invariant AnnotationChain(place.done, annot) == AnnotationChain(old(place.done), annotation)
        decreases annot
      {
        SendAnnotation(annot);
        annot := annot.next;
      }
    }

    method SendAnnotation(annot: Annotation)
      requires Valid() && annot.Annotation?
      modifies this, indentChars
      ensures Wrote(old(place.done).Group(Tag.Annotation, AnnotationBody(annot)))
    {
      hide Valid, Noted, Asked, TabsOk, Traces, TableOk, Pending, Plainly, PlainlyBut, Joined, AnnotationBody;
      SendIndentedElement(Tag.Annotation);
      SendAnnotationBody(annot);
      SendUnindentedElement(Tag.Annotation);
    }

    method SendAnnotationBody(annot: Annotation)
      requires Valid() && annot.Annotation? && place.done == Start
      modifies this, indentChars
      ensures Wrote(AnnotationBody(annot))
    {
      hide Valid, Noted, Asked, TabsOk, Traces, TableOk, Pending, Plainly, PlainlyBut, Joined, DomElements,
           DomAttributes;
      ProcessDOMElement(ApplicationInformation, annot.appInfos);
      ProcessDOMElement(UserInformation, annot.documentations);
      ProcessDOMAttributes(annot.attrs);
    }

    method ProcessAnnotations(annotations: Option<seq<Annotation>>)
      requires Valid()
      modifies this, indentChars
      ensures Wrote(AnnotationsPlan(old(place.done), annotations))
    {
      if annotations.None? {
        SendElementEmpty(Annotations);
      } else {
        SendAnnotations(Annotations, annotations.value);
      }
    }

    method SendAnnotations(tag: Tag, annotations: seq<Annotation>)
      requires Valid()
      modifies this, indentChars
      ensures Wrote(old(place.done).Group(tag, AnnotationNodes(annotations, |annotations|)))
    {
      hide Valid, Noted, Asked, TabsOk, Traces, TableOk, Pending, Plainly, PlainlyBut, Joined, AnnotationNodes;
      SendIndentedElement(tag);
      SendEachAnnotation(annotations);
      SendUnindentedElement(tag);
    }

    method SendEachAnnotation(annotations: seq<Annotation>)
      requires Valid() && place.done == Start
      modifies this, indentChars
      ensures Wrote(AnnotationNodes(annotations, |annotations|))
    {
      hide Valid, Noted, Asked, TabsOk, Traces, TableOk, Pending, Plainly, PlainlyBut, Joined, AnnotationPlan;
      for i := 0 to |annotations|
        invariant Wrote(AnnotationNodes(annotations, i))
      {
        ProcessAnnotation(annotations[i]);
      }
    }

    // -----------------------------------------------------------------------
    //  Parts of components that lead to no other component
    // -----------------------------------------------------------------------

    method ProcessWildcard(wildcard: Wildcard)
      requires Valid()
      modifies this, indentChars
      ensures Wrote(WildcardPlan(old(place.done), wildcard))
    {
      if wildcard.NoWildcard? {
        SendElementEmpty(Tag.Wildcard);
      } else {
        SendWildcard(wildcard);
      }
    }

    method SendWildcard(wildcard: Wildcard)
      requires Valid() && wildcard.Wildcard?
      modifies this, indentChars
      ensures Wrote(old(place.done).Group(Tag.Wildcard, WildcardBody(wildcard)))
    {
      hide Valid, Noted, Asked, TabsOk, Traces, TableOk, Pending, Plainly, PlainlyBut, Joined, WildcardBody;
      SendIndentedElement(Tag.Wildcard);
      SendWildcardBody(wildcard);
      SendUnindentedElement(Tag.Wildcard);
    }

    method SendWildcardBody(wildcard: Wildcard)
      requires Valid() && wildcard.Wildcard? && place.done == Start
      modifies this, indentChars
      ensures Wrote(WildcardBody(wildcard))
    {
      hide Valid, Noted, Asked, TabsOk, Traces, TableOk, Pending, Plainly, PlainlyBut, Joined, ConstraintBody,
           AnnotationPlan;
      SendNamespaceConstraint(wildcard.constraint);
      SendElementValue(ProcessContents, wildcard.processContents);
      ProcessAnnotation(wildcard.annotation);
    }

    method SendNamespaceConstraint(constraint: NamespaceConstraint)
      requires Valid()
      modifies this, indentChars
      ensures Wrote(old(place.done).Group(Tag.NamespaceConstraint, ConstraintBody(constraint)))
    {
      hide Valid, Noted, Asked, TabsOk, Traces, TableOk, Pending, Plainly, PlainlyBut, Joined, ConstraintBody;
      SendIndentedElement(Tag.NamespaceConstraint);
      SendConstraint(constraint);
      SendUnindentedElement(Tag.NamespaceConstraint);
    }

    method SendConstraint(constraint: NamespaceConstraint)
      requires Valid() && place.done == Start
      modifies this, indentChars
      ensures Wrote(ConstraintBody(constraint))
    {
      if constraint.AnyNamespace? {
        SendElementValue(Variety, "any");
        SendElementEmpty(Namespaces);
      } else if constraint.DerivationList? {
        SendElementEmpty(Variety);
        SendElementValueList(Namespaces, constraint.namespaces);
      } else {
        SendElementValue(Variety, "not");
        SendElementValueList(Namespaces, constraint.namespaces);
      }
    }

    method ProcessAttributeWildcard(wildcard: Wildcard)
      requires Valid()
      modifies this, indentChars
      ensures Wrote(AttributeWildcardPlan(old(place.done), wildcard))
    {
      if wildcard.NoWildcard? {
        SendElementEmpty(AttributeWildcard);
      } else {
        SendAttributeWildcard(wildcard);
      }
    }

    method SendAttributeWildcard(wildcard: Wildcard)
      requires Valid()
      modifies this, indentChars
      ensures Wrote(old(place.done).Group(AttributeWildcard, WildcardPlan(Start, wildcard)))
    {
      hide Valid, Noted, Asked, TabsOk, Traces, TableOk, Pending, Plainly, PlainlyBut, Joined, WildcardPlan;
      SendIndentedElement(AttributeWildcard);
      ProcessWildcard(wildcard);
      SendUnindentedElement(AttributeWildcard);
    }

    method ProcessScope(enclosing: Option<Obj>, scope: ScopeKind)
      requires Valid() && AnyLink(graph, enclosing)
      modifies this, indentChars
      ensures Wrote(ScopePlan(old(place.done), enclosing, scope))
    {
      match scope
      case ScopeAbsent => SendElementEmpty(Tag.Scope);
      case ScopeLocal => SendGroupedReference(Tag.Scope, ComplexTypeDefinition, enclosing);
      case ScopeGlobal => SendElementValue(Tag.Scope, "global");
    }

    method SendGroupedReference(enclose: Tag, tag: Tag, o: Option<Obj>)
      requires Valid() && AnyLink(graph, o)
      modifies this, indentChars
      ensures Wrote(old(place.done).Group(enclose, Start.Ref(tag, o)))
      ensures nsAttributes == old(nsAttributes)
    {
      hide Valid, Noted, Asked, TabsOk, Traces, TableOk, Pending, Plainly, PlainlyBut, Joined;
      SendIndentedElement(enclose);
      SendReference(tag, o);
      SendUnindentedElement(enclose);
    }

    method ProcessTypeDefinitionRef(enclose: Tag, o: Option<Obj>)
      requires Valid() && TypeLink(graph, o)
      modifies this, indentChars
      ensures Wrote(TypeRef(graph, old(place.done), enclose, o)) && nsAttributes == old(nsAttributes)
    {
      if o.None? {
        SendElementEmpty(enclose);
      } else {
        SendTypeReference(enclose, o.value);
      }
    }

    method SendTypeReference(enclose: Tag, o: Obj)
      requires Valid() && IsType(graph, o)
      modifies this, indentChars
      ensures Wrote(old(place.done).Group(enclose, Start.Ref(TagOf(graph, o), Some(o))))
      ensures nsAttributes == old(nsAttributes)
    {
      hide Valid, Noted, Asked, TabsOk, Traces, TableOk, Pending, Plainly, PlainlyBut, Joined;
      SendGroupedReference(enclose, if graph[o].OfSimpleType? then SimpleTypeDefinition else ComplexTypeDefinition,
                           Some(o));
    }

    method ProcessAttributeDeclarationRef(o: Option<Obj>)
      requires Valid() && AttributeLink(graph, o)
      modifies this, indentChars
      ensures Wrote(DeclRef(old(place.done), Declaration, AttributeDeclaration, o))
      ensures nsAttributes == old(nsAttributes)
    {
      if o.None? {
        SendElementEmpty(Declaration);
      } else {
        SendGroupedReference(Declaration, AttributeDeclaration, o);
      }
    }

    method ProcessElementDeclarationRef(enclose: Tag, o: Option<Obj>)
      requires Valid() && ElementLink(graph, o)
      modifies this, indentChars
      ensures Wrote(DeclRef(old(place.done), enclose, ElementDeclaration, o))
    {
      if o.None? {
        SendElementEmpty(enclose);
      } else {
        SendGroupedReference(enclose, ElementDeclaration, o);
      }
    }

    method ProcessValueConstraint(constraint: ValueConstraint)
      requires Valid()
      modifies this, indentChars
      ensures Wrote(ValueConstraintPlan(old(place.done), constraint))
    {
      if constraint.Unconstrained? {
        SendElementEmpty(Tag.ValueConstraint);
      } else {
        SendValueConstraint(constraint.kind, constraint.value);
      }
    }

    method SendValueConstraint(kind: string, value: string)
      requires Valid()
      modifies this, indentChars
      ensures Wrote(old(place.done).Group(Tag.ValueConstraint, ConstraintValueBody(kind, value)))
    {
      hide Valid, Noted, Asked, TabsOk, Traces, TableOk, Pending, Plainly, PlainlyBut, Joined;
      SendIndentedElement(Tag.ValueConstraint);
      SendElementValue(Variety, kind);
      SendElementValue(FacetValue, value);
      SendUnindentedElement(Tag.ValueConstraint);
    }

    method ProcessFacets(facets: Option<seq<Facet>>, multiFacets: Option<seq<MultiFacet>>)
      requires Valid()
      modifies this, indentChars
      ensures Wrote(FacetsPlan(old(place.done), facets, multiFacets))
    {
      if facets.None? && multiFacets.None? {
        SendElementEmpty(Facets);
      } else {
        SendFacets(facets, multiFacets);
      }
    }

    method SendFacets(facets: Option<seq<Facet>>, multiFacets: Option<seq<MultiFacet>>)
      requires Valid()
      modifies this, indentChars
      ensures Wrote(old(place.done).Group(Facets, MultiFacetsPlan(SingleFacets(facets), multiFacets)))
    {
      hide Valid, Noted, Asked, TabsOk, Traces, TableOk, Pending, Plainly, PlainlyBut, Joined, MultiFacetsPlan,
           SingleFacets;
      SendIndentedElement(Facets);
      ProcessSingleFacets(facets);
      ProcessMultiFacets(multiFacets);
      SendUnindentedElement(Facets);
    }

    method ProcessSingleFacets(facets: Option<seq<Facet>>)
      requires Valid() && place.done == Start
      modifies this, indentChars
      ensures Wrote(SingleFacets(facets))
    {
      if facets.Some? {
        SendSingleFacets(facets.value);
      }
    }

    method SendSingleFacets(facets: seq<Facet>)
      requires Valid() && place.done == Start
      modifies this, indentChars
      ensures Wrote(FacetNodes(facets, |facets|))
    {
      hide Valid, Noted, Asked, TabsOk, Traces, TableOk, Pending, Plainly, PlainlyBut, Joined, FacetBody;
      for i := 0 to |facets|
        invariant Wrote(FacetNodes(facets, i))
      {
        SendFacet(facets[i]);
      }
    }

    method SendFacet(facet: Facet)
      requires Valid()
      modifies this, indentChars
      ensures Wrote(old(place.done).Group(FacetOf(facet.kind), FacetBody(facet)))
    {
      hide Valid, Noted, Asked, TabsOk, Traces, TableOk, Pending, Plainly, PlainlyBut, Joined, FacetBody;
      SendIndentedElement(FacetOf(facet.kind));
      SendFacetBody(facet);
      SendUnindentedElement(FacetOf(facet.kind));
    }

    method SendFacetBody(facet: Facet)
      requires Valid() && place.done == Start
      modifies this, indentChars
      ensures Wrote(FacetBody(facet))
    {
      hide Valid, Noted, Asked, TabsOk, Traces, TableOk, Pending, Plainly, PlainlyBut, Joined, AnnotationPlan;
      SendElementValue(FacetValue, facet.value);
      SendElementValue(FacetFixed, BoolText(facet.fixed));
      ProcessAnnotation(facet.annotation);
    }

    method ProcessMultiFacets(facets: Option<seq<MultiFacet>>)
      requires Valid()
      modifies this, indentChars
      ensures Wrote(MultiFacetsPlan(old(place.done), facets))
    {
      if facets.Some? {
        SendMultiFacets(facets.value);
      }
    }

    method SendMultiFacets(facets: seq<MultiFacet>)
      requires Valid()
      modifies this, indentChars
      ensures Wrote(MultiFacetNodes(old(place.done), facets, |facets|))
    {
      hide Valid, Noted, Asked, TabsOk, Traces, TableOk, Pending, Plainly, PlainlyBut, Joined, MultiFacetBody;
      for i := 0 to |facets|
        invariant Wrote(MultiFacetNodes(old(place.done), facets, i))
      {
        SendMultiFacet(facets[i]);
      }
    }

    method SendMultiFacet(facet: MultiFacet)
      requires Valid()
      modifies this, indentChars
      ensures Wrote(old(place.done).Group(FacetOf(facet.kind), MultiFacetBody(facet)))
    {
      hide Valid, Noted, Asked, TabsOk, Traces, TableOk, Pending, Plainly, PlainlyBut, Joined, MultiFacetBody;
      SendIndentedElement(FacetOf(facet.kind));
      SendMultiFacetBody(facet);
      SendUnindentedElement(FacetOf(facet.kind));
    }

    method SendMultiFacetBody(facet: MultiFacet)
      requires Valid() && place.done == Start
      modifies this, indentChars
      ensures Wrote(MultiFacetBody(facet))
    {
      hide Valid, Noted, Asked, TabsOk, Traces, TableOk, Pending, Plainly, PlainlyBut, Joined, AnnotationsPlan,
           ValueNodes;
      SendFacetValues(facet.values);
      SendElementValue(FacetFixed, BoolText(facet.fixed));
      ProcessAnnotations(facet.annotations);
    }

    method SendFacetValues(values: seq<string>)
      requires Valid() && place.done == Start
      modifies this, indentChars
      ensures Wrote(ValueNodes(values, |values|))
    {
      hide Valid, Noted, Asked, TabsOk, Traces, TableOk, Pending, Plainly, PlainlyBut, Joined;
      for i := 0 to |values|
        invariant Wrote(ValueNodes(values, i))
      {
        SendElementValue(FacetValue, values[i]);
      }
    }

    method ProcessFundamentalFacets(ordered: string, bounded: bool, finite: bool, numeric: bool)
      requires Valid()
      modifies this, indentChars
      ensures Wrote(FundamentalFacetsPlan(old(place.done), ordered, bounded, finite, numeric))
    {
      hide Valid, Noted, Asked, TabsOk, Traces, TableOk, Pending, Plainly, PlainlyBut, Joined;
      SendIndentedElement(FundamentalFacets);
      SendFundamentalFacet(Ordered, ordered);
      SendFundamentalFacet(Bounded, BoolText(bounded));
      SendFundamentalFacet(Cardinality, BoolText(finite));
      SendFundamentalFacet(Numeric, BoolText(numeric));
      SendUnindentedElement(FundamentalFacets);
    }

    method SendFundamentalFacet(tag: Tag, value: string)
      requires Valid()
      modifies this, indentChars
      ensures Wrote(old(place.done).Group(tag, Start.Val(FacetValue, value)))
    {
      hide Valid, Noted, Asked, TabsOk, Traces, TableOk, Pending, Plainly, PlainlyBut, Joined;
      SendIndentedElement(tag);
      SendElementValue(FacetValue, value);
      SendUnindentedElement(tag);
    }

    method ProcessXPath(xpath: string)
      requires Valid()
      modifies this, indentChars
      ensures Wrote(XPathPlan(old(place.done), xpath))
    {
      hide Valid, Noted, Asked, TabsOk, Traces, TableOk, Pending, Plainly, PlainlyBut, Joined;
      SendIndentedElement(XPath);
      SendElementValue(XPath, xpath);
      SendUnindentedElement(XPath);
    }

    method ProcessFields(fields: seq<string>)
      requires Valid()
      modifies this, indentChars
      ensures Wrote(FieldsPlan(old(place.done), fields))
    {
      hide Valid, Noted, Asked, TabsOk, Traces, TableOk, Pending, Plainly, PlainlyBut, Joined, FieldNodes;
      SendIndentedElement(Fields);
      SendEachField(fields);
      SendUnindentedElement(Fields);
    }

    method SendEachField(fields: seq<string>)
      requires Valid() && place.done == Start
      modifies this, indentChars
      ensures Wrote(FieldNodes(fields, |fields|))
    {
      hide Valid, Noted, Asked, TabsOk, Traces, TableOk, Pending, Plainly, PlainlyBut, Joined, XPathPlan;
      for i := 0 to |fields|
        invariant Wrote(FieldNodes(fields, i))
      {
        ProcessXPath(fields[i]);
      }
    }

    // -----------------------------------------------------------------------
    //  Components shown in place: defined the first time, referred to afterwards
    // -----------------------------------------------------------------------

    lemma DefinedHere()
      requires Valid()
      ensures definedIds == DefinedAt(graph, place)
    {
    }

    lemma PendingIff(o: Obj)
      ensures o in Pending() <==> IsLocal(graph, o) && o !in definedIds
    {
    }

    /** The definition or reference just printed is what Inline stands for. */
    ghost method ShowInline(o: Obj, pre: Place, n: Node)
      requires Valid() && place == Append(pre, n)
      requires n == if IsLocal(graph, o) && o !in DefinedAt(graph, pre)
                    then Branch(TagOf(graph, o), Named(o), Contents(graph, o))
                    else Link(TagOf(graph, o), o, false)
      modifies this`place
      ensures Valid() && place == Append(pre, Inline(o)) && Pending() == old(Pending())
      ensures old(Noted()) ==> Noted()
    {
      hide TabsOk, Traces, NotesAt, MentionedAt, MintAll, Asked, TableOk, AllLinked, Names.WellFormed, Contents;
      InlineTraces(graph, idMap, pre, earlier, output, definedIds, o, n);
      InlineRecords(graph, pre, o, n);
      place := Append(pre, Inline(o));
    }

    method ProcessTypeDefinitionOrRef(enclose: Tag, o: Option<Obj>)
      requires Valid() && TypeLink(graph, o)
      modifies this, indentChars
      ensures Wrote(TypeHere(old(place.done), enclose, o))
      ensures o.None? || o.value !in old(Pending()) ==> nsAttributes == old(nsAttributes)
      decreases Pending(), 1, 2
    {
      if o.None? {
        SendElementEmpty(enclose);
      } else {
        SendTypeHere(enclose, o.value);
      }
    }

    method SendTypeHere(enclose: Tag, o: Obj)
      requires Valid() && IsType(graph, o)
      modifies this, indentChars
      ensures Wrote(old(place.done).Group(enclose, Start.Here(o)))
      ensures o !in old(Pending()) ==> nsAttributes == old(nsAttributes)
      decreases Pending(), 1, 1
    {
      hide Valid, Noted, Asked, TabsOk, Traces, TableOk, Pending, Plainly, PlainlyBut, Joined;
      SendIndentedElement(enclose);
      ShowType(o);
      SendUnindentedElement(enclose);
    }

    method ShowType(o: Obj)
      requires Valid() && IsType(graph, o)
      modifies this, indentChars
      ensures Wrote(old(place.done).Here(o))
      ensures o !in old(Pending()) ==> nsAttributes == old(nsAttributes)
      decreases Pending(), 1, 0
    {
      if graph[o].IsAnonymous() && o !in definedIds {
        DefineType(o);
      } else {
        ReferToType(o);
      }
    }

    method DefineType(o: Obj)
      requires Valid() && IsType(graph, o) && graph[o].IsAnonymous() && o !in definedIds
      modifies this, indentChars
      ensures Wrote(old(place.done).Here(o))
      decreases Pending(), 0, 2
    {
      hide Valid, Noted, Asked, TabsOk, Traces, TableOk, Pending, Plainly, PlainlyBut, Joined, Contents;
      DefinedHere();
      PendingIff(o);
      ghost var pre := place;
      ProcessTypeDefinition(o);
      ShowInline(o, pre, Branch(TagOf(graph, o), Named(o), Contents(graph, o)));
    }

    method ReferToType(o: Obj)
      requires Valid() && IsType(graph, o) && (!graph[o].IsAnonymous() || o in definedIds)
      modifies this, indentChars
      ensures Wrote(old(place.done).Here(o)) && nsAttributes == old(nsAttributes)
    {
      hide Valid, Noted, Asked, TabsOk, Traces, TableOk, Pending, Plainly, PlainlyBut, Joined, Contents;
      DefinedHere();
      ghost var pre := place;
      SendReference(DefTag(graph[o]), Some(o));
      ShowInline(o, pre, Link(TagOf(graph, o), o, false));
    }

    method ProcessSimpleTypeDefinitionOrRef(o: Option<Obj>)
      requires Valid() && SimpleLink(graph, o)
      modifies this, indentChars
      ensures Wrote(DeclHere(old(place.done), SimpleTypeDefinition, o))
      decreases Pending(), 1, 1
    {
      if o.None? {
        SendElementEmpty(SimpleTypeDefinition);
      } else if graph[o.value].IsAnonymous() && o.value !in definedIds {
        DefineType(o.value);
      } else {
        ReferToType(o.value);
      }
    }

    method ProcessAttributeDeclarationOrRef(o: Option<Obj>)
      requires Valid() && AttributeLink(graph, o)
      modifies this, indentChars
      ensures Wrote(DeclHere(old(place.done), AttributeDeclaration, o))
      decreases Pending(), 1, 1
    {
      if o.None? {
        SendElementEmpty(AttributeDeclaration);
      } else if o.value in definedIds || graph[o.value].IsGlobal() {
        ReferTo(o.value);
      } else {
        DefineAttribute(o.value);
      }
    }

    method DefineAttribute(o: Obj)
      requires Valid() && IsAttribute(graph, o) && !graph[o].IsGlobal() && o !in definedIds
      modifies this, indentChars
      ensures Wrote(old(place.done).Here(o))
      decreases Pending(), 0, 2
    {
      hide Valid, Noted, Asked, TabsOk, Traces, TableOk, Pending, Plainly, PlainlyBut, Joined, Contents;
      DefinedHere();
      PendingIff(o);
      ghost var pre := place;
      ProcessAttributeDeclaration(o);
      ShowInline(o, pre, Branch(TagOf(graph, o), Named(o), Contents(graph, o)));
    }

    method ProcessElementDeclarationOrRef(o: Option<Obj>)
      requires Valid() && ElementLink(graph, o)
      modifies this, indentChars
      ensures Wrote(DeclHere(old(place.done), ElementDeclaration, o))
      decreases Pending(), 1, 1
    {
      if o.None? {
        SendElementEmpty(ElementDeclaration);
      } else if o.value in definedIds || graph[o.value].IsGlobal() {
        ReferTo(o.value);
      } else {
        DefineElement(o.value);
      }
    }

    method DefineElement(o: Obj)
      requires Valid() && IsElement(graph, o) && !graph[o].IsGlobal() && o !in definedIds
      modifies this, indentChars
      ensures Wrote(old(place.done).Here(o))
      decreases Pending(), 0, 2
    {
      hide Valid, Noted, Asked, TabsOk, Traces, TableOk, Pending, Plainly, PlainlyBut, Joined, Contents;
      DefinedHere();
      PendingIff(o);
      ghost var pre := place;
      ProcessElementDeclaration(o);
      ShowInline(o, pre, Branch(TagOf(graph, o), Named(o), Contents(graph, o)));
    }

    method ReferTo(o: Obj)
      requires Valid() && (IsAttribute(graph, o) || IsElement(graph, o))
      requires graph[o].IsGlobal() || o in definedIds
      modifies this, indentChars
      ensures Wrote(old(place.done).Here(o))
    {
      hide Valid, Noted, Asked, TabsOk, Traces, TableOk, Pending, Plainly, PlainlyBut, Joined, Contents;
      DefinedHere();
      ghost var pre := place;
      SendReference(DefTag(graph[o]), Some(o));
      ShowInline(o, pre, Link(TagOf(graph, o), o, false));
    }

    // -----------------------------------------------------------------------
    //  Parts of components that lead to others
    // -----------------------------------------------------------------------

    method ProcessAttributeUses(uses: Option<seq<AttributeUse>>)
      requires Valid() && UsesLinked(graph, uses)
      modifies this, indentChars
      ensures Wrote(AttributeUsesPlan(old(place.done), uses))
      decreases Pending(), 5, 2
    {
      if uses.None? {
        SendElementEmpty(AttributeUses);
      } else {
        SendAttributeUses(uses.value);
      }
    }

    method SendAttributeUses(uses: seq<AttributeUse>)
      requires Valid()
      requires forall i :: 0 <= i < |uses| ==> AttributeLink(graph, uses[i].declaration)
      modifies this, indentChars
      ensures Wrote(old(place.done).Group(AttributeUses, AttributeUseNodes(uses, |uses|)))
      decreases Pending(), 5, 1
    {
      hide Valid, Noted, Asked, TabsOk, Traces, TableOk, Pending, Plainly, PlainlyBut, Joined, AttributeUseNodes,
           AttributeLink;
      SendIndentedElement(AttributeUses);
      SendEachUse(uses);
      SendUnindentedElement(AttributeUses);
    }

    method SendEachUse(uses: seq<AttributeUse>)
      requires Valid() && place.done == Start
      requires forall i :: 0 <= i < |uses| ==> AttributeLink(graph, uses[i].declaration)
      modifies this, indentChars
      ensures Wrote(AttributeUseNodes(uses, |uses|))
      decreases Pending(), 5, 1, 0
    {
      hide Valid, Noted, Asked, TabsOk, Traces, TableOk, Pending, Plainly, PlainlyBut, Joined, AttributeUseBody,
           AttributeLink;
      for i := 0 to |uses|
        invariant Wrote(AttributeUseNodes(uses, i))
      {
        SendAttributeUse(uses[i]);
      }
    }

    method SendAttributeUse(attrUse: AttributeUse)
      requires Valid() && AttributeLink(graph, attrUse.declaration)
      modifies this, indentChars
      ensures Wrote(old(place.done).Group(Tag.AttributeUse, AttributeUseBody(attrUse)))
      decreases Pending(), 5, 0
    {
      hide Valid, Noted, Asked, TabsOk, Traces, TableOk, Pending, Plainly, PlainlyBut, Joined, AttributeUseBody,
           AttributeLink;
      SendIndentedElement(Tag.AttributeUse);
      SendAttributeUseBody(attrUse);
      SendUnindentedElement(Tag.AttributeUse);
    }

    method SendAttributeUseBody(attrUse: AttributeUse)
      requires Valid() && AttributeLink(graph, attrUse.declaration) && place.done == Start
      modifies this, indentChars
      ensures Wrote(AttributeUseBody(attrUse))
      decreases Pending(), 4, 9
    {
      hide Valid, Noted, Asked, TabsOk, Traces, TableOk, Pending, Plainly, PlainlyBut, Joined, DeclHere,
           ValueConstraintPlan, AttributeLink;
      SendElementValue(Required, BoolText(attrUse.required));
      ProcessAttributeDeclarationOrRef(attrUse.declaration);
      ProcessValueConstraint(attrUse.constraint);
    }

    method ProcessMemberTypeDefinitions(members: Option<seq<Obj>>)
      requires Valid() && MembersLinked(graph, members)
      modifies this, indentChars
      ensures Wrote(MemberTypesPlan(old(place.done), members))
      decreases Pending(), 5, 1
    {
      if members.None? {
        SendElementEmpty(MemberTypeDefinitions);
      } else {
        SendMemberTypes(members.value);
      }
    }

    method SendMemberTypes(members: seq<Obj>)
      requires Valid() && forall i :: 0 <= i < |members| ==> IsType(graph, members[i])
      modifies this, indentChars
      ensures Wrote(old(place.done).Group(MemberTypeDefinitions, MemberTypeNodes(members, |members|)))
      decreases Pending(), 5, 0
    {
      hide Valid, Noted, Asked, TabsOk, Traces, TableOk, Pending, Plainly, PlainlyBut, Joined, MemberTypeNodes, IsType;
      SendIndentedElement(MemberTypeDefinitions);
      SendEachMember(members);
      SendUnindentedElement(MemberTypeDefinitions);
    }

    method SendEachMember(members: seq<Obj>)
      requires Valid() && place.done == Start && forall i :: 0 <= i < |members| ==> IsType(graph, members[i])
      modifies this, indentChars
      ensures Wrote(MemberTypeNodes(members, |members|))
      decreases Pending(), 4, 1
    {
      hide Valid, Noted, Asked, TabsOk, Traces, TableOk, Pending, Plainly, PlainlyBut, Joined, TypeHere, IsType;
      for i := 0 to |members|
        invariant Wrote(MemberTypeNodes(members, i))
      {
        ProcessTypeDefinitionOrRef(MemberTypeDefinition, Some(members[i]));
      }
    }

    method ProcessParticle(particle: Particle)
      requires Valid() && ParticleLinked(graph, particle)
      modifies this, indentChars
      ensures Wrote(ParticlePlan(old(place.done), particle))
      decreases Pending(), 4, particle, 2
    {
      if particle.NoParticle? {
        SendElementEmpty(Tag.Particle);
      } else {
        SendParticle(particle);
      }
    }

    method SendParticle(particle: Particle)
      requires Valid() && ParticleLinked(graph, particle) && particle.Particle?
      modifies this, indentChars
      ensures Wrote(ParticlePlan(old(place.done), particle))
      decreases Pending(), 4, particle, 1
    {
      hide Valid, Noted, Asked, TabsOk, Traces, TableOk, Pending, Plainly, PlainlyBut, Joined, ParticleBody,
           ParticleLinked;
      SendIndentedElement(Tag.Particle);
      SendParticleBody(particle);
      SendUnindentedElement(Tag.Particle);
    }

    method SendParticleBody(particle: Particle)
      requires Valid() && ParticleLinked(graph, particle) && particle.Particle? && place.done == Start
      modifies this, indentChars
      ensures Wrote(ParticleBody(particle))
      decreases Pending(), 4, particle, 0
    {
      hide Valid, Noted, Asked, TabsOk, Traces, TableOk, Pending, Plainly, PlainlyBut, Joined, TermBody,
           MaxOccursPlan, ParticleLinked;
      SendElementValueInt(MinOccurs, particle.minOccurs);
      SendMaxOccurs(particle.maxOccurs);
      SendTerm(particle);
    }

    method SendMaxOccurs(maxOccurs: Option<nat>)
      requires Valid()
      modifies this, indentChars
      ensures Wrote(MaxOccursPlan(old(place.done), maxOccurs))
    {
      if maxOccurs.None? {
        SendElementValue(MaxOccurs, "unbounded");
      } else {
        SendElementValueInt(MaxOccurs, maxOccurs.value);
      }
    }

    method SendTerm(particle: Particle)
      requires Valid() && ParticleLinked(graph, particle) && particle.Particle?
      modifies this, indentChars
      ensures Wrote(old(place.done).Group(Tag.Term, TermBody(particle.term)))
      decreases Pending(), 4, particle.term, 2
    {
      hide Valid, Noted, Asked, TabsOk, Traces, TableOk, Pending, Plainly, PlainlyBut, Joined, TermBody,
           ParticleLinked;
      SendIndentedElement(Tag.Term);
      ProcessTerm(particle);
      SendUnindentedElement(Tag.Term);
    }

    method ProcessTerm(particle: Particle)
      requires Valid() && ParticleLinked(graph, particle) && particle.Particle? && place.done == Start
      modifies this, indentChars
      ensures Wrote(TermBody(particle.term))
      decreases Pending(), 4, particle.term, 1
    {
      match particle.term
      case ElementTerm(o) => ProcessElementDeclarationOrRef(o);
      case GroupTerm(g) => ProcessModelGroup(g);
      case WildcardTerm(w) => ProcessWildcard(w);
      case EmptyTerm =>
    }

    method ProcessModelGroup(group: ModelGroup)
      requires Valid() && GroupLinked(graph, group)
      modifies this, indentChars
      ensures Wrote(ModelGroupPlan(old(place.done), group))
      decreases Pending(), 4, group, 4
    {
      if group.NoGroup? {
        SendElementEmpty(Tag.ModelGroup);
      } else {
        SendModelGroup(group);
      }
    }

    method SendModelGroup(group: ModelGroup)
      requires Valid() && GroupLinked(graph, group) && group.ModelGroup?
      modifies this, indentChars
      ensures Wrote(ModelGroupPlan(old(place.done), group))
      decreases Pending(), 4, group, 3
    {
      hide Valid, Noted, Asked, TabsOk, Traces, TableOk, Pending, Plainly, PlainlyBut, Joined,
           ModelGroupBody, GroupLinked;
      SendIndentedElement(Tag.ModelGroup);
      SendModelGroupBody(group);
      SendUnindentedElement(Tag.ModelGroup);
    }

    method SendModelGroupBody(group: ModelGroup)
      requires Valid() && GroupLinked(graph, group) && group.ModelGroup? && place.done == Start
      modifies this, indentChars
      ensures Wrote(ModelGroupBody(group))
      decreases Pending(), 4, group, 2
    {
      hide Valid, Noted, Asked, TabsOk, Traces, TableOk, Pending, Plainly, PlainlyBut, Joined,
           ParticleNodes, AnnotationPlan, GroupLinked;
      SendElementValue(Compositor, group.compositor);
      SendParticles(group);
      ProcessAnnotation(group.annotation);
    }

    method SendParticles(group: ModelGroup)
      requires Valid() && GroupLinked(graph, group) && group.ModelGroup?
      modifies this, indentChars
      ensures Wrote(old(place.done).Group(Particles, ParticleNodes(group, |group.particles|)))
      decreases Pending(), 4, group, 1
    {
      hide Valid, Noted, Asked, TabsOk, Traces, TableOk, Pending, Plainly, PlainlyBut, Joined, ParticleNodes,
           ParticleLinked;
      SendIndentedElement(Particles);
      SendEachParticle(group);
      SendUnindentedElement(Particles);
    }

    method SendEachParticle(group: ModelGroup)
      requires Valid() && place.done == Start && GroupLinked(graph, group) && group.ModelGroup?
      modifies this, indentChars
      ensures Wrote(ParticleNodes(group, |group.particles|))
      decreases Pending(), 4, group, 0
    {
      hide Valid, Noted, Asked, TabsOk, Traces, TableOk, Pending, Plainly, PlainlyBut, Joined, ParticlePlan,
           ParticleLinked;
      for i := 0 to |group.particles|
        invariant Wrote(ParticleNodes(group, i))
      {
        ProcessParticle(group.particles[i]);
      }
    }

    // -----------------------------------------------------------------------
    //  Definitions of components
    // -----------------------------------------------------------------------

    method ProcessTypeDefinition(o: Obj)
      requires Valid() && IsType(graph, o)
      modifies this, indentChars
      ensures Wrote(old(place.done).Defined(TagOf(graph, o), o, Contents(graph, o)))
      decreases Pending(), if o in Pending() then 0 else 9, 1
    {
      if graph[o].OfComplexType? {
        ProcessComplexTypeDefinition(o);
      } else {
        ProcessSimpleTypeDefinition(o);
      }
    }

    method SendName(anonymous: bool, name: string)
      requires Valid() && place.done == Start
      modifies this, indentChars
      ensures Wrote(if anonymous then Start.Absent(Name) else Start.Val(Name, name))
    {
      if anonymous {
        SendElementEmpty(Name);
      } else {
        SendElementValue(Name, name);
      }
    }

    lemma ComplexTypeLinks(o: Obj)
      requires o in graph && graph[o].OfComplexType?
      ensures TypeLink(graph, graph[o].complexType.base) && UsesLinked(graph, graph[o].complexType.attributeUses)
      ensures SimpleLink(graph, graph[o].complexType.simpleType) && ParticleLinked(graph, graph[o].complexType.particle)
      ensures TagOf(graph, o) == ComplexTypeDefinition && Contents(graph, o) == ComplexTypeBody(graph[o].complexType)
    {
      hide ComplexTypeBody;
      assert Linked(graph, graph[o]);
    }

    method ProcessComplexTypeDefinition(o: Obj)
      requires Valid() && o in graph && graph[o].OfComplexType?
      modifies this, indentChars
      ensures Wrote(old(place.done).Defined(TagOf(graph, o), o, Contents(graph, o)))
      decreases Pending(), if o in Pending() then 0 else 9, 0
    {
      hide Valid, Noted, Asked, TabsOk, Traces, TableOk, Pending, Plainly, PlainlyBut, Joined, AllLinked, TypeLink,
           UsesLinked, SimpleLink, ParticleLinked, ComplexTypeBody, Contents, TagOf;
      ComplexTypeLinks(o);
      SendIndentedElementWithId(ComplexTypeDefinition, o);
      SendComplexType(graph[o].complexType);
      SendUnindentedElement(ComplexTypeDefinition);
    }

    method SendComplexType(x: ComplexType)
      requires Valid() && place.done == Start
      requires TypeLink(graph, x.base) && UsesLinked(graph, x.attributeUses)
      requires SimpleLink(graph, x.simpleType) && ParticleLinked(graph, x.particle)
      modifies this, indentChars
      ensures Wrote(ComplexTypeBody(x))
      decreases Pending(), 7
    {
      hide Valid, Noted, Asked, TabsOk, Traces, TableOk, Pending, Plainly, PlainlyBut, Joined, ComplexTypeHead,
           ContentTypeBody, AnnotationsPlan;
      hide AllLinked, TypeLink, UsesLinked, SimpleLink, ParticleLinked;
      SendComplexTypeHead(x);
      SendContentType(x);
      SendElementValue(ProhibitedSubstitutions, x.prohibited);
      ProcessAnnotations(x.annotations);
    }

    method SendComplexTypeHead(x: ComplexType)
      requires Valid() && place.done == Start
      requires TypeLink(graph, x.base) && UsesLinked(graph, x.attributeUses)
      modifies this, indentChars
      ensures Wrote(ComplexTypeHead(x))
      decreases Pending(), 6
    {
      hide Valid, Noted, Asked, TabsOk, Traces, TableOk, Pending, Plainly, PlainlyBut, Joined, TypeHere,
           AttributeUsesPlan, AttributeWildcardPlan, AllLinked, TypeLink, UsesLinked;
      SendName(x.anonymous, x.name);
      SendElementValue(TargetNamespace, x.namespace);
      ProcessTypeDefinitionOrRef(BaseTypeDefinition, x.base);
      SendElementValue(DerivationMethod, x.derivation);
      SendElementValue(Final, x.final);
      SendElementValue(Abstract, BoolText(x.isAbstract));
      ProcessAttributeUses(x.attributeUses);
      ProcessAttributeWildcard(x.attributeWildcard);
    }

    method SendContentType(x: ComplexType)
      requires Valid()
      requires SimpleLink(graph, x.simpleType) && ParticleLinked(graph, x.particle)
      modifies this, indentChars
      ensures Wrote(old(place.done).Group(ContentType, ContentTypeBody(x)))
      decreases Pending(), 6
    {
      hide Valid, Noted, Asked, TabsOk, Traces, TableOk, Pending, Plainly, PlainlyBut, Joined, DeclHere, ParticlePlan,
           AllLinked, SimpleLink, ParticleLinked;
      SendIndentedElement(ContentType);
      SendContentBody(x);
      SendUnindentedElement(ContentType);
    }

    method SendContentBody(x: ComplexType)
      requires Valid() && place.done == Start
      requires SimpleLink(graph, x.simpleType) && ParticleLinked(graph, x.particle)
      modifies this, indentChars
      ensures Wrote(ContentTypeBody(x))
      decreases Pending(), 5, 9
    {
      hide Valid, Noted, Asked, TabsOk, Traces, TableOk, Pending, Plainly, PlainlyBut, Joined, DeclHere, ParticlePlan,
           AllLinked, SimpleLink, ParticleLinked;
      SendElementValue(Variety, x.variety);
      ProcessSimpleTypeDefinitionOrRef(x.simpleType);
      ProcessParticle(x.particle);
    }

    lemma SimpleTypeLinks(o: Obj)
      requires o in graph && graph[o].OfSimpleType?
      ensures TypeLink(graph, graph[o].simpleType.base) && TypeLink(graph, graph[o].simpleType.primitive)
      ensures TypeLink(graph, graph[o].simpleType.itemType) && MembersLinked(graph, graph[o].simpleType.memberTypes)
      ensures TagOf(graph, o) == SimpleTypeDefinition && Contents(graph, o) == SimpleTypeBody(graph[o].simpleType)
    {
      hide SimpleTypeBody;
      assert Linked(graph, graph[o]);
    }

    method ProcessSimpleTypeDefinition(o: Obj)
      requires Valid() && o in graph && graph[o].OfSimpleType?
      modifies this, indentChars
      ensures Wrote(old(place.done).Defined(TagOf(graph, o), o, Contents(graph, o)))
      decreases Pending(), if o in Pending() then 0 else 9, 0
    {
      hide Valid, Noted, Asked, TabsOk, Traces, TableOk, Pending, Plainly, PlainlyBut, Joined, AllLinked, TypeLink,
           MembersLinked, SimpleTypeBody, Contents, TagOf;
      SimpleTypeLinks(o);
      SendIndentedElementWithId(SimpleTypeDefinition, o);
      SendSimpleType(graph[o].simpleType);
      SendUnindentedElement(SimpleTypeDefinition);
    }

    method SendSimpleType(x: SimpleType)
      requires Valid() && place.done == Start
      requires TypeLink(graph, x.base) && TypeLink(graph, x.primitive)
      requires TypeLink(graph, x.itemType) && MembersLinked(graph, x.memberTypes)
      modifies this, indentChars
      ensures Wrote(SimpleTypeBody(x))
      decreases Pending(), 6
    {
      hide Valid, Noted, Asked, TabsOk, Traces, TableOk, Pending, Plainly, PlainlyBut, Joined, SimpleTypeFacets,
           TypeHere, MemberTypesPlan, AnnotationsPlan;
      hide AllLinked, TypeLink, MembersLinked;
      SendSimpleTypeFacets(x);
      ProcessTypeDefinitionOrRef(ItemTypeDefinition, x.itemType);
      ProcessMemberTypeDefinitions(x.memberTypes);
      ProcessAnnotations(x.annotations);
    }

    method SendSimpleTypeFacets(x: SimpleType)
      requires Valid() && place.done == Start && TypeLink(graph, x.base) && TypeLink(graph, x.primitive)
      modifies this, indentChars
      ensures Wrote(SimpleTypeFacets(x))
      decreases Pending(), 5, 10
    {
      hide Valid, Noted, Asked, TabsOk, Traces, TableOk, Pending, Plainly, PlainlyBut, Joined, SimpleTypeHead,
           FacetsPlan, FundamentalFacetsPlan, AllLinked, TypeLink;
      SendSimpleTypeHead(x);
      ProcessFacets(x.facets, x.multiFacets);
      ProcessFundamentalFacets(x.ordered, x.bounded, x.finite, x.numeric);
      SendElementValue(Final, x.final);
      SendElementValue(Variety, x.variety);
    }

    method SendSimpleTypeHead(x: SimpleType)
      requires Valid() && place.done == Start && TypeLink(graph, x.base) && TypeLink(graph, x.primitive)
      modifies this, indentChars
      ensures Wrote(SimpleTypeHead(x))
      decreases Pending(), 5, 8
    {
      hide Valid, Noted, Asked, TabsOk, Traces, TableOk, Pending, Plainly, PlainlyBut, Joined, TypeHere, AllLinked,
           TypeLink;
      SendName(x.anonymous, x.name);
      SendElementValue(TargetNamespace, x.namespace);
      ProcessTypeDefinitionOrRef(BaseTypeDefinition, x.base);
      ProcessTypeDefinitionOrRef(PrimitiveTypeDefinition, x.primitive);
    }

    lemma AttributeLinks(o: Obj)
      requires IsAttribute(graph, o)
      ensures SimpleLink(graph, graph[o].attribute.typeDefinition) && AnyLink(graph, graph[o].attribute.enclosing)
      ensures TagOf(graph, o) == AttributeDeclaration && Contents(graph, o) == AttributeDeclBody(graph[o].attribute)
    {
      assert Linked(graph, graph[o]);
    }

    method ProcessAttributeDeclaration(o: Obj)
      requires Valid() && IsAttribute(graph, o)
      modifies this, indentChars
      ensures Wrote(old(place.done).Defined(TagOf(graph, o), o, Contents(graph, o)))
      decreases Pending(), if o in Pending() then 0 else 9, 0
    {
      hide Valid, Noted, Asked, TabsOk, Traces, TableOk, Pending, Plainly, PlainlyBut, Joined, AllLinked, SimpleLink,
           AnyLink, AttributeDeclBody, Contents, TagOf;
      AttributeLinks(o);
      SendIndentedElementWithId(AttributeDeclaration, o);
      SendAttributeDecl(graph[o].attribute);
      SendUnindentedElement(AttributeDeclaration);
    }

    method SendAttributeDecl(x: AttributeDecl)
      requires Valid() && place.done == Start
      requires SimpleLink(graph, x.typeDefinition) && AnyLink(graph, x.enclosing)
      modifies this, indentChars
      ensures Wrote(AttributeDeclBody(x))
      decreases Pending(), 6
    {
      hide Valid, Noted, Asked, TabsOk, Traces, TableOk, Pending, Plainly, PlainlyBut, Joined, DeclHere, ScopePlan,
           ValueConstraintPlan, AnnotationPlan, AllLinked, SimpleLink, AnyLink;
      SendElementValue(Name, x.name);
      SendElementValue(TargetNamespace, x.namespace);
      SendDeclaredType(x.typeDefinition);
      ProcessScope(x.enclosing, x.scope);
      ProcessValueConstraint(x.constraint);
      ProcessAnnotation(x.annotation);
    }

    method SendDeclaredType(o: Option<Obj>)
      requires Valid() && SimpleLink(graph, o)
      modifies this, indentChars
      ensures Wrote(old(place.done).Group(TypeDefinition, DeclHere(Start, SimpleTypeDefinition, o)))
      decreases Pending(), 5
    {
      hide Valid, Noted, Asked, TabsOk, Traces, TableOk, Pending, Plainly, PlainlyBut, Joined, DeclHere, AllLinked,
           SimpleLink;
      SendIndentedElement(TypeDefinition);
      ProcessSimpleTypeDefinitionOrRef(o);
      SendUnindentedElement(TypeDefinition);
    }

    lemma ElementLinks(o: Obj)
      requires IsElement(graph, o)
      ensures TypeLink(graph, graph[o].element.typeDefinition) && AnyLink(graph, graph[o].element.enclosing)
      ensures ElementLink(graph, graph[o].element.affiliation)
      ensures ConstraintsLinked(graph, graph[o].element.identityConstraints)
      ensures TagOf(graph, o) == ElementDeclaration && Contents(graph, o) == ElementDeclBody(graph, graph[o].element)
    {
      assert Linked(graph, graph[o]);
    }

    method ProcessElementDeclaration(o: Obj)
      requires Valid() && IsElement(graph, o)
      modifies this, indentChars
      ensures Wrote(old(place.done).Defined(TagOf(graph, o), o, Contents(graph, o)))
      decreases Pending(), if o in Pending() then 0 else 9, 0
    {
      hide Valid, Noted, Asked, TabsOk, Traces, TableOk, Pending, Plainly, PlainlyBut, Joined, AllLinked, TypeLink,
           AnyLink, ElementLink, ConstraintsLinked, ElementDeclBody, Contents, TagOf;
      ElementLinks(o);
      SendIndentedElementWithId(ElementDeclaration, o);
      SendElementDecl(graph[o].element);
      SendUnindentedElement(ElementDeclaration);
    }

    method SendElementDecl(x: ElementDecl)
      requires Valid() && place.done == Start
      requires TypeLink(graph, x.typeDefinition) && AnyLink(graph, x.enclosing)
      requires ElementLink(graph, x.affiliation) && ConstraintsLinked(graph, x.identityConstraints)
      modifies this, indentChars
      ensures Wrote(ElementDeclBody(graph, x))
      decreases Pending(), 6
    {
      hide Valid, Noted, Asked, TabsOk, Traces, TableOk, Pending, Plainly, PlainlyBut, Joined, ElementDeclHead,
           IdConstraintsPlan, DeclRef, AnnotationPlan;
      hide AllLinked, TypeLink, AnyLink, ElementLink, ConstraintsLinked;
      SendElementDeclHead(x);
      ProcessIdentityConstraintDefinition(x.identityConstraints);
      ProcessElementDeclarationRef(SubstitutionGroupAffiliation, x.affiliation);
      SendElementValue(SubstitutionGroupExclusions, x.exclusions);
      SendElementValue(DisallowedSubstitutions, x.disallowed);
      SendElementValue(Abstract, BoolText(x.isAbstract));
      ProcessAnnotation(x.annotation);
    }

    method SendElementDeclHead(x: ElementDecl)
      requires Valid() && place.done == Start
      requires TypeLink(graph, x.typeDefinition) && AnyLink(graph, x.enclosing)
      modifies this, indentChars
      ensures Wrote(ElementDeclHead(x))
      decreases Pending(), 5
    {
      hide Valid, Noted, Asked, TabsOk, Traces, TableOk, Pending, Plainly, PlainlyBut, Joined, TypeHere, ScopePlan,
           ValueConstraintPlan, AllLinked, TypeLink, AnyLink;
      SendElementValue(Name, x.name);
      SendElementValue(TargetNamespace, x.namespace);
      ProcessTypeDefinitionOrRef(TypeDefinition, x.typeDefinition);
      ProcessScope(x.enclosing, x.scope);
      ProcessValueConstraint(x.constraint);
      SendElementValue(Nillable, BoolText(x.nillable));
    }

    method ProcessIdentityConstraintDefinition(list: Option<seq<Obj>>)
      requires Valid() && ConstraintsLinked(graph, list)
      modifies this, indentChars
      ensures Wrote(IdConstraintsPlan(graph, old(place.done), list))
    {
      if list.None? {
        SendElementEmpty(IdentityConstraintDefinitions);
      } else {
        SendIdConstraints(list.value);
      }
    }

    method SendIdConstraints(list: seq<Obj>)
      requires Valid() && forall i :: 0 <= i < |list| ==> IsConstraint(graph, list[i])
      modifies this, indentChars
      ensures Wrote(old(place.done).Group(IdentityConstraintDefinitions, IdConstraintNodes(graph, list, |list|)))
    {
      hide Valid, Noted, Asked, TabsOk, Traces, TableOk, Pending, Plainly, PlainlyBut, Joined, IdConstraintNodes,
           IsConstraint;
      SendIndentedElement(IdentityConstraintDefinitions);
      DefineEachConstraint(list);
      SendUnindentedElement(IdentityConstraintDefinitions);
    }

    method DefineEachConstraint(list: seq<Obj>)
      requires Valid() && place.done == Start && forall i :: 0 <= i < |list| ==> IsConstraint(graph, list[i])
      modifies this, indentChars
      ensures Wrote(IdConstraintNodes(graph, list, |list|))
    {
      hide Valid, Noted, Asked, TabsOk, Traces, TableOk, Pending, Plainly, PlainlyBut, Joined, Quiet, CommentsFlat,
           Fixed, NoSchema, IdConstraintContents, IsConstraint;
      for i := 0 to |list|
        invariant Wrote(IdConstraintNodes(graph, list, i))
      {
        DefineIdConstraint(list[i]);
      }
    }

    lemma IdConstraintLinks(o: Obj)
      requires IsConstraint(graph, o)
      ensures AnyLink(graph, graph[o].constraint.refKey)
    {
      assert Linked(graph, graph[o]);
    }

    method DefineIdConstraint(o: Obj)
      requires Valid() && IsConstraint(graph, o)
      modifies this, indentChars
      ensures Wrote(old(place.done).Defined(IdentityConstraintDefinition, o, IdConstraintContents(graph, o)))
    {
      hide Valid, Noted, Asked, TabsOk, Traces, TableOk, Pending, Plainly, PlainlyBut, Joined, AllLinked, AnyLink,
           IdConstraintBody;
      IdConstraintLinks(o);
      SendIndentedElementWithId(IdentityConstraintDefinition, o);
      SendIdConstraint(graph[o].constraint);
      SendUnindentedElement(IdentityConstraintDefinition);
    }

    method SendIdConstraint(x: IdConstraint)
      requires Valid() && place.done == Start && AnyLink(graph, x.refKey)
      modifies this, indentChars
      ensures Wrote(IdConstraintBody(x))
    {
      hide Valid, Noted, Asked, TabsOk, Traces, TableOk, Pending, Plainly, PlainlyBut, Joined, AnyLink, AllLinked,
           SelectorPlan, FieldsPlan, AnnotationsPlan;
      SendElementValue(Name, x.name);
      SendElementValue(TargetNamespace, x.namespace);
      SendElementValue(IdentityConstraintCategory, x.category);
      SendSelector(x.selector);
      ProcessFields(x.fields);
      SendReference(ReferencedKey, x.refKey);
      ProcessAnnotations(x.annotations);
    }

    method SendSelector(selector: string)
      requires Valid()
      modifies this, indentChars
      ensures Wrote(SelectorPlan(old(place.done), selector))
    {
      hide Valid, Noted, Asked, TabsOk, Traces, TableOk, Pending, Plainly, PlainlyBut, Joined, XPathPlan;
      SendIndentedElement(Selector);
      ProcessXPath(selector);
      SendUnindentedElement(Selector);
    }

    // -----------------------------------------------------------------------
    //  The schema model
    // -----------------------------------------------------------------------

    /** Only one level is left when the root element has been closed; elsewhere the model is not shown. */
    method ProcessSchemaInformation(model: Option<seq<NamespaceItem>>)
      requires Valid() && ModelLinked(graph, model)
      modifies this, indentChars
      ensures Wrote(SchemaInformationPlan(graph, old(place.done), if |elementChildren| == 1 then model else None))
    {
      if |elementChildren| != 1 || model.None? {
        SendElementEmpty(SchemaInformation);
      } else {
        SendSchemaInformation(model.value);
      }
    }

    method SendSchemaInformation(items: seq<NamespaceItem>)
      requires Valid() && forall i :: 0 <= i < |items| ==> ItemLinked(graph, items[i])
      modifies this, indentChars
      ensures Wrote(old(place.done).Group(SchemaInformation, NamespaceItemNodes(graph, items, |items|)))
    {
      hide Valid, Noted, Asked, TabsOk, Traces, TableOk, Pending, Plainly, PlainlyBut, Joined, NamespaceItemNodes,
           ItemLinked;
      SendIndentedElement(SchemaInformation);
      SendEachItem(items);
      SendUnindentedElement(SchemaInformation);
    }

    method SendEachItem(items: seq<NamespaceItem>)
      requires Valid() && place.done == Start && forall i :: 0 <= i < |items| ==> ItemLinked(graph, items[i])
      modifies this, indentChars
      ensures Wrote(NamespaceItemNodes(graph, items, |items|))
    {
      hide Valid, Noted, Asked, TabsOk, Traces, TableOk, Pending, Plainly, PlainlyBut, Joined, NamespaceItemNodes,
           ItemLinked;
      NoItems(items);
      for i := 0 to |items|
        invariant Wrote(NamespaceItemNodes(graph, items, i))
      {
        ProcessNamespaceItem(items, i, items[i]);
      }
    }

    lemma NoItems(items: seq<NamespaceItem>)
      ensures NamespaceItemNodes(graph, items, 0) == Start
    {
    }

    method ProcessNamespaceItem(ghost items: seq<NamespaceItem>, ghost i: nat, item: NamespaceItem)
      requires Valid() && i < |items| && items[i] == item && ItemLinked(graph, item)
      requires place.done == NamespaceItemNodes(graph, items, i)
      modifies this, indentChars
      ensures Wrote(NamespaceItemNodes(graph, items, i + 1))
    {
      if item.namespace != XML_SCHEMA_URI {
        SendNamespaceItem(item);
      }
    }

    method SendNamespaceItem(item: NamespaceItem)
      requires Valid() && ItemLinked(graph, item)
      modifies this, indentChars
      ensures Wrote(old(place.done).Group(NamespaceSchemaInformation, NamespaceItemBody(graph, item)))
    {
      hide Valid, Noted, Asked, TabsOk, Traces, TableOk, Pending, Plainly, PlainlyBut, Joined, NamespaceItemBody,
           ItemLinked;
      SendIndentedElement(NamespaceSchemaInformation);
      SendNamespaceBody(item);
      SendUnindentedElement(NamespaceSchemaInformation);
    }

    method SendNamespaceBody(item: NamespaceItem)
      requires Valid() && ItemLinked(graph, item) && place.done == Start
      modifies this, indentChars
      ensures Wrote(NamespaceItemBody(graph, item))
    {
      hide Valid, Noted, Asked, TabsOk, Traces, TableOk, Pending, Plainly, PlainlyBut, Joined, ComponentsBody,
           LocationNodes, SchemaAnnotationsPlan, ItemLinked;
      SendElementValue(SchemaNamespace, item.namespace);
      ProcessSchemaComponents(item);
      ProcessSchemaDocuments(item.locations);
      ProcessSchemaAnnotations(item.annotations);
    }

    method ProcessSchemaComponents(item: NamespaceItem)
      requires Valid() && ItemLinked(graph, item)
      modifies this, indentChars
      ensures Wrote(old(place.done).Group(SchemaComponents, ComponentsBody(graph, item)))
    {
      hide Valid, Noted, Asked, TabsOk, Traces, TableOk, Pending, Plainly, PlainlyBut, Joined, ComponentsBody,
           ItemLinked;
      SendIndentedElement(SchemaComponents);
      DefineComponents(item);
      SendUnindentedElement(SchemaComponents);
    }

    method DefineComponents(item: NamespaceItem)
      requires Valid() && ItemLinked(graph, item) && place.done == Start
      modifies this, indentChars
      ensures Wrote(ComponentsBody(graph, item))
    {
      hide Valid, Noted, Asked, TabsOk, Traces, TableOk, Pending, Plainly, PlainlyBut, Joined, AllDefinitions,
           DeclarationsBody, IsType, IsAttribute, IsElement, IsAttributeGroup, IsModelGroup, IsNotation;
      DefineDeclarations(item);
      DefineAttributeGroups(item.attributeGroups);
      DefineModelGroups(item.modelGroups);
      DefineNotations(item.notations);
    }

    method DefineDeclarations(item: NamespaceItem)
      requires Valid() && ItemLinked(graph, item) && place.done == Start
      modifies this, indentChars
      ensures Wrote(DeclarationsBody(graph, item))
    {
      hide Valid, Noted, Asked, TabsOk, Traces, TableOk, Pending, Plainly, PlainlyBut, Joined, AllDefinitions, IsType,
           IsAttribute, IsElement, IsAttributeGroup, IsModelGroup, IsNotation;
      DefineTypes(item.types);
      DefineAttributes(item.attributes);
      DefineElements(item.elements);
    }

    method DefineTypes(list: seq<Obj>)
      requires Valid() && forall i :: 0 <= i < |list| ==> IsType(graph, list[i])
      modifies this, indentChars
      ensures Wrote(AllDefinitions(graph, old(place.done), list))
    {
      hide Valid, Noted, Asked, TabsOk, Traces, TableOk, Pending, Plainly, PlainlyBut, Joined, IsType, Contents, TagOf;
      for i := 0 to |list|
        invariant Wrote(DefinitionNodes(graph, old(place.done), list, i))
      {
        ProcessTypeDefinition(list[i]);
      }
    }

    method DefineAttributes(list: seq<Obj>)
      requires Valid() && forall i :: 0 <= i < |list| ==> IsAttribute(graph, list[i])
      modifies this, indentChars
      ensures Wrote(AllDefinitions(graph, old(place.done), list))
    {
      hide Valid, Noted, Asked, TabsOk, Traces, TableOk, Pending, Plainly, PlainlyBut, Joined, IsAttribute, Contents,
           TagOf;
      for i := 0 to |list|
        invariant Wrote(DefinitionNodes(graph, old(place.done), list, i))
      {
        ProcessAttributeDeclaration(list[i]);
      }
    }

    method DefineElements(list: seq<Obj>)
      requires Valid() && forall i :: 0 <= i < |list| ==> IsElement(graph, list[i])
      modifies this, indentChars
      ensures Wrote(AllDefinitions(graph, old(place.done), list))
    {
      hide Valid, Noted, Asked, TabsOk, Traces, TableOk, Pending, Plainly, PlainlyBut, Joined, IsElement, Contents,
           TagOf;
      for i := 0 to |list|
        invariant Wrote(DefinitionNodes(graph, old(place.done), list, i))
      {
        ProcessElementDeclaration(list[i]);
      }
    }

    method DefineAttributeGroups(list: seq<Obj>)
      requires Valid() && forall i :: 0 <= i < |list| ==> IsAttributeGroup(graph, list[i])
      modifies this, indentChars
      ensures Wrote(AllDefinitions(graph, old(place.done), list))
    {
      hide Valid, Noted, Asked, TabsOk, Traces, TableOk, Pending, Plainly, PlainlyBut, Joined, IsAttributeGroup,
           Contents, TagOf;
      for i := 0 to |list|
        invariant Wrote(DefinitionNodes(graph, old(place.done), list, i))
      {
        ProcessAttributeGroupDefinition(list[i]);
      }
    }

    method DefineModelGroups(list: seq<Obj>)
      requires Valid() && forall i :: 0 <= i < |list| ==> IsModelGroup(graph, list[i])
      modifies this, indentChars
      ensures Wrote(AllDefinitions(graph, old(place.done), list))
    {
      hide Valid, Noted, Asked, TabsOk, Traces, TableOk, Pending, Plainly, PlainlyBut, Joined, IsModelGroup, Contents,
           TagOf;
      for i := 0 to |list|
        invariant Wrote(DefinitionNodes(graph, old(place.done), list, i))
      {
        ProcessModelGroupDefinition(list[i]);
      }
    }

    method DefineNotations(list: seq<Obj>)
      requires Valid() && forall i :: 0 <= i < |list| ==> IsNotation(graph, list[i])
      modifies this, indentChars
      ensures Wrote(AllDefinitions(graph, old(place.done), list))
    {
      hide Valid, Noted, Asked, TabsOk, Traces, TableOk, Pending, Plainly, PlainlyBut, Joined, IsNotation, Contents,
           TagOf;
      for i := 0 to |list|
        invariant Wrote(DefinitionNodes(graph, old(place.done), list, i))
      {
        ProcessNotationDeclaration(list[i]);
      }
    }

    lemma GroupLinks(o: Obj)
      requires o in graph
      ensures graph[o].OfAttributeGroup? ==>
                UsesLinked(graph, graph[o].attributeGroup.attributeUses) &&
                TagOf(graph, o) == AttributeGroupDefinition &&
                Contents(graph, o) == AttributeGroupBody(graph[o].attributeGroup)
      ensures graph[o].OfModelGroup? ==>
                GroupLinked(graph, graph[o].modelGroup.group) &&
                TagOf(graph, o) == ModelGroupDefinition && Contents(graph, o) == ModelGroupDefBody(graph[o].modelGroup)
      ensures graph[o].OfNotation? ==>
                TagOf(graph, o) == NotationDeclaration && Contents(graph, o) == NotationDeclBody(graph[o].notation)
    {
      assert Linked(graph, graph[o]);
    }

    method ProcessAttributeGroupDefinition(o: Obj)
      requires Valid() && IsAttributeGroup(graph, o)
      modifies this, indentChars
      ensures Wrote(old(place.done).Defined(TagOf(graph, o), o, Contents(graph, o)))
    {
      hide Valid, Noted, Asked, TabsOk, Traces, TableOk, Pending, Plainly, PlainlyBut, Joined, AllLinked, UsesLinked,
           GroupLinked, AttributeGroupBody, Contents, TagOf;
      GroupLinks(o);
      SendIndentedElementWithId(AttributeGroupDefinition, o);
      SendAttributeGroup(graph[o].attributeGroup);
      SendUnindentedElement(AttributeGroupDefinition);
    }

    method SendAttributeGroup(x: AttributeGroup)
      requires Valid() && place.done == Start && UsesLinked(graph, x.attributeUses)
      modifies this, indentChars
      ensures Wrote(AttributeGroupBody(x))
    {
      hide Valid, Noted, Asked, TabsOk, Traces, TableOk, Pending, Plainly, PlainlyBut, Joined, AttributeUsesPlan,
           AttributeWildcardPlan, AnnotationPlan, UsesLinked;
      SendElementValue(Name, x.name);
      SendElementValue(TargetNamespace, x.namespace);
      ProcessAttributeUses(x.attributeUses);
      ProcessAttributeWildcard(x.attributeWildcard);
      ProcessAnnotation(x.annotation);
    }

    method ProcessModelGroupDefinition(o: Obj)
      requires Valid() && IsModelGroup(graph, o)
      modifies this, indentChars
      ensures Wrote(old(place.done).Defined(TagOf(graph, o), o, Contents(graph, o)))
    {
      hide Valid, Noted, Asked, TabsOk, Traces, TableOk, Pending, Plainly, PlainlyBut, Joined, AllLinked, UsesLinked,
           GroupLinked, ModelGroupDefBody, Contents, TagOf;
      GroupLinks(o);
      SendIndentedElementWithId(ModelGroupDefinition, o);
      SendModelGroupDef(graph[o].modelGroup);
      SendUnindentedElement(ModelGroupDefinition);
    }

    method SendModelGroupDef(x: ModelGroupDef)
      requires Valid() && place.done == Start && GroupLinked(graph, x.group)
      modifies this, indentChars
      ensures Wrote(ModelGroupDefBody(x))
    {
      hide Valid, Noted, Asked, TabsOk, Traces, TableOk, Pending, Plainly, PlainlyBut, Joined, ModelGroupPlan,
           AnnotationPlan, GroupLinked;
      SendElementValue(Name, x.name);
      SendElementValue(TargetNamespace, x.namespace);
      ProcessModelGroup(x.group);
      ProcessAnnotation(x.annotation);
    }

    method ProcessNotationDeclaration(o: Obj)
      requires Valid() && IsNotation(graph, o)
      modifies this, indentChars
      ensures Wrote(old(place.done).Defined(TagOf(graph, o), o, Contents(graph, o)))
    {
      hide Valid, Noted, Asked, TabsOk, Traces, TableOk, Pending, Plainly, PlainlyBut, Joined, AllLinked, UsesLinked,
           GroupLinked, NotationDeclBody, Contents, TagOf;
      GroupLinks(o);
      SendIndentedElementWithId(NotationDeclaration, o);
      SendNotation(graph[o].notation);
      SendUnindentedElement(NotationDeclaration);
    }

    method SendNotation(x: NotationDecl)
      requires Valid() && place.done == Start
      modifies this, indentChars
      ensures Wrote(NotationDeclBody(x))
    {
      hide Valid, Noted, Asked, TabsOk, Traces, TableOk, Pending, Plainly, PlainlyBut, Joined, AnnotationPlan;
      SendElementValue(Name, x.name);
      SendElementValue(TargetNamespace, x.namespace);
      SendElementValue(SystemIdentifier, x.systemId);
      SendElementValue(PublicIdentifier, x.publicId);
      ProcessAnnotation(x.annotation);
    }

    method ProcessSchemaDocuments(locations: seq<string>)
      requires Valid()
      modifies this, indentChars
      ensures Wrote(old(place.done).Group(SchemaDocuments, LocationNodes(locations, |locations|)))
    {
      hide Valid, Noted, Asked, TabsOk, Traces, TableOk, Pending, Plainly, PlainlyBut, Joined, LocationNodes;
      SendIndentedElement(SchemaDocuments);
      SendEachLocation(locations);
      SendUnindentedElement(SchemaDocuments);
    }

    method SendEachLocation(locations: seq<string>)
      requires Valid() && place.done == Start
      modifies this, indentChars
      ensures Wrote(LocationNodes(locations, |locations|))
    {
      hide Valid, Noted, Asked, TabsOk, Traces, TableOk, Pending, Plainly, PlainlyBut, Joined;
      for i := 0 to |locations|
        invariant Wrote(LocationNodes(locations, i))
      {
        SendLocation(locations[i]);
      }
    }

    method SendLocation(location: string)
      requires Valid()
      modifies this, indentChars
      ensures Wrote(old(place.done).Group(SchemaDocument, Start.Val(DocumentLocation, location).Absent(PsvDocument)))
    {
      hide Valid, Noted, Asked, TabsOk, Traces, TableOk, Pending, Plainly, PlainlyBut, Joined;
      SendIndentedElement(SchemaDocument);
      SendElementValue(DocumentLocation, location);
      SendElementEmpty(PsvDocument);
      SendUnindentedElement(SchemaDocument);
    }

    method ProcessSchemaAnnotations(annotations: Option<seq<Annotation>>)
      requires Valid()
      modifies this, indentChars
      ensures Wrote(SchemaAnnotationsPlan(old(place.done), annotations))
    {
      if annotations.None? || |annotations.value| == 0 {
        SendElementEmpty(SchemaAnnotations);
      } else {
        SendAnnotations(SchemaAnnotations, annotations.value);
      }
    }

    // -----------------------------------------------------------------------
    //  Attributes and actual values
    // -----------------------------------------------------------------------

    method ProcessActualValue(value: ActualValue)
      requires Valid()
      modifies this, indentChars
      ensures Wrote(ActualValuePlan(old(place.done), value)) && nsAttributes == old(nsAttributes)
    {
      if !value.NoValue? {
        SendActualValue(value);
      }
    }

    method SendActualValue(value: ActualValue)
      requires Valid()
      modifies this, indentChars
      ensures Wrote(old(place.done).Noted(Start.Group(Tag.ActualValue, ActualValueBody(value))))
      ensures nsAttributes == old(nsAttributes)
    {
      hide Valid, Noted, Asked, TabsOk, Traces, TableOk, Pending, Plainly, PlainlyBut, Joined, ActualValueBody;
      OpenInComment(Tag.ActualValue);
      SendActualValueBody(value);
      CloseInComment(Tag.ActualValue);
    }

    method SendActualValueBody(value: ActualValue)
      requires Valid() && place.done == Start
      modifies this, indentChars
      ensures Wrote(ActualValueBody(value)) && nsAttributes == old(nsAttributes)
    {
      if value.ShownValue? {
        SendText(DataType, value.dataType);
        SendText(DataValue, value.dataValue);
      }
    }

    method ProcessAttributePSVI(p: Option<PsviAttribute>)
      requires Valid() && (p.Some? ==> PsviAttributeLinked(graph, p.value))
      modifies this, indentChars
      ensures Wrote(AttributePsviPlan(graph, old(place.done), p))
    {
      if p.Some? {
        SendAssessment(p.value);
        ProcessActualValue(p.value.actual);
      }
    }

    method SendAssessment(a: PsviAttribute)
      requires Valid() && PsviAttributeLinked(graph, a)
      modifies this, indentChars
      ensures Wrote(AssessedPlan(graph, old(place.done), a))
    {
      hide Valid, Noted, Asked, TabsOk, Traces, TableOk, Pending, Plainly, PlainlyBut, Joined, TypeRef, TypeHere,
           DeclRef, AttributeOutcome, TypeLink, AttributeLink, AllLinked;
      SendAttributeOutcome(a);
      ProcessTypeDefinitionRef(TypeDefinition, a.typeDefinition);
      ProcessTypeDefinitionOrRef(MemberTypeDefinition, a.memberType);
      ProcessAttributeDeclarationRef(a.declaration);
    }

    method SendAttributeOutcome(a: PsviAttribute)
      requires Valid()
      modifies this, indentChars
      ensures Wrote(AttributeOutcome(old(place.done), a))
    {
      hide Valid, Noted, Asked, TabsOk, Traces, TableOk, Pending, Plainly, PlainlyBut, Joined;
      SendElementValue(ValidationAttempted, a.validationAttempted);
      SendElementValue(ValidationContext, a.validationContext);
      SendElementValue(Validity, a.validity);
      SendElementEmpty(SchemaErrorCode);
      SendElementValue(SchemaNormalizedValue, a.normalizedValue);
      SendElementValue(SchemaSpecified, SpecifiedText(a.schemaSpecified));
      SendElementValue(SchemaDefault, a.schemaDefault);
    }

    method ProcessAttribute(list: PsviAttributes, i: nat)
      requires Valid() && i < |attributesInfo| && PsviAttributesLinked(graph, list)
      modifies this, indentChars
      ensures Wrote(old(place.done).Group(Attribute,
                      AttributeBody(graph, old(Scope()), old(attributesInfo), list, i)))
    {
      hide Valid, Noted, Asked, TabsOk, Traces, TableOk, Pending, Plainly, PlainlyBut, Joined, AttributeBody,
           AllLinked, PsviAttributesLinked;
      SendIndentedElement(Attribute);
      SendAttributeBody(list, i);
      SendUnindentedElement(Attribute);
    }

    method SendAttributeBody(list: PsviAttributes, i: nat)
      requires Valid() && i < |attributesInfo| && PsviAttributesLinked(graph, list) && place.done == Start
      modifies this, indentChars
      ensures Wrote(AttributeBody(graph, old(Scope()), old(attributesInfo), list, i))
    {
      hide Valid, Noted, Asked, TabsOk, Traces, TableOk, Pending, Plainly, PlainlyBut, Joined, AttributePsviPlan,
           AttributeInfoBody, AllLinked;
      ByNameLinked(list, attributesInfo[i]);
      SendAttributeInfo(attributesInfo[i], list.AtIndex(i));
      ProcessAttributePSVI(list.ByName(attributesInfo[i]));
    }

    lemma ByNameLinked(list: PsviAttributes, a: AttrInfo)
      requires PsviAttributesLinked(graph, list)
      ensures list.ByName(a).Some? ==> PsviAttributeLinked(graph, list.ByName(a).value)
    {
    }

    method SendAttributeName(a: AttrInfo)
      requires Valid() && place.done == Start
      modifies this, indentChars
      ensures Wrote(Start.Val(NamespaceName, a.uri).Val(LocalName, a.localName)
                         .Val(Prefix, Names.PrefixOf(old(Scope()), a.uri)))
      ensures nsAttributes == old(nsAttributes)
    {
      hide Valid, Noted, Asked, TabsOk, Traces, TableOk, Pending, Plainly, PlainlyBut, Joined;
      SendElementValue(NamespaceName, a.uri);
      SendElementValue(LocalName, a.localName);
      var prefix := PrefixFor(a.uri);
      SendElementValue(Prefix, prefix);
    }

    method SendAttributeInfo(a: AttrInfo, p: Option<PsviAttribute>)
      requires Valid() && place.done == Start
      modifies this, indentChars
      ensures Wrote(AttributeInfoBody(old(Scope()), a, p)) && nsAttributes == old(nsAttributes)
    {
      hide Valid, Noted, Asked, TabsOk, Traces, TableOk, Pending, Plainly, PlainlyBut, Joined, SpecifiedValue;
      SendAttributeName(a);
      SendElementValue(NormalizedValue, a.value);
      SendElementValue(Specified, SpecifiedValue(p));
      SendElementValue(AttributeType, a.attrType);
      SendElementEmpty(References);
    }

    /**
     * The program asks whether an attribute's namespace is the very string object of the xmlns namespace.
     * AttrInfo holds copies, so the answer is always no and every attribute is shown as an ordinary one.
     */
    method ProcessAttributes(list: PsviAttributes) returns (threw: bool)
      requires Valid() && PsviAttributesLinked(graph, list)
      modifies this, indentChars
      ensures Steady()
      ensures nsAttributes == NotesLeft(graph, old(definedIds), Scope(), attributesInfo, list)
      ensures threw <==> !AllFindable(attributesInfo, list, nsAttributes)
      ensures !threw ==>
                place == old(place).(done :=
                  NotesPlan(AttributesPlan(graph, Scope(), old(place.done), attributesInfo, list),
                            attributesInfo, list, nsAttributes))
      ensures threw ==>
                place == Broken(old(place).(done :=
                                  AttributesPlan(graph, Scope(), old(place.done), attributesInfo, list)),
                                attributesInfo, list, nsAttributes)
    {
      SendAttributes(list);
      threw := ProcessNamespaceAttributes(list);
    }

    method SendAttributes(list: PsviAttributes)
      requires Valid() && PsviAttributesLinked(graph, list)
      modifies this, indentChars
      ensures Wrote(AttributesPlan(graph, Scope(), old(place.done), attributesInfo, list))
      ensures nsAttributes == NotesLeft(graph, old(definedIds), Scope(), attributesInfo, list)
    {
      StartAttributes();
      if |attributesInfo| == 0 {
        SendBlank(Attributes);
      } else {
        SendAllAttributes(list);
      }
      AttributesNoted(list, old(place), old(definedIds));
    }

    method StartAttributes()
      requires Valid()
      modifies this`nsAttributes, this`place
      ensures SteadyRest() && Noted() && place == old(place).(done := old(place.done).Marked([]))
    {
      ClearNamespaceAttributes();
      RecordNotes();
    }

    lemma AttributesNoted(list: PsviAttributes, z: Place, d: seq<Obj>)
      requires Noted() && d == DefinedAt(graph, z)
      requires place == z.(done := AttributesPlan(graph, Scope(), z.done, attributesInfo, list))
      ensures nsAttributes == NotesLeft(graph, d, Scope(), attributesInfo, list)
    {
      NotesLeftAt(graph, z, Scope(), attributesInfo, list);
    }

    method SendAllAttributes(list: PsviAttributes)
      requires Valid() && PsviAttributesLinked(graph, list)
      modifies this, indentChars
      ensures Wrote(old(place.done).Group(Attributes,
                      AttributeNodes(graph, old(Scope()), old(attributesInfo), list, |old(attributesInfo)|)))
    {
      hide Valid, Noted, Asked, TabsOk, Traces, TableOk, Pending, Plainly, PlainlyBut, Joined, AttributeNodes,
           AllLinked, PsviAttributesLinked;
      SendIndentedElement(Attributes);
      SendEachAttribute(list);
      SendUnindentedElement(Attributes);
    }

    method SendEachAttribute(list: PsviAttributes)
      requires Valid() && PsviAttributesLinked(graph, list) && place.done == Start
      modifies this, indentChars
      ensures Wrote(AttributeNodes(graph, old(Scope()), old(attributesInfo), list, |old(attributesInfo)|))
    {
      hide Valid, Noted, Asked, TabsOk, Traces, TableOk, Pending, Plainly, PlainlyBut, Joined, AttributeNodes,
           AllLinked, PsviAttributesLinked;
      NoAttributes(list);
      for i := 0 to |attributesInfo|
        invariant attributesInfo == old(attributesInfo)
        invariant Wrote(AttributeNodes(graph, old(Scope()), old(attributesInfo), list, i))
      {
        SendNextAttribute(list, i);
      }
    }

    lemma NoAttributes(list: PsviAttributes)
      ensures AttributeNodes(graph, Scope(), attributesInfo, list, 0) == Start
    {
    }

    method SendNextAttribute(list: PsviAttributes, i: nat)
      requires Valid() && PsviAttributesLinked(graph, list) && i < |attributesInfo|
      requires place.done == AttributeNodes(graph, Scope(), attributesInfo, list, i)
      modifies this, indentChars
      ensures Wrote(AttributeNodes(graph, old(Scope()), old(attributesInfo), list, i + 1))
    {
      hide Valid, Noted, Asked, TabsOk, Traces, TableOk, Pending, Plainly, PlainlyBut, Joined, AttributeBody,
           AllLinked, PsviAttributesLinked;
      ProcessAttribute(list, i);
    }

    /**
     * Shows the attributes at the places noted. It stops at a place without an attribute, where the list
     * throws, or without an assessed one, where the program follows a NULL pointer.
     */
    method ProcessNamespaceAttributes(list: PsviAttributes) returns (threw: bool)
      requires Valid()
      modifies this, indentChars
      ensures Steady() && nsAttributes == old(nsAttributes)
      ensures threw <==> !AllFindable(attributesInfo, list, nsAttributes)
      ensures !threw ==>
                place == old(place).(done := NotesPlan(old(place.done), attributesInfo, list, nsAttributes))
      ensures threw ==> place == Broken(old(place), attributesInfo, list, nsAttributes)
    {
      if |nsAttributes| == 0 {
        threw := false;
        SendBlank(NamespaceAttributes);
      } else {
        SendIndentedElement(NamespaceAttributes);
        threw := SendNotes(list);
        if !threw {
          SendUnindentedElement(NamespaceAttributes);
        }
      }
    }

    method SendNotes(list: PsviAttributes) returns (threw: bool)
      requires Valid() && place.done == Start
      modifies this, indentChars
      ensures Steady() && nsAttributes == old(nsAttributes)
      ensures threw <==> !AllFindable(attributesInfo, list, nsAttributes)
      ensures !threw ==>
                place == old(place).(done := NoteNodes(attributesInfo, list, nsAttributes, |nsAttributes|))
      ensures threw ==> place == BrokenAt(old(place), attributesInfo, list, nsAttributes)
    {
      hide Valid, Noted, Asked, TabsOk, Traces, TableOk, Pending, Plainly, PlainlyBut, Joined, NotesShown;
      NothingNoted(place, attributesInfo, list, nsAttributes);
      threw := false;
      var count := 0;
      while count < |nsAttributes| && !threw
        invariant count <= |nsAttributes| && nsAttributes == old(nsAttributes) && Steady()
        invariant NotesShown(old(place), attributesInfo, list, nsAttributes, count, threw, place)
        decreases |nsAttributes| - count, !threw
      {
        threw := SendNextNote(list, count, old(place));
        count := count + 1;
      }
      NotesOutcome(old(place), attributesInfo, list, nsAttributes, count, threw, place);
    }

    method SendNextNote(list: PsviAttributes, count: nat, ghost z: Place) returns (threw: bool)
      requires Valid() && count < |nsAttributes|
      requires NotesShown(z, attributesInfo, list, nsAttributes, count, false, place)
      modifies this, indentChars
      ensures Steady() && nsAttributes == old(nsAttributes)
      ensures NotesShown(z, attributesInfo, list, nsAttributes, count + 1, threw, place)
    {
      hide Valid, Noted, Asked, TabsOk, Traces, TableOk, Pending, Plainly, PlainlyBut, Joined, NotesShown, Findable,
           NoteBody, BrokenNote;
      threw := TryNote(list, nsAttributes[count]);
      NextNoteShown(z, attributesInfo, list, nsAttributes, count, old(place), threw, place);
    }

    method TryNote(list: PsviAttributes, i: nat) returns (threw: bool)
      requires Valid()
      modifies this, indentChars
      ensures Steady() && nsAttributes == old(nsAttributes)
      ensures threw <==> !Findable(old(attributesInfo), list, i)
      ensures !threw ==> Wrote(old(place.done).Group(Attribute, NoteBody(old(attributesInfo), list, i)))
      ensures threw ==> Within(Attribute, Plain, BrokenNote(old(attributesInfo), i))
    {
      StartNote();
      threw := true;
      if i < |attributesInfo| {
        SendNoteHead(attributesInfo[i]);
        var p := list.ByName(attributesInfo[i]);
        if p.Some? {
          FinishNote(attributesInfo[i], p.value.schemaSpecified);
          threw := false;
        }
      }
    }

    method StartNote()
      requires Valid()
      modifies this, indentChars
      ensures Within(Attribute, Plain, Start.Val(NamespaceName, XMLNS_URI)) && nsAttributes == old(nsAttributes)
    {
      hide Valid, Noted, Asked, TabsOk, Traces, TableOk, Pending, Plainly, PlainlyBut, Joined;
      SendIndentedElement(Attribute);
      SendElementValue(NamespaceName, XMLNS_URI);
    }

    method SendNoteHead(a: AttrInfo)
      requires Valid() && place.done == Start.Val(NamespaceName, XMLNS_URI)
      modifies this, indentChars
      ensures Wrote(NoteHead(a)) && nsAttributes == old(nsAttributes)
    {
      hide Valid, Noted, Asked, TabsOk, Traces, TableOk, Pending, Plainly, PlainlyBut, Joined;
      SendElementValue(LocalName, a.localName);
      SendElementValue(Prefix, "xmlns");
      SendElementValue(NormalizedValue, a.value);
    }

    method FinishNote(a: AttrInfo, schemaSpecified: bool)
      requires Valid() && place.done == NoteHead(a) && place.around.Tagged? && place.around.tag == Attribute
      modifies this, indentChars
      ensures Steady() && place == Leave(old(place).(done := NoteInfo(a, schemaSpecified)))
      ensures nsAttributes == old(nsAttributes)
    {
      hide Valid, Noted, Asked, TabsOk, Traces, TableOk, Pending, Plainly, PlainlyBut, Joined, NoteHead;
      SendElementValue(Specified, BoolText(schemaSpecified));
      SendElementValue(AttributeType, a.attrType);
      SendElementEmpty(References);
      SendUnindentedElement(Attribute);
    }

    method ProcessInScopeNamespaces()
      requires Valid()
      modifies this, indentChars
      ensures Wrote(old(place.done).Group(InScopeNamespaces, NamespaceNodes(old(Scope()), |old(namespaces)|)))
      ensures nsAttributes == old(nsAttributes)
    {
      hide Valid, Noted, Asked, TabsOk, Traces, TableOk, Pending, Plainly, PlainlyBut, Joined, Quiet, CommentsFlat,
           Fixed, NoSchema, NamespaceNodes, Names.WellFormed;
      SendIndentedElement(InScopeNamespaces);
      SendEachInScope();
      SendUnindentedElement(InScopeNamespaces);
    }

    method SendEachInScope()
      requires Valid() && place.done == Start
      modifies this, indentChars
      ensures Wrote(NamespaceNodes(old(Scope()), |old(namespaces)|)) && nsAttributes == old(nsAttributes)
    {
      hide Valid, Noted, Asked, TabsOk, Traces, TableOk, Pending, Plainly, PlainlyBut, Joined, Quiet, CommentsFlat,
           Fixed, NoSchema, NamespaceNodes, Names.WellFormed;
      SendXmlNamespace();
      for i := 0 to |namespaces|
        invariant namespaces == old(namespaces) && nsAttributes == old(nsAttributes)
        invariant Wrote(NamespaceNodes(old(Scope()), i))
      {
        SendInScopeNamespace(i);
      }
    }

    method SendXmlNamespace()
      requires Valid() && place.done == Start
      modifies this, indentChars
      ensures Wrote(NamespaceNodes(old(Scope()), 0)) && nsAttributes == old(nsAttributes)
    {
      hide Valid, Noted, Asked, TabsOk, Traces, TableOk, Pending, Plainly, PlainlyBut, Joined, Names.WellFormed;
      SendNamespace("xml", XML_URI);
    }

    method SendInScopeNamespace(i: nat)
      requires Valid() && i < |namespaces| && place.done == NamespaceNodes(Scope(), i)
      modifies this, indentChars
      ensures Wrote(NamespaceNodes(old(Scope()), i + 1)) && nsAttributes == old(nsAttributes)
    {
      hide Valid, Noted, Asked, TabsOk, Traces, TableOk, Pending, Plainly, PlainlyBut, Joined, Names.WellFormed;
      var prefix := PrefixFor(namespaces[i]);
      SendNamespace(prefix, namespaces[i]);
    }

    method SendNamespace(prefix: string, uri: string)
      requires Valid()
      modifies this, indentChars
      ensures Wrote(old(place.done).Group(Namespace, Start.Val(Prefix, prefix).Val(NamespaceName, uri)))
      ensures nsAttributes == old(nsAttributes)
    {
      hide Valid, Noted, Asked, TabsOk, Traces, TableOk, Pending, Plainly, PlainlyBut, Joined;
      SendIndentedElement(Namespace);
      SendElementValue(Prefix, prefix);
      SendElementValue(NamespaceName, uri);
      SendUnindentedElement(Namespace);
    }

    /** A callback begins: the mentions made so far were made before it. */
    ghost method StartAsking()
      requires Valid()
      modifies this`asked
      ensures Valid() && Asked() && asked == requests
    {
      hide TabsOk, Traces, MentionedAt, MintAll, TableOk, AllLinked, Names.WellFormed;
      asked := requests;
    }

    // -----------------------------------------------------------------------
    //  Callbacks: start and end of the document
    // -----------------------------------------------------------------------

    constructor (components: Graph)
      ensures graph == components && AtRest() && output == [] && fresh(indentChars)
    {
      graph := components;
      output, attrList := [], [];
      indentChars := new char[101](_ => NUL);
      indent, indentCap, anonNum := 0, 100, 1000;
      idMap, definedIds := map[], [];
      prefixMap, namespaces := map[], [];
      nsAttributes, elementChildren, attributesInfo, baseUri := [], [], [], "";
      counted, prefixes, requests, asked := map[], map[], [], [];
      place, earlier := Idle(), [];
    }

    method ClearTabs()
      requires TabsOk()
      modifies this`indent, indentChars
      ensures TabsOk() && indent == 0
    {
      indent := 0;
      indentChars[0] := NUL;
    }

    method ResetDocument()
      requires Valid()
      modifies this, indentChars
      ensures AtRest() && output == old(output) && indentChars == old(indentChars)
    {
      hide TabsOk, Traces, NotesAt, MentionedAt, MintAll, Asked, TableOk, AllLinked, Names.WellFormed, Cleared;
      ClearFields();
      ClearedIsValid();
    }

    method ClearFields()
      requires TabsOk()
      modifies this, indentChars
      ensures TabsOk() && Cleared() && output == old(output) && indentChars == old(indentChars)
    {
      ClearTabs();
      ClearIds();
      baseUri, prefixMap, namespaces, elementChildren := "", map[], [], [];
      place, earlier := Idle(), output;
    }

    method ClearIds()
      modifies this`anonNum, this`idMap, this`definedIds, this`counted, this`prefixes, this`requests
      ensures anonNum == FIRST_NUMBER && idMap == map[] && definedIds == []
      ensures counted == map[] && prefixes == map[] && requests == []
    {
      anonNum := 1000;
      idMap, definedIds := map[], [];
      counted, prefixes, requests := map[], map[], [];
    }

    lemma ClearedIsValid()
      requires TabsOk() && Cleared()
      ensures Valid()
    {
      EmptyTableOk(graph);
      IdleTraces(graph, output);
    }

    /** A fatal error ends the document wherever it is; the error report is not part of the output here. */
    method FatalError()
      requires Valid()
      modifies this, indentChars
      ensures AtRest() && output == old(output) && indentChars == old(indentChars)
    {
      ResetDocument();
    }

    method StartDocument()
      requires Valid()
      modifies this, indentChars
      ensures Kept() && place == Enter(old(place), Document, Root)
      ensures elementChildren == old(elementChildren) + [false]
      ensures old(place) == Idle() && old(elementChildren) == [] ==> Between()
    {
      hide Valid, Noted, Asked, TabsOk, Traces, TableOk, Pending, Shape;
      DocumentShape();
      assert [] + [false] == [false];
      OpenDocument();
      PushChildren(false);
    }

    method OpenDocument()
      requires Valid()
      modifies this, indentChars
      ensures Steady() && place == Enter(old(place), Document, Root)
    {
      hide TabsOk, Traces, NotesAt, MentionedAt, MintAll, Asked, TableOk, AllLinked, Names.WellFormed, Undefined,
           RootAttrs;
      assert definedIds + [] == definedIds;
      EnterTraces(graph, idMap, place, earlier, output, definedIds, Document, Root);
      EnterRecords(graph, place, Tagged(Document, Root, place));
      attrList := RootAttrs();
      WriteLevel(Document, attrList);
      place := Enter(place, Document, Root);
    }

    method PushChildren(isOpen: bool)
      requires Valid()
      modifies this`elementChildren
      ensures Kept() && place == old(place) && elementChildren == old(elementChildren) + [isOpen]
      ensures definedIds == old(definedIds)
    {
      elementChildren := elementChildren + [isOpen];
    }

    method PopChildren() returns (isOpen: bool)
      requires Valid() && elementChildren != []
      modifies this`elementChildren
      ensures Kept() && place == old(place) && definedIds == old(definedIds)
      ensures elementChildren == old(elementChildren)[..|old(elementChildren)| - 1]
      ensures isOpen == old(elementChildren)[|old(elementChildren)| - 1]
    {
      isOpen := elementChildren[|elementChildren| - 1];
      elementChildren := elementChildren[..|elementChildren| - 1];
    }

    method ProcessChildren()
      requires Valid() && Between()
      modifies this, indentChars
      ensures Kept() && Between() && definedIds == old(definedIds)
      ensures place == ChildPlace(old(place), old(elementChildren))
      ensures elementChildren == ChildFlags(old(elementChildren))
    {
      ShapeChild(place, elementChildren);
      if |elementChildren| != 0 && !elementChildren[|elementChildren| - 1] {
        OpenChildren();
      }
    }

    method OpenChildren()
      requires Valid() && elementChildren != []
      modifies this, indentChars
      ensures Kept() && place == Enter(old(place), Children, Plain) && definedIds == old(definedIds)
      ensures elementChildren == old(elementChildren)[..|old(elementChildren)| - 1] + [true]
    {
      hide Valid, Noted, Asked, TabsOk, Traces, TableOk, Pending;
      var wasOpen := PopChildren();
      SendIndentedElement(Children);
      PushChildren(true);
    }

    method ProcessChildrenEnd()
      requires Valid() && Between() && elementChildren != []
      modifies this, indentChars
      ensures Kept() && place == Closed(old(place), old(elementChildren))
      ensures elementChildren == old(elementChildren)[..|old(elementChildren)| - 1]
    {
      var wasOpen := PopChildren();
      if wasOpen {
        SendUnindentedElement(Children);
      } else {
        SendBlank(Children);
      }
    }

    /** The document's lines are complete; the last property tells what they are, with the ids of the table. */
    method EndDocument() returns (ghost table: IdTable, ghost asks: seq<Request>)
      requires Valid() && Between() && |elementChildren| == 1
      modifies this, indentChars
      ensures AtRest() && TableOk(graph, table) && table == MintAll(graph, EmptyTable(), asks)
      ensures old(Asked()) ==> AskedIn(graph, old(Scope()), old(asked), asks)
      ensures Objects(asks)
           == MentionedAt(graph, DocumentEnd(Closed(old(place), old(elementChildren)), old(baseUri)))
      ensures indentChars == old(indentChars) || fresh(indentChars)
      ensures Traces(graph, table.ids, DocumentEnd(Closed(old(place), old(elementChildren)), old(baseUri)),
                     old(earlier), output,
                     DefinedAt(graph, DocumentEnd(Closed(old(place), old(elementChildren)), old(baseUri))))
    {
      FinishDocument();
      table, asks := Ids(), requests;
      ResetDocument();
    }

    method FinishDocument()
      requires Valid() && Between() && |elementChildren| == 1
      modifies this, indentChars
      ensures Kept()
      ensures place == DocumentEnd(Closed(old(place), old(elementChildren)), old(baseUri))
    {
      hide Valid, Noted, Asked, TabsOk, Traces, TableOk, Pending, Plainly, PlainlyBut, Joined, Closed, ShapeBelow,
           Shape;
      ClosedShape(place, elementChildren);
      DocumentLevel(Closed(place, elementChildren), elementChildren[..0]);
      ProcessChildrenEnd();
      SendElementEmpty(DocumentElement);
      SendBlank(Notations);
      SendBlank(UnparsedEntities);
      SendElementValue(BaseURI, baseUri);
      SendElementValue(AllDeclarationsProcessed, "true");
      SendUnindentedElement(Document);
    }

    lemma DocumentLevel(z: Place, rest: seq<bool>)
      requires ShapeBelow(z, rest) && rest == []
      ensures z.around.Tagged? && z.around.tag == Document && z.around.head == Root
    {
    }

    // -----------------------------------------------------------------------
    //  Callbacks: text, comments, processing instructions, declarations
    // -----------------------------------------------------------------------

    method SendTextChild(tag: Tag, inner: Tag, text: string)
      requires Valid()
      modifies this, indentChars
      ensures Wrote(old(place.done).Group(tag, Start.Val(inner, text)))
    {
      hide Valid, Noted, Asked, TabsOk, Traces, TableOk, Pending, Plainly, PlainlyBut, Joined;
      SendIndentedElement(tag);
      SendElementValue(inner, text);
      SendUnindentedElement(tag);
    }

    method SendInstruction(target: string, data: string)
      requires Valid()
      modifies this, indentChars
      ensures Wrote(old(place.done).Group(ProcessingInstruction, Start.Val(Target, target).Val(Content, data)))
    {
      hide Valid, Noted, Asked, TabsOk, Traces, TableOk, Pending, Plainly, PlainlyBut, Joined;
      SendIndentedElement(ProcessingInstruction);
      SendElementValue(Target, target);
      SendElementValue(Content, data);
      SendUnindentedElement(ProcessingInstruction);
    }

    method Characters(chars: string)
      requires Valid() && Between()
      modifies this, indentChars
      ensures Kept() && Between() && elementChildren == ChildFlags(old(elementChildren))
      ensures var z := ChildPlace(old(place), old(elementChildren));
              place == z.(done := z.done.Group(Character, Start.Val(TextContent, chars)))
    {
      hide Valid, Noted, Asked, TabsOk, Traces, TableOk, Pending, Quiet, CommentsFlat, Fixed, NoSchema, SchemaForms,
           Shape, ChildPlace, ChildFlags;
      ProcessChildren();
      StartFlat();
      ShapeText(place, elementChildren, Character, Start.Val(TextContent, chars));
      SendTextChild(Character, TextContent, chars);
    }

    method IgnorableWhitespace(chars: string)
      requires Valid() && Between()
      modifies this, indentChars
      ensures Steady() && Between() && place == old(place)
    {
    }

    method Comment(chars: string)
      requires Valid() && Between()
      modifies this, indentChars
      ensures Kept() && Between() && elementChildren == ChildFlags(old(elementChildren))
      ensures var z := ChildPlace(old(place), old(elementChildren));
              place == z.(done := z.done.Group(CommentItem, Start.Val(Content, chars)))
    {
      hide Valid, Noted, Asked, TabsOk, Traces, TableOk, Pending, Quiet, CommentsFlat, Fixed, NoSchema, SchemaForms,
           Shape, ChildPlace, ChildFlags;
      ProcessChildren();
      StartFlat();
      ShapeText(place, elementChildren, CommentItem, Start.Val(Content, chars));
      SendTextChild(CommentItem, Content, chars);
    }

    method Instruction(target: string, data: string)
      requires Valid() && Between()
      modifies this, indentChars
      ensures Kept() && Between() && elementChildren == ChildFlags(old(elementChildren))
      ensures var z := ChildPlace(old(place), old(elementChildren));
              place == z.(done := z.done.Group(ProcessingInstruction, Start.Val(Target, target).Val(Content, data)))
    {
      hide Valid, Noted, Asked, TabsOk, Traces, TableOk, Pending, Quiet, CommentsFlat, Fixed, NoSchema, SchemaForms,
           Shape, ChildPlace, ChildFlags;
      ProcessChildren();
      StartFlat();
      ShapeText(place, elementChildren, ProcessingInstruction, Start.Val(Target, target).Val(Content, data));
      SendInstruction(target, data);
    }

    /** The XML declaration; an encoding that is not given is replaced by the one detected. */
    method XMLDecl(version: string, encoding: string, standalone: string, autoEncoding: string)
      requires Valid() && Between()
      modifies this, indentChars
      ensures Steady() && Between()
      ensures place == old(place).(done :=
                old(place.done).Val(CharacterEncodingScheme, if encoding != "" then encoding else autoEncoding)
                .Val(Standalone, standalone).Val(Version, version))
    {
      hide Valid, Noted, Asked, TabsOk, Traces, TableOk, Pending, Quiet, CommentsFlat, Fixed, NoSchema, SchemaForms,
           Shape;
      ShapeDone(place, elementChildren);
      ShapeAdd(place, elementChildren,
               place.done.Val(CharacterEncodingScheme, if encoding != "" then encoding else autoEncoding)
               .Val(Standalone, standalone).Val(Version, version));
      SendElementValue(CharacterEncodingScheme, if encoding != "" then encoding else autoEncoding);
      SendElementValue(Standalone, standalone);
      SendElementValue(Version, version);
    }

    method ResolveEntity(uri: string)
      requires Valid()
      modifies this`baseUri
      ensures Valid() && baseUri == uri
    {
      baseUri := uri;
    }

    // -----------------------------------------------------------------------
    //  Callbacks: namespace mappings
    // -----------------------------------------------------------------------

    method StartPrefixMapping(prefix: string, uri: string)
      requires Valid()
      modifies this`prefixMap, this`namespaces
      ensures Valid() && Scope() == Names.StartMapping(old(Scope()), prefix, uri)
      ensures namespaces == if uri in old(prefixMap) then old(namespaces) else old(namespaces) + [uri]
      ensures prefixMap == if uri in old(prefixMap) then old(prefixMap) else old(prefixMap)[uri := prefix]
    {
      hide TabsOk, Traces, MentionedAt, MintAll, TableOk, AllLinked, Names.WellFormed;
      Names.StartKeepsWellFormed(Scope(), prefix, uri);
      if uri !in prefixMap {
        namespaces := namespaces + [uri];
        prefixMap := prefixMap[uri := prefix];
      }
    }

    method EndPrefixMapping(prefix: string)
      requires Valid()
      modifies this`prefixMap, this`namespaces
      ensures Valid() && Scope() == Names.EndMapping(old(Scope()), prefix)
    {
      hide TabsOk, Traces, MentionedAt, MintAll, TableOk, AllLinked, Names.WellFormed;
      Names.EndKeepsWellFormed(Scope(), prefix);
      var i := FindPrefix(prefix);
      if i < |namespaces| {
        var uri := namespaces[i];
        prefixMap := prefixMap - {uri};
        namespaces := namespaces[..i] + namespaces[i + 1..];
      }
    }

    method FindPrefix(prefix: string) returns (i: nat)
      requires Names.WellFormed(Scope())
      ensures i == Names.FirstWith(Scope(), prefix, 0)
    {
      i := 0;
      while i < |namespaces| && prefixMap[namespaces[i]] != prefix
        invariant i <= |namespaces|
        invariant Names.FirstWith(Scope(), prefix, i) == Names.FirstWith(Scope(), prefix, 0)
      {
        i := i + 1;
      }
    }

    // -----------------------------------------------------------------------
    //  Callbacks: elements
    // -----------------------------------------------------------------------

    method StartElement(attrs: seq<AttrInfo>)
      requires Valid()
      modifies this`attributesInfo
      ensures Valid() && attributesInfo == attrs
    {
      var infos := [];
      for i := 0 to |attrs|
        invariant infos == attrs[..i]
      {
        infos := infos + [attrs[i]];
      }
      attributesInfo := infos;
    }

    method HandleAttributesPSVI(localName: string, uri: string, list: PsviAttributes) returns (threw: bool)
      requires Valid() && Between() && PsviAttributesLinked(graph, list)
      modifies this, indentChars
      ensures Kept() && elementChildren == ChildFlags(old(elementChildren)) + [false]
      ensures nsAttributes == NotesLeft(graph, old(definedIds), Scope(), attributesInfo, list)
      ensures threw <==> !AllFindable(attributesInfo, list, nsAttributes)
      ensures !threw && old(elementChildren) != [] ==> Between()
      ensures !threw ==>
                place == Place(ElementHead(graph, Scope(), baseUri, localName, uri, attributesInfo, list,
                                           nsAttributes),
                               Tagged(Element, Plain, ChildPlace(old(place), old(elementChildren))))
      ensures threw ==>
                place == Broken(Place(AttributesPlan(graph, Scope(), ElementName(Scope(), localName, uri),
                                                     attributesInfo, list),
                                      Tagged(Element, Plain, ChildPlace(old(place), old(elementChildren)))),
                                attributesInfo, list, nsAttributes)
    {
      hide Valid, Noted, Asked, TabsOk, Traces, TableOk, Pending, Plainly, PlainlyBut, Joined, Shape, ChildPlace,
           ChildFlags, ElementHead, AllFindable, Broken, AttributesPlan, NotesLeft;
      BeginElement();
      ShapeElement(ChildPlace(old(place), old(elementChildren)), ChildFlags(old(elementChildren)));
      threw := SendElementHead(localName, uri, list);
    }

    method BeginElement()
      requires Valid() && Between()
      modifies this, indentChars
      ensures Kept() && elementChildren == ChildFlags(old(elementChildren)) + [false]
      ensures definedIds == old(definedIds)
      ensures place == Enter(ChildPlace(old(place), old(elementChildren)), Element, Plain)
      ensures Shape(ChildPlace(old(place), old(elementChildren)), ChildFlags(old(elementChildren)))
      ensures |ChildFlags(old(elementChildren))| == |old(elementChildren)|
      ensures old(elementChildren) != [] ==> ChildFlags(old(elementChildren))[|old(elementChildren)| - 1]
    {
      hide Valid, Noted, Asked, TabsOk, Traces, TableOk, Pending, Plainly, PlainlyBut, Joined, Shape, ChildPlace,
           ChildFlags;
      ShapeChild(place, elementChildren);
      ProcessChildren();
      PushChildren(false);
      SendIndentedElement(Element);
    }

    method SendElementHead(localName: string, uri: string, list: PsviAttributes) returns (threw: bool)
      requires Valid() && place.done == Start && PsviAttributesLinked(graph, list)
      modifies this, indentChars
      ensures Steady()
      ensures nsAttributes == NotesLeft(graph, old(definedIds), Scope(), attributesInfo, list)
      ensures threw <==> !AllFindable(attributesInfo, list, nsAttributes)
      ensures !threw ==>
                place == old(place).(done :=
                  ElementHead(graph, Scope(), baseUri, localName, uri, attributesInfo, list, nsAttributes))
      ensures threw ==>
                place == Broken(old(place).(done := AttributesPlan(graph, Scope(), ElementName(Scope(), localName, uri),
                                                                   attributesInfo, list)),
                                attributesInfo, list, nsAttributes)
    {
      hide Valid, Noted, Asked, TabsOk, Traces, TableOk, Pending, Plainly, PlainlyBut, Joined, ElementName,
           HeadPlan, AllFindable, NotesLeft, Broken, AttributesPlan, PsviAttributesLinked;
      SendElementName(localName, uri);
      threw := SendHeadBehindName(list);
    }

    method SendHeadBehindName(list: PsviAttributes) returns (threw: bool)
      requires Valid() && PsviAttributesLinked(graph, list)
      modifies this, indentChars
      ensures Steady()
      ensures nsAttributes == NotesLeft(graph, old(definedIds), Scope(), attributesInfo, list)
      ensures threw <==> !AllFindable(attributesInfo, list, nsAttributes)
      ensures !threw ==>
                place == old(place).(done :=
                  HeadPlan(graph, Scope(), baseUri, old(place.done), attributesInfo, list, nsAttributes))
      ensures threw ==>
                place == Broken(old(place).(done :=
                                  AttributesPlan(graph, Scope(), old(place.done), attributesInfo, list)),
                                attributesInfo, list, nsAttributes)
    {
      threw := ProcessAttributes(list);
      if !threw {
        FinishElementHead();
      }
    }

    method FinishElementHead()
      requires Valid()
      modifies this, indentChars
      ensures Wrote(old(place.done).Group(InScopeNamespaces, NamespaceNodes(old(Scope()), |old(namespaces)|))
                    .Val(BaseURI, old(baseUri)))
      ensures nsAttributes == old(nsAttributes)
    {
      hide Valid, Noted, Asked, TabsOk, Traces, TableOk, Pending, Plainly, PlainlyBut, Joined, NamespaceNodes,
           Names.WellFormed;
      ProcessInScopeNamespaces();
      SendElementValue(BaseURI, baseUri);
    }

    method SendElementName(localName: string, uri: string)
      requires Valid() && place.done == Start
      modifies this, indentChars
      ensures Wrote(ElementName(old(Scope()), localName, uri)) && definedIds == old(definedIds)
    {
      hide Valid, Noted, Asked, TabsOk, Traces, TableOk, Pending, Plainly, PlainlyBut, Joined;
      SendElementValue(NamespaceName, uri);
      SendElementValue(LocalName, localName);
      var prefix := PrefixFor(uri);
      SendElementValue(Prefix, prefix);
    }

    method HandleElementPSVI(e: PsviElement)
      requires Valid() && Between() && |elementChildren| > 1 && PsviElementLinked(graph, e)
      modifies this, indentChars
      ensures Kept() && Between()
      ensures elementChildren == old(elementChildren)[..|old(elementChildren)| - 1]
      ensures place == ElementEnd(graph, old(place), old(elementChildren), e)
    {
      hide Valid, Noted, Asked, TabsOk, Traces, TableOk, Pending, Plainly, PlainlyBut, Joined, Shape,
           ElementTail, ElementEnd, LevelEnd, PsviElementLinked;
      ElementEndShape(graph, place, elementChildren, e);
      EndLevel(e);
    }

    /** Closes the children level and the element. */
    method EndLevel(e: PsviElement)
      requires Valid() && Between() && |elementChildren| > 1 && PsviElementLinked(graph, e)
      requires var level := LevelEnd(place, elementChildren, e.actual);
               level.around.Tagged? && level.around.tag == Element
      modifies this, indentChars
      ensures Kept() && elementChildren == old(elementChildren)[..|old(elementChildren)| - 1]
      ensures var level := LevelEnd(old(place), old(elementChildren), e.actual);
              place == Leave(level.(done :=
                ElementTail(graph, level.done, e, if |old(elementChildren)| == 2 then e.model else None)))
    {
      hide Valid, Noted, Asked, TabsOk, Traces, TableOk, Pending, Plainly, PlainlyBut, Joined, Shape, ElementTail,
           LevelEnd, PsviElementLinked;
      FinishChildren(e.actual);
      FinishElement(e);
    }

    method FinishElement(e: PsviElement)
      requires Valid() && PsviElementLinked(graph, e) && place.around.Tagged? && place.around.tag == Element
      modifies this, indentChars
      ensures Steady()
      ensures place == Leave(old(place).(done :=
                ElementTail(graph, old(place.done), e, if |elementChildren| == 1 then e.model else None)))
    {
      hide Valid, Noted, Asked, TabsOk, Traces, TableOk, Pending, Plainly, PlainlyBut, Joined,
           ElementTail, PsviElementLinked;
      SendElementTail(e);
      SendUnindentedElement(Element);
    }

    method FinishChildren(value: ActualValue)
      requires Valid() && Between() && |elementChildren| > 1
      modifies this, indentChars
      ensures Kept() && place == LevelEnd(old(place), old(elementChildren), value)
      ensures elementChildren == old(elementChildren)[..|old(elementChildren)| - 1]
    {
      hide Valid, Noted, Asked, TabsOk, Traces, TableOk, Pending, Plainly, PlainlyBut, Joined, Shape, ActualValuePlan,
           Closed;
      ShapeDone(place, elementChildren);
      ShapeAdd(place, elementChildren, ActualValuePlan(place.done, value));
      ProcessActualValue(value);
      ProcessChildrenEnd();
    }

    method SendElementTail(e: PsviElement)
      requires Valid() && PsviElementLinked(graph, e)
      modifies this, indentChars
      ensures Wrote(ElementTail(graph, old(place.done), e, if |elementChildren| == 1 then e.model else None))
    {
      hide Valid, Noted, Asked, TabsOk, Traces, TableOk, Pending, Plainly, PlainlyBut, Joined, SchemaInformationPlan,
           ElementOutcome, ElementReferences, ModelLinked, AllLinked;
      ProcessSchemaInformation(e.model);
      SendOutcome(e);
      SendElementReferences(e);
    }

    method SendOutcome(e: PsviElement)
      requires Valid()
      modifies this, indentChars
      ensures Wrote(ElementOutcome(old(place.done), e))
    {
      hide Valid, Noted, Asked, TabsOk, Traces, TableOk, Pending, Plainly, PlainlyBut, Joined;
      SendElementValue(ValidationAttempted, e.validationAttempted);
      SendElementValue(ValidationContext, e.validationContext);
      SendElementValue(Validity, e.validity);
      SendElementEmpty(SchemaErrorCode);
      SendElementValue(SchemaNormalizedValue, e.normalizedValue);
      SendElementValue(CanonicalRepresentation, e.canonical);
      SendElementValue(SchemaSpecified, SpecifiedText(e.schemaSpecified));
      SendElementValue(SchemaDefault, e.schemaDefault);
    }

    method SendElementReferences(e: PsviElement)
      requires Valid() && PsviElementLinked(graph, e)
      modifies this, indentChars
      ensures Wrote(ElementReferences(graph, old(place.done), e))
    {
      hide Valid, Noted, Asked, TabsOk, Traces, TableOk, Pending, Plainly, PlainlyBut, Joined, TypeRef, DeclRef,
           ModelLinked, TypeLink, ElementLink, AnyLink, AllLinked;
      ProcessTypeDefinitionRef(TypeDefinition, e.typeDefinition);
      ProcessTypeDefinitionRef(MemberTypeDefinition, e.memberType);
      SendElementEmpty(NilProperty);
      ProcessElementDeclarationRef(Declaration, e.declaration);
      SendReference(Notation, e.notation);
      SendElementEmpty(IdIdrefTable);
      SendElementEmpty(IdentityConstraintTable);
    }

    method HandlePartialElementPSVI(e: PsviElement)
      requires Valid() && Between() && PsviElementLinked(graph, e)
      modifies this, indentChars
      ensures Steady() && Between()
      ensures place == old(place).(done :=
                PartialPlan(graph, old(place.done), e, if |elementChildren| == 1 then e.model else None))
    {
      hide Valid, Noted, Asked, TabsOk, Traces, TableOk, Pending, Plainly, PlainlyBut, Joined, Shape, PartialPlan,
           PsviElementLinked;
      ShapeDone(place, elementChildren);
      ShapeAdd(place, elementChildren,
               PartialPlan(graph, place.done, e, if |elementChildren| == 1 then e.model else None));
      SendPartial(e);
    }

    method SendPartial(e: PsviElement)
      requires Valid() && PsviElementLinked(graph, e)
      modifies this, indentChars
      ensures Wrote(PartialPlan(graph, old(place.done), e, if |elementChildren| == 1 then e.model else None))
    {
      hide Valid, Noted, Asked, TabsOk, Traces, TableOk, Pending, Plainly, PlainlyBut, Joined, PartialBody,
           PsviElementLinked;
      OpenInComment(PartialElementPSVI);
      SendPartialBody(e);
      CloseInComment(PartialElementPSVI);
    }

    method SendPartialBody(e: PsviElement)
      requires Valid() && place.done == Start && PsviElementLinked(graph, e)
      modifies this, indentChars
      ensures Wrote(PartialBody(graph, e, if |elementChildren| == 1 then e.model else None))
    {
      hide Valid, Noted, Asked, TabsOk, Traces, TableOk, Pending, Plainly, PlainlyBut, Joined,
           SchemaInformationPlan, PartialOutcome, PartialReferences, ModelLinked, TypeLink, ElementLink, AnyLink;
      ProcessSchemaInformation(e.model);
      SendPartialOutcome(e);
      SendPartialReferences(e);
    }

    method SendPartialOutcome(e: PsviElement)
      requires Valid()
      modifies this, indentChars
      ensures Wrote(PartialOutcome(old(place.done), e))
    {
      hide Valid, Noted, Asked, TabsOk, Traces, TableOk, Pending, Plainly, PlainlyBut, Joined;
      SendElementValue(ValidationAttempted, e.validationAttempted);
      SendElementValue(ValidationContext, e.validationContext);
      SendElementValue(Validity, e.validity);
      SendElementValue(SchemaNormalizedValue, e.normalizedValue);
      SendElementValue(CanonicalRepresentation, e.canonical);
      SendElementValue(SchemaSpecified, SpecifiedText(e.schemaSpecified));
      SendElementValue(SchemaDefault, e.schemaDefault);
    }

    method SendPartialReferences(e: PsviElement)
      requires Valid() && PsviElementLinked(graph, e)
      modifies this, indentChars
      ensures Wrote(PartialReferences(graph, old(place.done), e))
    {
      hide Valid, Noted, Asked, TabsOk, Traces, TableOk, Pending, Plainly, PlainlyBut, Joined,
           TypeRef, DeclRef, ModelLinked, TypeLink, ElementLink, AnyLink, AllLinked;
      ProcessTypeDefinitionRef(TypeDefinition, e.typeDefinition);
      ProcessTypeDefinitionRef(MemberTypeDefinition, e.memberType);
      ProcessElementDeclarationRef(Declaration, e.declaration);
      SendReference(Notation, e.notation);
    }
  }
}
