# Xerces-C++ samples and tools, modelled and proved in Dafny

This project models the core of five programs that ship with Xerces-C++ and proves what they are for.

**The PSVI writer** (`samples/src/PSVIWriter`). It turns the callbacks of a validating parse into indented XML
that shows the post-schema-validation infoset. `PsviWriter.Writer` has the program's fields (the indent
buffer, the stack of children flags, the prefix map and namespace list, the id table, the list of defined
objects, the counter) and its methods; every method states which trees it adds at which level, and the ghost
field `place` ties those trees to the lines printed, the objects defined and the indent. Around the class:

- `PsviOutput`: lines, trees, and the lines of a tree. `PsviReader`: a reader of lines that is independent of
  the writer. `PsviPlaces`: levels that are still open.
- `PsviComponents`: schema component graphs, which may be cyclic; the only thing asked of them is that pointers
  lead to components of the right kind. `PsviPlans`: the trees for every kind of component, with `Inline`
  where another component is expanded or referred to. `PsviExpansion`: what `Inline` becomes, by a walk whose
  termination measure is the set of local components not yet defined and then the trees.
- `PsviIds`, `PsviNamespaces`: the id table and the namespace list. `PsviScopes`: the mappings of a document are a
  nested run.
- `PsviEvents`, `PsviDocument`: documents as nested events, which of them are shown to the end, and the one tree
  each of them stands for, built without stack, indent or output. `PsviShape`: what the stack of flags says
  about open levels. `PsviRun`: the callbacks of a document print exactly the lines of its tree, or those up to
  the place where an element does not start; `PsviStops` is that place. `PsviNotes`, `PsviTypeNotes`: which
  elements those are.
- `PsviRequests`: the mentions of a document, in order, with the prefix each namespace has at that point; they
  determine the id table, and so every id on the lines.
- `PsviItems`, `PsviReports`, `PsviReadBack`: what the printed lines tell, decoded by the names of the elements alone,
  what there is to tell of a document, gathered from its events alone, and that the two agree. `PsviNotesTold` adds the
  namespace attributes; by `PsviInScope` the namespaces told are the mappings of the elements around, in order.
- `PsviDescriptions`, `PsviPartsDescribed`, `PsviDescribed`, `PsviTruth`: when the lines of a definition describe a
  component, stated for every kind of component without the functions that make its trees, and that on the lines of a
  document every definition and every schema does.
- `PsviUses`, `PsviRoots`: which components a component has in place, and which ones a document has, read off the data.
- `PsviSchema`, `PsviTheorems`, `PsviReferences`: single definition, reachability, references and ids of the
  output. `PsviSchemaForms`: where it gives the schema. `PsviDomAttributes`: the attribute groups of annotations.
  What these state of the lines for a document is stated of its tree; those are the lines printed when the
  document is shown to the end.

**The code page table generator** (`tools/ICUData/ICUData.cpp`). `IcuText`, `IcuLoading`: lines, numbers and what
loading yields. `IcuFiles`: files as they are written, and that loading undoes writing. `IcuTables`: both orders
and the entries printed. `IcuLookup`: the binary search of the table transcoder that uses the "to" table, and the
agreement of the two tables. `IcuGenerator`: the program with its record table and line buffer as arrays, up to
the whole run (`Run`).

**The content model printer** (`samples/src/SCMPrint/SCMPrint.cpp`). `ContentModels`: the printer, and a parser
that recovers the tree.

**Two insertion sorts** (`samples/src/SAX2Print/SAX2FilterHandlers.cpp`, `samples/src/SEnumVal/SEnumVal.cpp`).
`AttributeSorting`, `FacetPrinting`, with what they share in `SortedInsertion` and the string order in `XmlText`.

Where a promise does not hold of the code as it is, the code is kept and the exact condition is proved:

- Ending a prefix mapping takes away the first uri with that prefix, so a mapping is undone if and only if the
  prefix was not in use before (`StartEndRestoresIff`, `ShadowedPrefixLost`). A nested run of mappings is undone
  if none of its prefixes was in use before it, whatever it rebinds inside, and only then if it binds no uri that
  was in scope (`NestedMappingsRestore`, `NestedMappingsRestoreIff`; `LostUriComesBack` shows why the last part is
  needed). So a prefix rebound inside is wrong there, and every document still ends with nothing in scope
  (`DocumentRestoresScope`).
- Ids are not unique. Two objects whose names and prefixes have no dot, are no numeral and do not look like the
  name made up for an anonymous type share an id if and only if both ids were made without the counter from the
  same prefix, name and kind (where simple and complex types are one kind), or in XML Schema's namespace from the
  same name (`SameIdIff`). The prefix is that of the first mention, so namespaces may differ (`PrefixUsedTwice`).
  Other names can collide in more ways (`DottedNameMatchesNumber`, `AnonymousNameTaken`). Ids made with the counter
  are unique for all names. For the lines of a document the prefixes are read off the document
  (`SameIdOnLinesIff`).
- `ProcessAttributes` compares the address of a copied string with a constant, so it never treats an attribute
  as a namespace declaration. The places it then shows as namespace declarations are left over from the last
  annotation printed inside, and only an anonymous member type that is defined there brings one. `NotesLeft`
  gives these places from the graph, the objects defined before and the attributes; the writer throws if and
  only if one of them has no assessed attribute (`WriteDocument`, `NotesFromMembers`, `LastMemberDecides`,
  `SomeDocumentStops`). Which annotation is the last is told by the parts of the type (`SimpleTypeAfter`,
  `OwnDecides`, `InnerMemberDecides`, `InnerItemDecides`).
- A value that no record has makes the program use up a record for the filler, and at most one further record of
  a value is skipped. So the "from" table is right if and only if every value in use has more copies of its
  smallest record than there are missing values before it, and at most two records more than that
  (`FromTableIff`); without repeated records, if and only if every value occurs once or twice (`FitsIffGapFree`).
  `GapAndTriple` has two inputs that fail, `CopiesFillGaps` two with copies that work.
  A record for U+FFFF cannot be told from a filler, so the direction from right tables to fitting records
  excludes it.
- The transcoder's search never finds the first of three or more records (`AllFromThenToIff`, `ToThenFromIff`,
  `FirstMissed`).
- Looking up a qualified name after the attribute filter finds the last match of before instead of the first
  (`LookupAfterSort`). The parser reports each name once; a list with a repeated name can only come from another
  handler in front of the filter (`RepeatedNameChanges`). The lookup by namespace and local name is unchanged if
  and only if the first match has the smallest qualified name of all matches and is the last with that name
  (`NameLookupUnchangedIff`); two prefixes of one namespace are enough to change it (`OtherPrefixChanges`).
- The content model printer throws at a group without members (`ContentModels.Printer.ProcessParticle`,
  `EmptyGroupCut`), and what it has printed then is the text of no content model (`CutIsNoModel`). The schema
  processor delivers no such group: it makes one only when it has had content
  (`src/xercesc/validators/schema/TraverseSchema.cpp:1164`, `:2216`), with a first member; a component model made
  in another way may have one.

## Model

| member | source | states |
|---|---|---|
| `PsviRun.WriteDocument` | samples/src/PSVIWriter/PSVIWriterHandlers.cpp:184-448 | For every properly nested document over any schema graph: the writer throws if and only if some element does not start, which DocumentRuns decides from the document and the graph; otherwise the lines added are exactly those of the document's tree, in which every Inline is a definition the first time and a reference afterwards, and the writer ends in the state a reset leaves; when it throws, the lines are exactly those up to the bad place. The ids on the lines are those of DocumentTable, a function of the document: its mentions in order, each with the prefix in scope. No number has six digits, the program's other throw, if and only if NumbersSuffice, that is, at most 99000 objects of the document need one |
| `PsviStops.RequestsAreMentions` | samples/src/PSVIWriter/PSVIWriterHandlers.cpp:1622-1634 | The mentions from which the table of a document is made, listed segment by segment with the scope at the start of each element and at its end, are exactly the ids and references of the document's tree, in order |
| `PsviRequests.ElementMentions` | samples/src/PSVIWriter/PSVIWriterHandlers.cpp:184-388 | What the tree of an element mentions is what its start, its content and its end mention, in this order |
| `PsviRequests.NumbersDecide` | samples/src/PSVIWriter/PSVIWriterHandlers.cpp:1603-1612 | The table of a document is consistent, and all its numbers have at most five digits if and only if at most 99000 objects of the document need one |
| `PsviDocument.DocumentWellFormed` | samples/src/PSVIWriter/PSVIWriterHandlers.cpp:206-258 | The lines of every document read back, with a reader that knows nothing of the writer, as one document element: all tags match, each line is indented by its depth, comments never nest |
| `PsviReadBack.DocumentReadBack` | samples/src/PSVIWriter/PSVIWriterHandlers.cpp:184-448 | Reading back a document: the lines for every document that is shown to the end read as one document element, and what a decoder finds there by the names of the elements alone is what the parser reported: encoding, standalone, version, base uri, and all children in order. A character, comment or instruction child gives back its text, target and data; an element its uri, local name, prefix, base uri, the namespaces in scope, its attributes with their values, types and assessments, what was known before its content, its children, the typed value, and its assessment field by field |
| `PsviReadBack.ElementDecoded` | samples/src/PSVIWriter/PSVIWriterHandlers.cpp:345-388 | The item of one element tells all that, if its content does |
| `PsviReadBack.ContentListDecoded` | samples/src/PSVIWriter/PSVIWriterHandlers.cpp:231-288 | Content is told piece by piece in document order; white space and changes of the base uri are no children |
| `PsviReadBack.AttributeListFacts` | samples/src/PSVIWriter/PSVIWriterHandlers.cpp:454-489 | Each attribute of an element is told once, in order: uri, local name, prefix, value, whether it was specified, type, assessment and typed value |
| `PsviNotesTold.NotedAttributesTold` | samples/src/PSVIWriter/PSVIWriterHandlers.cpp:491-522 | The namespace attributes of an element are its attributes at the places noted, in order, each with the xmlns namespace and prefix, its own local name, value and type, and "true" exactly if the schema specified it |
| `PsviTruth.DocumentTrue` | samples/src/PSVIWriter/PSVIWriterHandlers.cpp:573-1112 | On the lines of every document everything is true: each element with an id, at any depth, describes a component of the graph that has this id, property by property; and each schema tells the namespaces of a model reported with a root element |
| `PsviDescribed.ContentsDescribe` | samples/src/PSVIWriter/PSVIWriterHandlers.cpp:645-780 | Whatever was defined before, what is shown inside the definition of a component describes it, kind by kind: names, references, texts and lists are found under their names and in order |
| `PsviDescribed.ComplexTypeDescribed` | samples/src/PSVIWriter/PSVIWriterHandlers.cpp:653-680 | A complex type: name, base type, derivation, attribute uses, attribute wildcard, content type with its simple type and particle, and annotations |
| `PsviDescribed.SimpleTypeDescribed` | samples/src/PSVIWriter/PSVIWriterHandlers.cpp:682-698 | A simple type: name, base and primitive type, facets, fundamental facets, item type, member types and annotations |
| `PsviDescribed.ElementDescribed` | samples/src/PSVIWriter/PSVIWriterHandlers.cpp:727-749 | An element declaration: name, type, scope, value constraint, identity constraints, substitution group and annotation |
| `PsviDescribed.AttributeDescribed` | samples/src/PSVIWriter/PSVIWriterHandlers.cpp:751-766 | An attribute declaration: name, type, scope, value constraint and annotation |
| `PsviDescribed.IdConstraintDescribed` | samples/src/PSVIWriter/PSVIWriterHandlers.cpp:1077-1112 | An identity constraint: category, selector, fields in order, the key it refers to and its annotations |
| `PsviPartsDescribed.GroupDescribed` | samples/src/PSVIWriter/PSVIWriterHandlers.cpp:995-1009 | A model group tells its compositor and one particle for each of its particles, in order, with the bounds and the term of each, to any depth |
| `PsviPartsDescribed.AnnotationDescribed` | samples/src/PSVIWriter/PSVIWriterHandlers.cpp:873-967 | An annotation tells its application and user information, element by element with texts and attributes, and its own attributes in two lists |
| `PsviDescribed.AllFacetsDescribed` | samples/src/PSVIWriter/PSVIWriterHandlers.cpp:812-842 | The facets with one value come first, then those with several, each with its kind, its values in order, whether it is fixed and its annotations |
| `PsviDescribed.SchemaDescribed` | samples/src/PSVIWriter/PSVIWriterHandlers.cpp:573-638 | A schema tells its namespaces in order without XML Schema's own, each with its components kind by kind, its locations and its annotations |
| `PsviShape.OpenTagsMatchFlags` | samples/src/PSVIWriter/PSVIWriterHandlers.cpp:345-388 | At every place between callbacks the lines so far are well formed, and what is open is the document and the elements of the stack, with children exactly where the flag is true |
| `PsviShape.ShapeDepth` | samples/src/PSVIWriter/PSVIWriterHandlers.cpp:1114-1128 | The indent between callbacks is the height of the stack plus the number of true flags |
| `PsviShape.ShapeTrueBelow` | samples/src/PSVIWriter/PSVIWriterHandlers.cpp:1114-1128 | Every flag below the top of the stack is true |
| `PsviRun.DeliverElement` | samples/src/PSVIWriter/PSVIWriterHandlers.cpp:184-388 | The callbacks of one element with arbitrary nested content add one element to the children of the level around it, opening that level's children first if needed, and leave the stack as high as before; they throw exactly if the element or one inside it does not start, and then stop at the bad place |
| `PsviRun.DeliverAll` | samples/src/PSVIWriter/PSVIWriterHandlers.cpp:184-388 | The same for any sequence of content, which stops at its first element that does not start or has one inside that does not |
| `PsviRun.ElementLeaves` | samples/src/PSVIWriter/PSVIWriterHandlers.cpp:360-388 | What handleElementPSVI leaves behind is the element's tree at the level around it, the schema model only if the stack was two high |
| `PsviReader.ReadRender` | samples/src/PSVIWriter/PSVIWriterHandlers.cpp:1261-1342 | Reading undoes printing: the lines of any trees without nested comments read back as those trees |
| `PsviSchema.DocumentFixed` | samples/src/PSVIWriter/PSVIWriterHandlers.cpp:573-611 | The definitions a document asks for by itself are those of the components listed by the models of its root elements, in order, each followed by its identity constraints |
| `PsviSchemaForms.DocumentForms` | samples/src/PSVIWriter/PSVIWriterHandlers.cpp:560-571 | On the lines for every document that is shown to the end, schema information stands at exactly one line for each element and each partial assessment, in order and with its indent: given at the close of a root element that has a model, empty everywhere else |
| `PsviSchemaForms.SchemaGivenOnce` | samples/src/PSVIWriter/PSVIWriterHandlers.cpp:560-571 | With one root element the last of these lines is the root's: it opens the schema information if the parser reports a model and is the empty form if not; all others, one for each other element and partial assessment, are the empty form |
| `PsviNotes.NotesFromMembers` | samples/src/PSVIWriter/PSVIWriterHandlers.cpp:454-543 | The places noted when an element's attributes have been shown are a fold over the member types alone: an anonymous simple one that is not defined yet leaves what its parts note, every other attribute changes nothing |
| `PsviNotes.StartsIffAssessed` | samples/src/PSVIWriter/PSVIWriterHandlers.cpp:491-522 | An element starts if and only if each of these places is that of an attribute of the element that was assessed by its name and uri |
| `PsviNotes.LastMemberDecides` | samples/src/PSVIWriter/PSVIWriterHandlers.cpp:454-522 | The last new anonymous member type decides, annotated or not: the element starts if and only if each place that the parts of this type note, a fold over the type without any tree, is one where the element has an assessed attribute |
| `PsviTypeNotes.SimpleTypeAfter` | samples/src/PSVIWriter/PSVIWriterHandlers.cpp:682-698 | What the walk over a simple type's trees defines and notes is a fold over its parts in printing order: base type, primitive type, facets with one value, those with several, item type, member types, own annotations; of each list of annotations the last decides |
| `PsviTypeNotes.AfterHere` | samples/src/PSVIWriter/PSVIWriterHandlers.cpp:1130-1158 | The same for a type shown in place, nested to any depth and over cyclic graphs: only a new anonymous type changes anything |
| `PsviTypeNotes.OwnDecides` | samples/src/PSVIWriter/PSVIWriterHandlers.cpp:682-698 | A type's own last annotation decides; without one and without new anonymous item and member types, the last annotation of its facets, those with several values before those with one; without any, what its base and primitive type left |
| `PsviTypeNotes.InnerMemberDecides` | samples/src/PSVIWriter/PSVIWriterHandlers.cpp:861-871 | Without an own annotation the last new anonymous type among the member types decides, by the same rules |
| `PsviTypeNotes.InnerItemDecides` | samples/src/PSVIWriter/PSVIWriterHandlers.cpp:682-698 | Without an own annotation and new member types the item type decides, by the same rules |
| `PsviNotes.NamedDocumentRuns` | samples/src/PSVIWriter/PSVIWriterHandlers.cpp:454-522 | A document none of whose attributes has an anonymous member type is shown to the end |
| `PsviNotes.SomeDocumentStops` | samples/src/PSVIWriter/PSVIWriterHandlers.cpp:491-522 | A concrete document, with one element, one attribute and an annotated anonymous member type, on which the writer throws |
| `PsviTheorems.DefinedOnceIffListedOnce` | samples/src/PSVIWriter/PSVIWriterHandlers.cpp:573-611 | The id and ref attributes on the lines for a document stand for the definitions and references in order, and two id attributes belong to one object if and only if the models shown list a component twice, for models that list only global or named components and constraints with one owner |
| `PsviTheorems.MentionedDefinitions` | samples/src/PSVIWriter/PSVIWriterHandlers.cpp:1266-1273 | The definitions among the ids and references of any trees are the objects the trees define, in order and as often |
| `PsviTheorems.LocalDefinedIffReachable` | samples/src/PSVIWriter/PSVIWriterHandlers.cpp:1130-1184 | The anonymous types and local declarations defined in a document are exactly those that a chain of uses, read off the components, leads to from what stands in its tree, over cyclic graphs too |
| `PsviReferences.DefinedIffUsed` | samples/src/PSVIWriter/PSVIWriterHandlers.cpp:1130-1184 | In a document that is shown to the end they are exactly those that such a chain leads to from the member types that validated its attributes and from what the components of its schema models use: roots and uses are read off events and components alone |
| `PsviRoots.DocumentUse` | samples/src/PSVIWriter/PSVIWriterHandlers.cpp:454-611 | The local components in place in the tree of such a document are these roots and no others |
| `PsviUses.ContentsUse` | samples/src/PSVIWriter/PSVIWriterHandlers.cpp:645-766 | The local components in place in the contents of a component are exactly those it uses: base, primitive and item type, member types, the type of a declaration, the declarations of its attribute uses, its content's simple type, and the element terms at any depth of its particles |
| `PsviUses.LocalIffInPlace` | samples/src/PSVIWriter/PSVIWriterHandlers.cpp:1130-1184 | Defined where they are used are exactly the anonymous types and the declarations whose scope is not global |
| `PsviTheorems.RefsNameEarlierIds` | samples/src/PSVIWriter/PSVIWriterHandlers.cpp:1130-1184 | Every reference printed for an anonymous type or local declaration repeats the string of an id on an earlier line, and that id is the same object's |
| `PsviTheorems.AnonymousIdsOnLinesDiffer` | samples/src/PSVIWriter/PSVIWriterHandlers.cpp:1583-1634 | Two anonymous types with an id in one document have different id strings there, whatever prefixes were in scope when |
| `PsviTheorems.SameIdOnLinesIff` | samples/src/PSVIWriter/PSVIWriterHandlers.cpp:1583-1634 | In every document that is shown to the end, two different objects with plain names and prefixes have the same string on the lines if and only if neither needs a number, both are types or both of the same other kind, their names are the same, and so are the prefixes that their namespaces have where the document first mentions each of them; for XML Schema's own components if and only if the names are the same |
| `PsviReferences.ReferenceResolvesIff` | samples/src/PSVIWriter/PSVIWriterHandlers.cpp:1186-1231 | A reference on the lines for a document, of any kind, names an id that stands on some line and is the same object's if and only if the object is a reachable local component, a listed component, or an identity constraint of one of these; for a document shown to the end the roots are those read off its events |
| `PsviReferences.DefinedOrigin` | samples/src/PSVIWriter/PSVIWriterHandlers.cpp:1130-1184 | Every definition the walk adds is a local component's, or an identity constraint's of a local component it defines |
| `PsviReferences.OwnedDefined` | samples/src/PSVIWriter/PSVIWriterHandlers.cpp:1077-1098 | With a local component the walk defines all its identity constraints |
| `PsviTheorems.RenderShowsMentions` | samples/src/PSVIWriter/PSVIWriterHandlers.cpp:1220-1273 | The id and ref attributes on the lines are, in order, the definitions and references of the trees |
| `PsviScopes.ContentRestoresScope` | samples/src/PSVIWriter/PSVIWriterHandlers.cpp:260-279 | An element with any content leaves list and map of namespaces as they were if none of the prefixes bound in it, at any depth, was in use before; exactly then if no uri bound in it was in scope before |
| `PsviScopes.ScopeIsRun` | samples/src/PSVIWriter/PSVIWriterHandlers.cpp:184-279 | What any content of a document does to the namespaces is a properly nested run of its mappings |
| `PsviScopes.DocumentRestoresScope` | samples/src/PSVIWriter/PSVIWriterHandlers.cpp:260-279 | At the end of every document no namespace is left in scope, however prefixes were rebound inside |
| `PsviExpansion.ReferencesResolve` | samples/src/PSVIWriter/PSVIWriterHandlers.cpp:1130-1184 | Over any graph and trees, a reference that stands for a local component comes after its definition |
| `PsviExpansion.DefinedIffReachable` | samples/src/PSVIWriter/PSVIWriterHandlers.cpp:645-766 | The walk is a reachability computation: from any trees it defines a local component if and only if a chain of uses, read off the components, leads to it from one in place there |
| `PsviExpansion.OnlyReachableDefined` | samples/src/PSVIWriter/PSVIWriterHandlers.cpp:645-766 | Nothing local is defined that is not reachable |
| `PsviExpansion.AllReachableDefined` | samples/src/PSVIWriter/PSVIWriterHandlers.cpp:645-766 | Everything reachable along a chain is defined |
| `PsviExpansion.ExpandOnce` | samples/src/PSVIWriter/PSVIWriterHandlers.cpp:1130-1184 | If the definitions the trees ask for are distinct and global and each constraint has one owner, the walk defines no object twice |
| `PsviExpansion.ExpandFlat` | samples/src/PSVIWriter/PSVIWriterHandlers.cpp:873-894 | Expansion never puts a comment inside a comment |
| `PsviExpansion.UndefinedAfter` | samples/src/PSVIWriter/PSVIWriterHandlers.cpp:1266-1273 | Each definition removes its object from the set of local components still to define, which is why the walk ends |
| `PsviIds.SameIdIff` | samples/src/PSVIWriter/PSVIWriterHandlers.cpp:1583-1634 | After any mentions, two objects with plain names and prefixes (no dots, no numeral, not of the form anon_ and digits) share an id if and only if both ids were made without the counter, prefix and name are the same, and both are types or both components of the same other kind, where the prefix is that of the first mention; for XML Schema's own components if and only if the names are the same |
| `PsviIds.KindTextIff` | samples/src/PSVIWriter/PSVIWriterHandlers.cpp:1554-1577 | The words for two components are the same if and only if both are types or both are components of the same other kind |
| `PsviIds.IdReadBack` | samples/src/PSVIWriter/PSVIWriterHandlers.cpp:1583-1620 | Without dots in prefix and name an id read at its dots is the prefix, if there is one, the word for the kind, the name or anon_ with the number, and the number of a component without a prefix; in the namespace of XML Schema it is the name alone |
| `PsviIds.PrefixOfFirst` | samples/src/PSVIWriter/PSVIWriterHandlers.cpp:1622-1634 | The id of an object is made with the prefix its namespace had at the first mention |
| `PsviIds.CountedIdsUnique` | samples/src/PSVIWriter/PSVIWriterHandlers.cpp:1583-1634 | After any sequence of mentions, two objects whose ids were made with the counter have different ids: the digits at the end give back a counter value used once |
| `PsviIds.NumbersFitIff` | samples/src/PSVIWriter/PSVIWriterHandlers.cpp:1603-1612 | All numbers given out have at most five digits, so that the program does not throw, if and only if at most 99000 objects needed one |
| `PsviIds.AnonymousIdsDiffer` | samples/src/PSVIWriter/PSVIWriterHandlers.cpp:1583-1634 | Two anonymous types in the table never share an id |
| `PsviIds.IdsStay` | samples/src/PSVIWriter/PSVIWriterHandlers.cpp:1622-1634 | An id once given stays, also when the prefix of the namespace changes later |
| `PsviIds.MintOk` | samples/src/PSVIWriter/PSVIWriterHandlers.cpp:1583-1634 | A mention keeps the table consistent, with every number from 1000 on used once, and changes no id given before |
| `PsviIds.PrefixUsedTwice` | samples/src/PSVIWriter/PSVIWriterHandlers.cpp:1583-1620 | Two elements of different namespaces, with one prefix at different times, share an id |
| `PsviIds.XmlSchemaNameUsedTwice` | samples/src/PSVIWriter/PSVIWriterHandlers.cpp:1583-1620 | An element and a type of XML Schema with one name share an id |
| `PsviIds.AnonymousNameTaken` | samples/src/PSVIWriter/PSVIWriterHandlers.cpp:1583-1620 | A type named anon_1000 shares its id with an anonymous one |
| `PsviIds.DottedNameMatchesNumber` | samples/src/PSVIWriter/PSVIWriterHandlers.cpp:1583-1620 | A dotted name can equal an id made with the counter: a concrete pair of elements |
| `Numerals.NumberOfDecimal` | samples/src/PSVIWriter/PSVIWriterHandlers.cpp:1603-1612 | The decimal text of a number reads back as the number |
| `Numerals.TailIsNumeral` | samples/src/PSVIWriter/PSVIWriterHandlers.cpp:1603-1612 | The longest run of digits at the end of a text followed by a numeral is that numeral, if the text ends in no digit |
| `PsviNamespaces.StartRecords` | samples/src/PSVIWriter/PSVIWriterHandlers.cpp:260-267 | A started mapping is in scope: its uri is the last of the list with its prefix, even an empty one; a uri that was in scope keeps its place and prefix, and all other entries stay |
| `PsviInScope.ScopeIsMappingsAround` | samples/src/PSVIWriter/PSVIWriterHandlers.cpp:184-279 | For every element of every document, when the mappings on the way to it reuse neither prefix nor uri and nothing before it rebinds one of their prefixes: the namespaces told of it are that of xml and exactly the mappings of the elements around it and its own, in order, and the prefix told is the one bound to its uri |
| `PsviInScope.ScopeOnLines` | samples/src/PSVIWriter/PSVIWriterHandlers.cpp:184-279 | So the lines tell it, of every document that is shown to the end |
| `PsviNamespaces.StartEndRestoresIff` | samples/src/PSVIWriter/PSVIWriterHandlers.cpp:260-279 | Starting a mapping and ending it restores the namespaces if and only if no uri in scope had that prefix |
| `PsviNamespaces.ShadowedPrefixLost` | samples/src/PSVIWriter/PSVIWriterHandlers.cpp:260-279 | A prefix bound again in an inner element, as documents may: when the inner mapping ends the outer one is gone |
| `PsviNamespaces.NestedMappingsRestore` | samples/src/PSVIWriter/PSVIWriterHandlers.cpp:260-279 | Any properly nested run of mappings restores list and map if no uri in scope before has one of the prefixes it binds, whatever is rebound inside |
| `PsviNamespaces.NestedMappingsRestoreIff` | samples/src/PSVIWriter/PSVIWriterHandlers.cpp:260-279 | If the run binds no uri that was in scope, it restores them if and only if none of its prefixes was in use |
| `PsviNamespaces.LostUriComesBack` | samples/src/PSVIWriter/PSVIWriterHandlers.cpp:260-279 | Without that proviso the condition is not needed: a concrete run with a shadowed prefix that binds the lost uri again and restores the scope |
| `PsviNamespaces.RunHolders` | samples/src/PSVIWriter/PSVIWriterHandlers.cpp:260-279 | No nested run adds to the number of uris with a prefix |
| `PsviNamespaces.RunKeepsWellFormed` | samples/src/PSVIWriter/PSVIWriterHandlers.cpp:260-279 | In every run the list has no repeats and is exactly the key set of the map |
| `PsviWriter.Writer.constructor` | samples/src/PSVIWriter/PSVIWriterHandlers.cpp:100-129 | A fresh writer is at rest and has printed nothing |
| `PsviWriter.Writer.IncIndent` | samples/src/PSVIWriter/PSVIWriterHandlers.cpp:1636-1647 | The buffer holds one more tab and its terminator, within the allocation, which doubles when full |
| `PsviWriter.Writer.DecIndent` | samples/src/PSVIWriter/PSVIWriterHandlers.cpp:1649-1652 | The buffer holds one tab less |
| `PsviWriter.Writer.WriteOpen` | samples/src/PSVIWriter/PSVIWriterHandlers.cpp:1280-1296 | One opening line, indented by the text of the indent buffer |
| `PsviWriter.Writer.WriteClose` | samples/src/PSVIWriter/PSVIWriterHandlers.cpp:1298-1301 | One closing line |
| `PsviWriter.Writer.WriteEmpty` | samples/src/PSVIWriter/PSVIWriterHandlers.cpp:1321-1337 | One empty element with the given attributes |
| `PsviWriter.Writer.WriteText` | samples/src/PSVIWriter/PSVIWriterHandlers.cpp:1303-1308 | One element with a text |
| `PsviWriter.Writer.CreateId` | samples/src/PSVIWriter/PSVIWriterHandlers.cpp:1583-1620 | The id is the name for XML Schema's own components, else prefix, kind and name or counter; the counter moves exactly when its value was used |
| `PsviWriter.Writer.GetIdName` | samples/src/PSVIWriter/PSVIWriterHandlers.cpp:1622-1634 | The object's id from the table, made and stored the first time; no other id changes |
| `PsviWriter.Writer.SendReference` | samples/src/PSVIWriter/PSVIWriterHandlers.cpp:1220-1231 | A reference with the object's id, or the nil form without an object |
| `PsviWriter.Writer.SendElementEmpty` | samples/src/PSVIWriter/PSVIWriterHandlers.cpp:1233-1238 | The nil form of an element |
| `PsviWriter.Writer.SendElementValue` | samples/src/PSVIWriter/PSVIWriterHandlers.cpp:1245-1251 | An element with a text; the nil form for an empty text |
| `PsviWriter.Writer.SendElementValueInt` | samples/src/PSVIWriter/PSVIWriterHandlers.cpp:1240-1243 | An element with the decimal form of a number |
| `PsviWriter.Writer.SendElementValueList` | samples/src/PSVIWriter/PSVIWriterHandlers.cpp:1253-1259 | The values of a list, each followed by a space; the nil form without a list |
| `PsviWriter.Writer.SendIndentedElement` | samples/src/PSVIWriter/PSVIWriterHandlers.cpp:1261-1264 | A level opens inside the current one and is empty |
| `PsviWriter.Writer.SendIndentedElementWithId` | samples/src/PSVIWriter/PSVIWriterHandlers.cpp:1266-1273 | A level with the object's id opens, and the object counts as defined from then on |
| `PsviWriter.Writer.SendUnindentedElement` | samples/src/PSVIWriter/PSVIWriterHandlers.cpp:1275-1278 | The innermost level closes with the tag it was opened with |
| `PsviWriter.Writer.ProcessDOMAttributes` | samples/src/PSVIWriter/PSVIWriterHandlers.cpp:920-967 | Ordinary attributes as one group, then namespace declarations as another, each in order |
| `PsviWriter.Writer.ProcessDOMElement` | samples/src/PSVIWriter/PSVIWriterHandlers.cpp:896-918 | The elements of one name inside an annotation, or the nil form |
| `PsviWriter.Writer.ProcessAnnotation` | samples/src/PSVIWriter/PSVIWriterHandlers.cpp:873-894 | An annotation and those chained behind it, or the nil form |
| `PsviWriter.Writer.ProcessAnnotations` | samples/src/PSVIWriter/PSVIWriterHandlers.cpp:782-792 | A list of annotations, or the nil form |
| `PsviWriter.Writer.ProcessWildcard` | samples/src/PSVIWriter/PSVIWriterHandlers.cpp:969-993 | A wildcard with its namespace constraint, or the nil form |
| `PsviWriter.Writer.ProcessAttributeWildcard` | samples/src/PSVIWriter/PSVIWriterHandlers.cpp:1041-1049 | The attribute wildcard inside its own element, or the nil form |
| `PsviWriter.Writer.ProcessScope` | samples/src/PSVIWriter/PSVIWriterHandlers.cpp:1051-1064 | The scope: a reference to the enclosing type, global, or the nil form |
| `PsviWriter.Writer.ProcessValueConstraint` | samples/src/PSVIWriter/PSVIWriterHandlers.cpp:1066-1075 | The value constraint and its kind, or the nil form |
| `PsviWriter.Writer.ProcessFacets` | samples/src/PSVIWriter/PSVIWriterHandlers.cpp:812-842 | Single and multi-valued facets, one after the other |
| `PsviWriter.Writer.ProcessFundamentalFacets` | samples/src/PSVIWriter/PSVIWriterHandlers.cpp:844-859 | The four fundamental facets |
| `PsviWriter.Writer.ProcessXPath` | samples/src/PSVIWriter/PSVIWriterHandlers.cpp:1108-1112 | An xpath inside its own element |
| `PsviWriter.Writer.ProcessFields` | samples/src/PSVIWriter/PSVIWriterHandlers.cpp:1100-1106 | The fields of a constraint, in order |
| `PsviWriter.Writer.ProcessTypeDefinitionRef` | samples/src/PSVIWriter/PSVIWriterHandlers.cpp:1186-1198 | A reference to a simple or complex type inside the enclosing element, or the nil form |
| `PsviWriter.Writer.ProcessAttributeDeclarationRef` | samples/src/PSVIWriter/PSVIWriterHandlers.cpp:1200-1208 | A reference to an attribute declaration, or the nil form |
| `PsviWriter.Writer.ProcessElementDeclarationRef` | samples/src/PSVIWriter/PSVIWriterHandlers.cpp:1210-1218 | A reference to an element declaration, or the nil form |
| `PsviWriter.Writer.ProcessTypeDefinitionOrRef` | samples/src/PSVIWriter/PSVIWriterHandlers.cpp:1130-1146 | The type stands here: its whole definition if it is anonymous and not yet defined, else a reference |
| `PsviWriter.Writer.ProcessSimpleTypeDefinitionOrRef` | samples/src/PSVIWriter/PSVIWriterHandlers.cpp:1148-1158 | The same for a simple type without an enclosing element |
| `PsviWriter.Writer.ProcessAttributeDeclarationOrRef` | samples/src/PSVIWriter/PSVIWriterHandlers.cpp:1160-1171 | The declaration stands here: its definition if it is not global and not yet defined, else a reference |
| `PsviWriter.Writer.ProcessElementDeclarationOrRef` | samples/src/PSVIWriter/PSVIWriterHandlers.cpp:1173-1184 | The same for an element declaration |
| `PsviWriter.Writer.ProcessAttributeUses` | samples/src/PSVIWriter/PSVIWriterHandlers.cpp:794-810 | The attribute uses, each with its declaration in place and its constraint |
| `PsviWriter.Writer.ProcessMemberTypeDefinitions` | samples/src/PSVIWriter/PSVIWriterHandlers.cpp:861-871 | The member types, each in place |
| `PsviWriter.Writer.ProcessParticle` | samples/src/PSVIWriter/PSVIWriterHandlers.cpp:1011-1039 | A particle with its occurrence bounds and its term |
| `PsviWriter.Writer.ProcessModelGroup` | samples/src/PSVIWriter/PSVIWriterHandlers.cpp:995-1009 | A model group with its compositor and particles |
| `PsviWriter.Writer.ProcessTypeDefinition` | samples/src/PSVIWriter/PSVIWriterHandlers.cpp:645-651 | The whole definition of a type: one tree with its id and the contents of its kind |
| `PsviWriter.Writer.ProcessComplexTypeDefinition` | samples/src/PSVIWriter/PSVIWriterHandlers.cpp:653-680 | The definition of a complex type; the level, the indent and the namespaces are as before |
| `PsviWriter.Writer.ProcessSimpleTypeDefinition` | samples/src/PSVIWriter/PSVIWriterHandlers.cpp:682-698 | The definition of a simple type |
| `PsviWriter.Writer.ProcessAttributeDeclaration` | samples/src/PSVIWriter/PSVIWriterHandlers.cpp:751-766 | The definition of an attribute declaration |
| `PsviWriter.Writer.ProcessElementDeclaration` | samples/src/PSVIWriter/PSVIWriterHandlers.cpp:727-749 | The definition of an element declaration with its identity constraints |
| `PsviWriter.Writer.ProcessIdentityConstraintDefinition` | samples/src/PSVIWriter/PSVIWriterHandlers.cpp:1077-1098 | The identity constraints of an element, each defined here, or the nil form |
| `PsviWriter.Writer.ProcessAttributeGroupDefinition` | samples/src/PSVIWriter/PSVIWriterHandlers.cpp:713-725 | The definition of an attribute group |
| `PsviWriter.Writer.ProcessModelGroupDefinition` | samples/src/PSVIWriter/PSVIWriterHandlers.cpp:700-711 | The definition of a model group |
| `PsviWriter.Writer.ProcessNotationDeclaration` | samples/src/PSVIWriter/PSVIWriterHandlers.cpp:768-780 | The definition of a notation |
| `PsviWriter.Writer.ProcessSchemaInformation` | samples/src/PSVIWriter/PSVIWriterHandlers.cpp:560-571 | The namespaces of the model if the stack is one high and there is a model; else the nil form |
| `PsviWriter.Writer.ProcessNamespaceItem` | samples/src/PSVIWriter/PSVIWriterHandlers.cpp:573-582 | One namespace of the model; XML Schema's own is left out |
| `PsviWriter.Writer.ProcessSchemaComponents` | samples/src/PSVIWriter/PSVIWriterHandlers.cpp:584-611 | A definition for every component listed, kind by kind, in order |
| `PsviWriter.Writer.ProcessSchemaDocuments` | samples/src/PSVIWriter/PSVIWriterHandlers.cpp:613-626 | The schema documents of a namespace |
| `PsviWriter.Writer.ProcessSchemaAnnotations` | samples/src/PSVIWriter/PSVIWriterHandlers.cpp:628-638 | The annotations of a schema, or the nil form |
| `PsviWriter.Writer.ProcessActualValue` | samples/src/PSVIWriter/PSVIWriterHandlers.cpp:1681-1942 | The typed value as a comment with one element in it; nothing without a value |
| `PsviWriter.Writer.ProcessAttributePSVI` | samples/src/PSVIWriter/PSVIWriterHandlers.cpp:524-543 | The assessment of an attribute; nothing if there is none |
| `PsviWriter.Writer.ProcessAttributes` | samples/src/PSVIWriter/PSVIWriterHandlers.cpp:454-489 | All attributes as ordinary ones, then those at the places noted, which are what NotesLeft says of the objects defined before; it throws exactly if one of these places has no assessed attribute, and then stands in that attribute |
| `PsviWriter.Writer.ProcessNamespaceAttributes` | samples/src/PSVIWriter/PSVIWriterHandlers.cpp:491-522 | The attributes at the places noted; throws exactly if one has no assessed attribute, behind the ones in front of it |
| `PsviWriter.Writer.ProcessInScopeNamespaces` | samples/src/PSVIWriter/PSVIWriterHandlers.cpp:545-558 | The xml namespace, then those in scope in order |
| `PsviWriter.Writer.ProcessChildren` | samples/src/PSVIWriter/PSVIWriterHandlers.cpp:1114-1120 | The level's children element is open afterwards; it opens at the first child only |
| `PsviWriter.Writer.ProcessChildrenEnd` | samples/src/PSVIWriter/PSVIWriterHandlers.cpp:1122-1128 | The children element is closed, or shown empty if it never opened; the stack loses its top |
| `PsviWriter.Writer.ResetDocument` | samples/src/PSVIWriter/PSVIWriterHandlers.cpp:161-179 | The writer is at rest and has printed nothing more, whatever was open |
| `PsviWriter.Writer.FatalError` | samples/src/PSVIWriter/PSVIWriterHandlers.cpp:310-322 | The writer is at rest after a fatal error |
| `PsviWriter.Writer.StartDocument` | samples/src/PSVIWriter/PSVIWriterHandlers.cpp:206-218 | Whatever was open: a document level opens inside it and the stack gains one false; in a writer at rest it is the document's own |
| `PsviWriter.Writer.EndDocument` | samples/src/PSVIWriter/PSVIWriterHandlers.cpp:220-229 | The lines since the start are those of the document's tree, with the ids of the table handed out; the writer is at rest |
| `PsviWriter.Writer.Characters` | samples/src/PSVIWriter/PSVIWriterHandlers.cpp:231-237 | One character child, in the children element |
| `PsviWriter.Writer.Comment` | samples/src/PSVIWriter/PSVIWriterHandlers.cpp:244-249 | One comment child |
| `PsviWriter.Writer.Instruction` | samples/src/PSVIWriter/PSVIWriterHandlers.cpp:251-258 | One processing instruction child |
| `PsviWriter.Writer.XMLDecl` | samples/src/PSVIWriter/PSVIWriterHandlers.cpp:1945-1956 | The encoding, or the detected one, standalone and version |
| `PsviWriter.Writer.ResolveEntity` | samples/src/PSVIWriter/PSVIWriterHandlers.cpp:283-288 | The base uri is the entity's |
| `PsviWriter.Writer.StartPrefixMapping` | samples/src/PSVIWriter/PSVIWriterHandlers.cpp:260-267 | The namespaces become StartMapping of the old ones: the uri is in list and map, with its old prefix or, if it had none, with this one |
| `PsviWriter.Writer.EndPrefixMapping` | samples/src/PSVIWriter/PSVIWriterHandlers.cpp:269-279 | The namespaces become EndMapping of the old ones: the first uri with the prefix goes |
| `PsviWriter.Writer.StartElement` | samples/src/PSVIWriter/PSVIWriterHandlers.cpp:184-199 | The attributes are copied in order |
| `PsviWriter.Writer.HandleAttributesPSVI` | samples/src/PSVIWriter/PSVIWriterHandlers.cpp:345-358 | An element level opens as a child with name, attributes, namespaces and base uri, and the stack gains a false; or it throws, exactly if a place noted has no assessed attribute, and stands at that place |
| `PsviWriter.Writer.HandleElementPSVI` | samples/src/PSVIWriter/PSVIWriterHandlers.cpp:360-388 | The element's level is complete and closed at the level around it; the stack is one lower |
| `PsviWriter.Writer.HandlePartialElementPSVI` | samples/src/PSVIWriter/PSVIWriterHandlers.cpp:408-448 | A comment with what is known so far; nothing else changes |
| `PsviDomAttributes.AttributesPartitioned` | samples/src/PSVIWriter/PSVIWriterHandlers.cpp:920-967 | The two groups shown for any attribute map hold every attribute exactly once, namespace declarations in the second, each group opened only if not empty; the attributes are read back from the trees |
| `PsviDomAttributes.SelectKeepsOrder` | samples/src/PSVIWriter/PSVIWriterHandlers.cpp:920-967 | Each group keeps the order of the attributes |
| `PsviDomAttributes.AttrsReadBack` | samples/src/PSVIWriter/PSVIWriterHandlers.cpp:920-967 | The trees of a group determine its attributes with all their properties |
| `PsviPlans.Contents` | samples/src/PSVIWriter/PSVIWriterHandlers.cpp:645-766 | What is shown inside a definition holds no comment, and defines unconditionally only the component's own identity constraints |
| `PsviPlans.IndicesSelect` | samples/src/PSVIWriter/PSVIWriterHandlers.cpp:920-967 | The places noted are those of the namespace declarations and no others, in increasing order |
| `IcuTables.FromTableIff` | tools/ICUData/ICUData.cpp:387-428 | For any records, repeated or not: the printed entries are the smallest characters of 0 up to the largest value if and only if the records fit, that is, each value in use has more copies of its smallest record than there are unused values before it and at most two records more than that (no record being for U+FFFF, for the direction that the table is wrong otherwise) |
| `IcuTables.GapFreeFits` | tools/ICUData/ICUData.cpp:387-428 | Records fit if every value from 0 to the largest occurs once or twice, counted as records |
| `IcuTables.FitsIffGapFree` | tools/ICUData/ICUData.cpp:387-428 | Without repeated records they fit only then |
| `IcuTables.CopiesFillGaps` | tools/ICUData/ICUData.cpp:387-428 | Concrete inputs: two copies of a record count as two records, and a copy may be used up by a gap |
| `IcuTables.EntryCount` | tools/ICUData/ICUData.cpp:387-428 | When the records fit the program never gives up and prints one entry for each value up to the largest in use |
| `IcuTables.LostRecord` | tools/ICUData/ICUData.cpp:387-428 | A record used up by a filler is missing from the table |
| `IcuTables.GapAndTriple` | tools/ICUData/ICUData.cpp:387-428 | Concrete inputs that do not fit and whose table is wrong: behind a gap a record is lost, and with three records of one value the program gives up |
| `IcuTables.SortRecords` | tools/ICUData/ICUData.cpp:367 | Sorted by the chosen comparison, the same records, the rest of the table untouched |
| `IcuGenerator.Generator.PrintFromTable` | tools/ICUData/ICUData.cpp:387-428 | The loop prints the entries Emit gives for the sorted records, or exits where Emit gives up; the value never passes 256 |
| `IcuGenerator.Generator.FormatSBTables` | tools/ICUData/ICUData.cpp:352-465 | Prints both tables from the sorted records exactly if the encoding is single-byte and the emission does not give up; the "to" table is the same records by character |
| `IcuGenerator.Generator.LoadTable` | tools/ICUData/ICUData.cpp:201-319 | Header and records become what the lines say, or the program exits, exactly as LoadHeader and LoadRecords tell |
| `IcuGenerator.Generator.GetLine` | tools/ICUData/ICUData.cpp:108-155 | The buffer holds the next line that is not a comment, without comment and trailing white space |
| `IcuGenerator.Generator.ReadEntry` | tools/ICUData/ICUData.cpp:243-312 | A record exactly where the line is well formed and in range |
| `IcuGenerator.Generator.ReadHeader` | tools/ICUData/ICUData.cpp:203-229 | The header values, or an exit |
| `IcuGenerator.Generator.ReadRecords` | tools/ICUData/ICUData.cpp:239-318 | The table grows by the records of the lines, in order, up to END CHARMAP |
| `IcuGenerator.Generator.Run` | tools/ICUData/ICUData.cpp:487-538 | The whole program: a file written in the given form is accepted only if it is for a single-byte encoding and has records; and if its records fit, or every value up to the largest occurs once or twice, it is accepted, the substitution character is the one written last, the "from" table is the right one with no entry too many, and the "to" table holds the records by character, strictly if no character repeats |
| `IcuFiles.HeaderUndoesWriting` | tools/ICUData/ICUData.cpp:201-229 | Header lines in any order, with decimal numbers or hexadecimal ones behind a backslash and an x, other lines, comment lines and comments behind lines: they load as the number written last for each tag, and the initial value where there is none |
| `IcuFiles.FileUndoesWriting` | tools/ICUData/ICUData.cpp:201-319 | Loading a whole file gives back the header it sets and exactly its records, in order |
| `IcuFiles.NumberParsed` | tools/ICUData/ICUData.cpp:159-198 | A number written in either form is read as its value in 32 bits, as the largest one if it is too large for 64 |
| `IcuFiles.JunkRejected` | tools/ICUData/ICUData.cpp:159-198 | Anything behind the digits of a number makes the program exit |
| `IcuFiles.DecimalReadsBack` | tools/ICUData/ICUData.cpp:159-198 | The decimal text of a number reads as that number |
| `IcuLoading.LoadUndoesWriting` | tools/ICUData/ICUData.cpp:234-319 | Lines written for any records load as exactly these records in order, behind those already there, up to the capacity |
| `IcuLoading.WriteIsValid` | tools/ICUData/ICUData.cpp:234-319 | Every record can be written as such a line |
| `IcuLoading.ParseRecord` | tools/ICUData/ICUData.cpp:243-312 | A line with a hexadecimal character of four digits and a hexadecimal value of any number of digits parses to the record if the value, in 32 bits, is a byte, and makes the program exit otherwise |
| `IcuLoading.RecordJunkRejected` | tools/ICUData/ICUData.cpp:293-300 | Anything behind the digits of a value makes the program exit |
| `IcuLoading.EntryHasSigns` | tools/ICUData/ICUData.cpp:243-283 | Only lines of twelve characters or more with the signs around the numbers are taken |
| `IcuText.StrtoulDigits` | tools/ICUData/ICUData.cpp:159-198 | Digits are read whole in either base; a number too large for 64 bits counts as the largest |
| `IcuText.StrtoulStops` | tools/ICUData/ICUData.cpp:159-198 | Digits are read up to the first character that is none |
| `IcuLookup.XlatOneTo` | src/xercesc/util/XML256TableTranscoder.cpp:180-216 | The bisection finds the value of every character of an increasing table but the first of three or more; 0 for the others |
| `IcuLookup.FirstMissed` | src/xercesc/util/XML256TableTranscoder.cpp:180-216 | Concrete right tables, paired and without a gap, whose first character is looked up as 0 although its value is 1 |
| `IcuLookup.FromThenTo` | tools/ICUData/ICUData.cpp:387-465 | Looking up entry c of the "from" table in the "to" table gives c, except for the one character never found, unless c is 0 |
| `IcuLookup.AllFromThenToIff` | tools/ICUData/ICUData.cpp:387-465 | All entries are taken back if and only if the smallest character has value 0 or there are at most two records |
| `IcuLookup.ToThenFromIff` | tools/ICUData/ICUData.cpp:387-465 | The value found for any character of the "to" table leads back to it in the "from" table if and only if the character is the smallest of its value and is not the one never found |
| `IcuLookup.SortedTablesPair` | tools/ICUData/ICUData.cpp:367-465 | For distinct characters without gaps both printed tables are right: the results above apply to them |
| `ContentModels.Unambiguous` | samples/src/SCMPrint/SCMPrint.cpp:484-525 | A parser recovers from the text of a content model its form: the tree up to occurrence bounds and the compositors of single-member groups |
| `ContentModels.SameTextIff` | samples/src/SCMPrint/SCMPrint.cpp:484-525 | Two content models print the same text if and only if they have the same form |
| `ContentModels.ParsePrint` | samples/src/SCMPrint/SCMPrint.cpp:497-525 | The parser stops right behind the particle, whatever may follow it |
| `ContentModels.Printer.ProcessParticle` | samples/src/SCMPrint/SCMPrint.cpp:497-525 | The text of any particle is appended, or, exactly if it has an empty group, the text up to the first one, where the program throws |
| `ContentModels.CutIsNoModel` | samples/src/SCMPrint/SCMPrint.cpp:497-525 | What was printed when the program throws is not the text of any content model: a parenthesis is open |
| `ContentModels.EmptyGroupCut` | samples/src/SCMPrint/SCMPrint.cpp:508-520 | A concrete particle on which the program throws, and the text printed |
| `ContentModels.Printer.ProcessParticles` | samples/src/SCMPrint/SCMPrint.cpp:508-520 | The members of a group with the connector between them, up to the first empty group if there is one; a group without members throws at once |
| `ContentModels.Printer.PrintCompositorTypeConnector` | samples/src/SCMPrint/SCMPrint.cpp:484-495 | The connector of the compositor |
| `AttributeSorting.SortSorts` | samples/src/SAX2Print/SAX2FilterHandlers.cpp:151-174 | The list passed on is sorted by qualified name and has the same attributes |
| `AttributeSorting.TiesReversed` | samples/src/SAX2Print/SAX2FilterHandlers.cpp:151-174 | Attributes of one qualified name come out in reverse order |
| `AttributeSorting.LookupAfterSort` | samples/src/SAX2Print/SAX2FilterHandlers.cpp:88-132 | Looking up a qualified name afterwards finds the last match of before; unchanged if and only if first and last match are the same |
| `AttributeSorting.RepeatedNameChanges` | samples/src/SAX2Print/SAX2FilterHandlers.cpp:88-132 | A list that has a name twice, as a handler in front of the filter may pass on: the lookup changes from the first to the second |
| `AttributeSorting.NameLookupAfterSort` | samples/src/SAX2Print/SAX2FilterHandlers.cpp:70-132 | Looking up a namespace and local name afterwards finds, among the matches, the smallest qualified name, and of those the last one of before |
| `AttributeSorting.NameLookupUnchangedIff` | samples/src/SAX2Print/SAX2FilterHandlers.cpp:70-132 | That lookup is unchanged if and only if the first match before has the smallest qualified name of all matches and is the last with that name |
| `AttributeSorting.OtherPrefixChanges` | samples/src/SAX2Print/SAX2FilterHandlers.cpp:70-132 | Two attributes with one namespace and local name under two prefixes, the second name smaller: the lookup changes from the first to the second |
| `AttributeSorting.DistinctLookup` | samples/src/SAX2Print/SAX2FilterHandlers.cpp:70-132 | A key of at most one attribute finds the same attribute before and after |
| `AttributeSorting.SelectSort` | samples/src/SAX2Print/SAX2FilterHandlers.cpp:151-174 | Sorting commutes with selecting by key |
| `AttributeSorting.SortAttributesFilter.StartElement` | samples/src/SAX2Print/SAX2FilterHandlers.cpp:151-174 | The event passed on carries the sorted attributes |
| `AttributeSorting.SortAttributesFilter.SlotIn` | samples/src/SAX2Print/SAX2FilterHandlers.cpp:159-164 | The place of the first attribute whose name is not smaller |
| `AttributeSorting.AttrList.FindIndex` | samples/src/SAX2Print/SAX2FilterHandlers.cpp:70-94 | Whether a key occurs and its first place, or the length of the list |
| `AttributeSorting.AttrList.GetIndex` | samples/src/SAX2Print/SAX2FilterHandlers.cpp:80-102 | The first place of a key, or -1 |
| `AttributeSorting.AttrList.GetValue` | samples/src/SAX2Print/SAX2FilterHandlers.cpp:119-132 | The value of the first match |
| `AttributeSorting.AttrList.GetType` | samples/src/SAX2Print/SAX2FilterHandlers.cpp:104-117 | The type of the first match |
| `XmlText.Compare` | src/xercesc/util/XMLString.cpp:1138-1169 | The loop computes the comparison by the first differing character; NULL is compared by the other string's length |
| `XmlText.CompareLessIff` | src/xercesc/util/XMLString.cpp:1138-1169 | A string compares less exactly if it comes first in a dictionary: it is the beginning of the other, or has the smaller character where they differ first |
| `XmlText.CompareEqual` | src/xercesc/util/XMLString.cpp:1138-1169 | The comparison is zero exactly for equal strings |
| `XmlText.CompareOpposite` | src/xercesc/util/XMLString.cpp:1138-1169 | Swapping the strings changes the sign |
| `XmlText.CompareTransitive` | src/xercesc/util/XMLString.cpp:1138-1169 | The order is transitive |
| `SortedInsertion.InsertAtSorted` | samples/src/SAX2Print/SAX2FilterHandlers.cpp:159-172 | Putting a key between those that are not larger and those that are not smaller keeps a list sorted; both insertion sorts rest on it |
| `FacetPrinting.TextLists` | samples/src/SEnumVal/SEnumVal.cpp:432-463 | For every order of enumeration the text is a heading and one line for each facet, a tab, the key, an equals sign and its value, the keys in the order of a dictionary; nothing without facets |
| `FacetPrinting.OutputIndependentOfOrder` | samples/src/SEnumVal/SEnumVal.cpp:432-463 | The output is the same for every order in which the hash table enumerates its keys |
| `FacetPrinting.SortedUnique` | samples/src/SEnumVal/SEnumVal.cpp:440-457 | A sorted list is determined by its members |
| `FacetPrinting.SortSorts` | samples/src/SEnumVal/SEnumVal.cpp:440-457 | The list is sorted and has the same keys |
| `FacetPrinting.ProcessFacets` | samples/src/SEnumVal/SEnumVal.cpp:432-463 | This text is what is printed |
| `FacetPrinting.SortedList.InsertKey` | samples/src/SEnumVal/SEnumVal.cpp:446-457 | A key goes in front of the first larger one, or at the end |

## Left out

- XML escaping, character encodings and the layout of a line are not modelled: output is a sequence of lines with tag, attributes, text and number of tabs; text that would close a comment is not looked at.
- The schema processor, the parser and the component model's own classes: a schema is any finite graph with good pointers, a document any nested sequence of callbacks.
- NULL and the empty string are one value for names, prefixes and uris; the string functions used treat them alike.
- The translate functions from enumerations to text, number and date formatting, and the switch over data types in the actual value: their results are given as text.
- PsviIds.CountedIdsUnique: the counter is unbounded, while the program throws beyond five digits, which happens exactly when more than 99000 objects need a number (`NumbersFitIff`); `WriteDocument` says so of the document (`NumbersSuffice`), and the lines it states beyond that point are those without this throw.
- PsviWriter.Writer.CreateId: the same throw is not part of the method (`NumbersSuffice` is when it cannot happen); ids longer than the 100-character buffer and addresses longer than eight hexadecimal digits are not modelled.
- PsviWriter.Writer.ProcessNamespaceAttributes: a NULL attribute list, as in ProcessAttributes.
- PsviWriter.Writer.HandleAttributesPSVI: a NULL attribute list, as in ProcessAttributes.
- PsviWriter.Writer.ProcessAttributes: a NULL attribute list, which the program dereferences, is not modelled; the scanners always pass the list they own (`src/xercesc/internal/IGXMLScanner.cpp:547`, `:2648`). Following the NULL pointer of an attribute that was not assessed counts as a throw.
- PsviRun.WriteDocument: the throw at a number of six digits is not part of the run; the contract says exactly for which documents it cannot happen.
- PsviTypeNotes.AfterType: for an anonymous complex type inside a member type, which schemas cannot have, the walk itself is used.
- PsviWriter.Writer.ProcessSchemaDocuments: a NULL list of locations, which the program dereferences, is not modelled.
- PsviWriter.Writer.HandleElementPSVI: the children stack must be at least two high, as it is in every nested run; the program throws on an empty stack.
- PsviWriter.Writer.FatalError: the report written to the error formatter is not modelled, nor are the handlers for errors and warnings.
- PsviWriter.Writer.XMLDecl: the other callbacks of the advanced document handler are empty in the program.
- Ownership and release of strings, resetPSVIFormatter, option parsing and the main programs but that of the table generator.
- IcuGenerator.Generator.GetLine: at the end of the input, on a blank line and on lines of 2047 characters or more the program reads or writes outside its buffer; these inputs are excluded, as are lines with a NUL character.
- IcuGenerator.Generator.FormatSBTables: asks for fewer than 1024 records, because the program looks at the record behind the last one; the layout of the printed C++ text is not modelled.
- IcuGenerator.Generator.Run: opening and closing the files, and the usage message; files with more than 1023 records, or on which the program reads outside its buffers, are excluded.
- IcuTables.SortRecords: stands for the library's qsort; an insertion sort with the same comparison.
- IcuText.Strtoul: unsigned long has 64 bits and unsigned int 32.
- IcuLookup.XlatOneTo: an empty table, on which the program's index wraps around, is excluded.
- The rest of SCMPrint prints flat lists.
- XmlText.Compare: lengths and characters are differences of unbounded integers, where the program has int.
- FacetPrinting.ProcessFacets: the other parts of the datatype report are flat lists.
- AttributeSorting.AttrList.FindIndex: the lookups by qualified name and by namespace and local name are one method with a key; the positional getters are left out.
