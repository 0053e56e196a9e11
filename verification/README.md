# rAthena: configuration files, character server and low-level algorithms

A Dafny model of three parts of the rAthena server emulator, with proofs of what they promise.

* **libconfig.** The writer of configuration trees, the scanner and the table-driven LALR parser that read them,
  the tree of settings on the heap with its path lookup, and the deep copy of settings. The parser is the loop
  over the generated tables itself, and its actions build the settings on the heap; the scanner is longest match
  over the rules of its action switch. The main result says exactly which trees survive being written and read.
  Doubles are bit patterns; `atof` and `%.10g` are parameters of which only the shapes of printed doubles that the
  C standard prescribes, with a decimal point as in the C locale, are used.
* **The character server.** Who is online where, with kick timers and one-shot tickets; whispers; parties; the
  fame ranking; guild levels; saving of items and quests by differences; registry entries in packets.
* **Common algorithms.** The entry manager with shared caches, reuse lists and doubly linked lists, and the
  one-round DES block transform.

Code that works on state is modelled by classes and methods with loops, each proved against a specification on
values, and the promises are proved about the specification: over every input, every run of events, every heap.

| files | part |
|---|---|
| `Settings`, `Floats`, `Writer`, `WriterLayout`, `WriterLoop` | settings trees; doubles as text; what is written, how it looks, and the writer on a stream |
| `Numerals`, `Lexemes`, `Scanning`, `ScannerLoop`, `Comments`, `LexemeLaws` | numbers as text; the rules; the scanner as a function and as a loop; what comments, numbers, words and escapes give |
| `GrammarTables`, `GrammarFacts`, `ParseActions`, `LrParser` | the tables; what they guarantee; the actions on values; the parser as a step function |
| `HeapSpine`, `ParserActions`, `ParserLoop` | the actions on the heap and how that stands for the values; the parser as a loop |
| `Derivations`, `ParseTrees`, `ParserTheorems`, `ParserSafety`, `ParserContext` | derivations and their uniqueness, soundness and completeness, stack height, absence of bad pointers |
| `Meaning`, `TreeShapes`, `TreeEffects`, `StackNeeds`, `Spelling` | what a derivation denotes, that the actions build exactly that, and that the tokens spell it |
| `ScanLemmas`, `ScalarText`, `TreeText`, `ReadTrees`, `CanonicalTrees`, `FloatTrees`, `RoundTrip` | the round trip |
| `ElementLists`, `SettingHeap`, `SettingTrees`, `SettingPaths`, `PathLaws` | settings on the heap, their values and paths |
| `CopyValues`, `SettingCopy`, `CopiesOfReadTrees` | deep copy |
| `CharState`, `CharSafety`, `CharEffects`, `CharJourneys`, `CharHandlers` | online table, timers and tickets: steps, invariant over runs, what events lead to, the server |
| `PartyAggregates`, `FameRanking`, `Whispers`, `WhisperRuns`, `RegistryPackets`, `GuildLevels`, `ItemStorage`, `QuestLog` | the other handlers |
| `SlabCache`, `SlabAllocator`, `Bits64`, `DesTables`, `DesBlock`, `DesBoxes` | common algorithms |

`dafny verify dfyconfig.toml` checks everything.

## Model

| member | source | states |
|---|---|---|
| RoundTrip.WriteThenRead | 3rdparty/libconfig/libconfig.c:170-394 | Writing a tree and reading the text gives the same tree exactly when the tree is in scope (arrays of one scalar type, names that are name tokens and distinct per group, numbers in range, no NUL in strings), its nesting fits the parser's stacks, and ten printed digits are enough for each of its doubles |
| RoundTrip.ReadPrinted | 3rdparty/libconfig/libconfig.c:634-656 | What reading back gives for every tree in scope: the tree with each double printed with ten digits and read again; memory exhaustion if it nests too deep; an error if it holds an infinity or the like |
| RoundTrip.ReadIsGood | 3rdparty/libconfig/libconfig.c:553-616 | Whatever text is read successfully, the tree that results is in scope for writing and fits the stacks |
| RoundTrip.ReadWriteRead | 3rdparty/libconfig/libconfig.c:660-667 | For any text that is read and any tab width, reading, writing and reading again gives what the first reading gave exactly if ten digits are enough for the doubles read |
| RoundTrip.WriteReadWrite | 3rdparty/libconfig/libconfig.c:660-667 | Writing what was read back gives the same text again if each double read back is printed as before, so nothing changes from then on |
| RoundTrip.DigitsAreLost | 3rdparty/libconfig/libconfig.c:214-245 | A double that needs eleven digits comes back as another one |
| RoundTrip.InfinityIsLost | 3rdparty/libconfig/libconfig.c:214-245 | The printed form of an infinity cannot be read |
| Floats.FloatTextShape | 3rdparty/libconfig/libconfig.c:214-245 | Whatever shape %.10g gives a double by the C standard, after the writer's changes it is one float lexeme or one of four odd texts |
| TreeText.PrintedFloatScanned | 3rdparty/libconfig/libconfig.c:214-245 | A printed double is scanned as one float token with what atof makes of the text; an infinity as a name and a number, with a stray sign or not |
| FloatTrees.KeptList | 3rdparty/libconfig/libconfig.c:214-245 | Printing and reading every double leaves a tree of numbers as it is exactly if it leaves each double as it is |
| FloatTrees.YieldAssigned | 3rdparty/libconfig/grammar.c:503-582 | In every derivation each name is followed by an equals sign |
| FloatTrees.OddFloatsDoNotParse | 3rdparty/libconfig/libconfig.c:214-245 | No derivation yields the tokens of a printed tree with a double that is no number |
| RoundTrip.PrintedTokens | 3rdparty/libconfig/libconfig.c:170-394 | The scanner splits the printed text into exactly the tokens of the tree, those of the printed doubles included, whatever the indentation |
| RoundTrip.DocumentFits | 3rdparty/libconfig/grammar.c:1476-1810 | The tree's tokens have a derivation that denotes the tree and needs the stated stack height |
| RoundTrip.GoodItemsAreLegal | 3rdparty/libconfig/grammar.c:1476-1810 | Trees in scope meet every check the actions make (unique names, one scalar type per array) |
| WriterLoop.Stream.PutValue | 3rdparty/libconfig/libconfig.c:170-394 | Appends to the stream exactly the text of the value at that depth and leaves what was written before; doubles with ten digits, a point added or zeros cut off |
| WriterLoop.Stream.PutSetting | 3rdparty/libconfig/libconfig.c:634-656 | Appends the text of a setting: indentation, name, assignment sign, value and terminator, leaving what was written before |
| WriterLoop.Stream.PutEscaped | 3rdparty/libconfig/libconfig.c:248-293 | The escape loop writes each character's escape, hex escapes for other control characters included |
| WriterLoop.Stream.PutIndent | 3rdparty/libconfig/libconfig.c:156-166 | Spaces or tabs as the width asks |
| WriterLoop.ConfigWrite | 3rdparty/libconfig/libconfig.c:660-667 | The recursive writer on a stream produces the document that the round trip is about |
| WriterLayout.WrittenInLines | 3rdparty/libconfig/libconfig.c:352-385 | A configuration is printed as lines: one for each setting, three and those of its members for a group, each with a margin of the tab width, or a tab, for each group around it |
| WriterLayout.ElementsJoined | 3rdparty/libconfig/libconfig.c:296-349 | The elements of a list or array are separated by commas and stand between blanks |
| WriterLayout.EscapesAre | 3rdparty/libconfig/libconfig.c:255-288 | The characters that print as they are and the escape of each other one, with two upper-case hexadecimal digits where there is no name |
| WriterLayout.NumeralIsShort | 3rdparty/libconfig/libconfig.c:180-212 | Printed numbers do not start with a zero unless they are zero |
| Floats.OnlyZerosGo | 3rdparty/libconfig/libconfig.c:228-243 | Of a printed double nothing but zeros at its end goes, and none of those is left unless everything but the first character is one |
| Numerals.DecimalRoundTrip | 3rdparty/libconfig/scanner.c:1148-1156 | Printing an integer in decimal and reading it back is the identity, sign included |
| Numerals.NumeralRoundTrip | 3rdparty/libconfig/scanner.c:590-622 | Decimal and hexadecimal numerals have digits of their base and give back their number |
| Numerals.UnsignedRoundTrip | 3rdparty/libconfig/libconfig.c:184-212 | Hexadecimal output of the unsigned reading of a 32- or 64-bit number keeps the number |
| ScalarText.IntScanned | 3rdparty/libconfig/scanner.c:1148-1163 | A printed 32-bit integer, decimal or hex, is scanned as the one token that holds it |
| ScalarText.Int64Scanned | 3rdparty/libconfig/scanner.c:1153-1169 | A printed 64-bit integer with its L suffix, decimal or hex, is scanned as the one token that holds it |
| ScalarText.BoolScanned | 3rdparty/libconfig/scanner.c:1128-1136 | The printed words true and false are boolean tokens, not names |
| ScalarText.StringScanned | 3rdparty/libconfig/scanner.c:1003-1048 | A printed string is scanned back to the same characters, through every escape |
| ScalarText.NameScanned | 3rdparty/libconfig/scanner.c:1138-1141 | A name followed by a blank is scanned as that name |
| ScanLemmas.WordScanned | 3rdparty/libconfig/scanner.c:899-943 | Longest match on a word that a delimiter follows takes the whole word and the rule for it |
| TreeText.ValueScanned | 3rdparty/libconfig/libconfig.c:170-394 | Printed values of any nesting are scanned to their tokens and leave the scanner where it was |
| TreeText.SettingScanned | 3rdparty/libconfig/libconfig.c:634-656 | A printed setting is scanned to its tokens and leaves the scanner where it was |
| TreeText.MembersScanned | 3rdparty/libconfig/libconfig.c:366-385 | The printed members of a group are scanned to their tokens and leave the scanner where it was |
| Lexemes.Longest | 3rdparty/libconfig/scanner.c:899-943 | The longest prefix, up to a limit, that some rule matches |
| ScannerLoop.Scanner.LongestMatch | 3rdparty/libconfig/scanner.c:899-943 | The match loop finds the longest match, and some rule always matches |
| ScannerLoop.Scanner.LexPlain | 3rdparty/libconfig/scanner.c:1056-1230 | One match outside strings and comments, equal to the specification step |
| ScannerLoop.Scanner.LexComment | 3rdparty/libconfig/scanner.c:966-985 | One match inside a comment, as the specification step that Comments.BlockCommentSkipped is proved about |
| ScannerLoop.Scanner.LexString | 3rdparty/libconfig/scanner.c:998-1055 | One match inside a string, appending to the buffer what the escape stands for |
| ScannerLoop.Scanner.Yylex | 3rdparty/libconfig/scanner.c:860-1230 | The scanner loop on its position, start condition and string buffer returns the next token of the specification, which goes on behind comments as Comments says |
| Comments.BlockCommentSkipped | 3rdparty/libconfig/scanner.c:966-985 | A block comment, whatever it says, and then any text has the tokens of that text |
| Comments.UnclosedCommentTakesAll | 3rdparty/libconfig/scanner.c:966-985 | A comment that is not closed takes the rest of the text |
| Comments.LineCommentSkipped | 3rdparty/libconfig/scanner.c:1199-1202 | A comment from a number sign or two slashes to the end of its line gives no token, and what follows has its own tokens |
| LexemeLaws.SignsScanned | 3rdparty/libconfig/scanner.c:1108-1197 | Each sign of punctuation is its own token whatever follows it |
| LexemeLaws.TruthInAnyCase | 3rdparty/libconfig/scanner.c:1128-1136 | The words true and false are booleans in any mixture of cases |
| LexemeLaws.HexInAnyCase | 3rdparty/libconfig/scanner.c:1157-1163 | A hexadecimal number, whatever the case of its digits and its prefix, is its low 32 bits as a signed number |
| LexemeLaws.AnyDecimalScanned | 3rdparty/libconfig/scanner.c:1148-1152 | A decimal number of any size gives the low 32 bits of what saturates at 64 bits |
| LexemeLaws.AnyLongScanned | 3rdparty/libconfig/scanner.c:1153-1156 | A decimal number with an L suffix, of any size, saturates at 64 bits |
| LexemeLaws.UnknownEscapeKept | 3rdparty/libconfig/scanner.c:1037-1040 | A backslash before a character that it means nothing for stands for itself |
| LexemeLaws.HexEscapeScanned | 3rdparty/libconfig/scanner.c:1028-1034 | A hexadecimal escape gives the character with that number, and nothing if the number is 0 |
| LexemeLaws.IncludeScanned | 3rdparty/libconfig/scanner.c:1051-1096 | An include directive at the start of a line gives an error token and nothing else is lost |
| GrammarTables.ShiftFacts | 3rdparty/libconfig/grammar.c:584-649 | A shift goes to a state that the token leads into and that may lie on the current one; only the end of input leads to acceptance |
| GrammarFacts.ReduceBeforeFollow | 3rdparty/libconfig/grammar.c:569-578 | Where a rule can be reduced it is reduced before every token that can follow its left-hand side |
| GrammarFacts.RulesReadable | 3rdparty/libconfig/grammar.c:584-649 | A state that has a goto on a nonterminal can read each of its rules to the end and reduce it |
| GrammarFacts.FollowInRule | 3rdparty/libconfig/grammar.c:503-582 | The follow sets are closed under every rule |
| LrParser.ReductionsFit | 3rdparty/libconfig/grammar.c:1458-1476 | Whenever a reduction happens, the top of the stack spells the rule's right-hand side and the uncovered state has a goto for its left-hand side |
| LrParser.Step | 3rdparty/libconfig/grammar.c:1386-1476 | One round of the loop keeps both stacks of equal height on a path of the automaton and uses up the budget that bounds the number of steps |
| Derivations.TreeRuns | 3rdparty/libconfig/grammar.c:1386-1476 | From a state that expects its root, the parser reads any derivation tree and ends as evaluating the tree does |
| ParserTheorems.ParserIsComplete | 3rdparty/libconfig/grammar.c:1302-1810 | Parsing tokens that have a derivation gives what the derivation denotes |
| ParserTheorems.ParserIsSound | 3rdparty/libconfig/grammar.c:1302-1810 | Accepted tokens have a derivation, and the result is what it denotes |
| ParserTheorems.AcceptsIffDerivable | 3rdparty/libconfig/grammar.c:1302-1810 | Acceptance with a given result is the same as the existence of a derivation with that result |
| ParseTrees.DerivationIsUnique | 3rdparty/libconfig/grammar.c:503-582 | The grammar is unambiguous: two derivations of the same tokens are the same tree |
| ParseTrees.TablesFindDerivations | 3rdparty/libconfig/grammar.c:584-649 | Shifting and reducing by the tables alone builds a tree exactly if that tree is a derivation of the tokens, whatever the actions would do |
| ParserTheorems.SyntaxErrorMeansNoDerivation | 3rdparty/libconfig/grammar.c:1814-1900 | A syntax error is reported only for tokens without a derivation |
| ParserSafety.HeightIsLinearInNesting | 3rdparty/libconfig/grammar.c:1312-1374 | The stacks never exceed 6 entries per open bracket plus 7, so input of any length that nests at most 1665 deep is never turned down for memory |
| ParserContext.ParserNeverCrashes | 3rdparty/libconfig/grammar.c:1476-1810 | On every token sequence each action finds the pointer it uses: no null or stale setting, and after acceptance only the root is open |
| Meaning.EvalIsEffect | 3rdparty/libconfig/grammar.c:1476-1810 | Evaluating a derivation on the bounded stacks is evaluating it without bound, cut off at its height |
| StackNeeds.AcceptedIffLegal | 3rdparty/libconfig/grammar.c:1302-1810 | A derivation is accepted exactly when the settings it denotes are legal and its height fits; the tree built is then exactly the denoted one |
| StackNeeds.ItemsNeedIsMet | 3rdparty/libconfig/grammar.c:1312-1374 | No derivation of some settings is lower than the need computed from the settings |
| TreeEffects.ItemsEffect | 3rdparty/libconfig/grammar.c:1476-1810 | The actions of an item list extend the open aggregate by exactly the denoted items if these are legal, and fail otherwise |
| TreeEffects.ValueEffect | 3rdparty/libconfig/grammar.c:1498-1770 | The actions of a value store exactly the denoted value in the setting or element it belongs to |
| Spelling.TokensSpellSettings | 3rdparty/libconfig/grammar.c:1476-1810 | Parsing loses nothing, adds nothing and keeps the order: apart from separators and from how strings are cut into pieces, the tokens of every accepted input spell the settings that are read |
| Spelling.SameMeaning | 3rdparty/libconfig/grammar.c:1476-1810 | Two accepted inputs are read as the same settings exactly if their tokens are the same apart from separators and from how strings are cut into pieces |
| Spelling.ItemsAreSpelled | 3rdparty/libconfig/grammar.c:1476-1810 | The spelling tells the settings: it is different for different ones, whatever follows |
| ParseActions.ErrorsByRule | 3rdparty/libconfig/grammar.c:1476-1810 | Only a name is reported as a duplicate and only a value as a mismatch |
| ReadTrees.ScannedTokensGood | 3rdparty/libconfig/scanner.c:860-1230 | Every token the scanner makes carries a value in range |
| ReadTrees.ItemsGood | 3rdparty/libconfig/grammar.c:1476-1810 | Legal derivations over such tokens denote trees in scope for writing |
| CanonicalTrees.ItemsFit | 3rdparty/libconfig/grammar.c:503-582 | Every tree in scope has a derivation of exactly the needed height that yields its tokens and denotes it |
| HeapSpine.GrownMirror | 3rdparty/libconfig/grammar.c:1476-1810 | One more element of the innermost open setting on the heap, open itself or not, is one more child or frame of the spine of values |
| HeapSpine.ChangedMirror | 3rdparty/libconfig/grammar.c:1476-1810 | A value or an aggregate type given to the newest setting on the heap is that change of the spine |
| HeapSpine.ClosedMirror | 3rdparty/libconfig/grammar.c:1516-1524 | Going back to the parent finishes the innermost aggregate with all that is below it |
| ParserActions.ParseContext.RunAction | 3rdparty/libconfig/grammar.c:1476-1810 | The action switch on the heap, with its parent and setting pointers, does for every rule what the specification on values says, keeps the configuration valid, and fails exactly where that fails |
| ParserLoop.Stacks.Grow | 3rdparty/libconfig/grammar.c:1314-1374 | Both stacks move to longer arrays with their contents |
| ParserLoop.Stacks.Push | 3rdparty/libconfig/grammar.c:1304-1374 | Pushes one entry on both stacks, and says no exactly when that needs more than YYMAXDEPTH |
| ParserLoop.Reduce | 3rdparty/libconfig/grammar.c:1458-1810 | Runs the action, pops the right-hand side and pushes the left-hand side as the specification step does |
| ParserLoop.NoStateHandlesErrors | 3rdparty/libconfig/grammar.c:1905-1935 | No state of these tables shifts the error token |
| ParserLoop.Recover | 3rdparty/libconfig/grammar.c:1905-1935 | Error recovery therefore always empties the stack and gives up |
| ParserLoop.Round | 3rdparty/libconfig/grammar.c:1386-1810 | One round on arrays, lookahead and configuration ends or goes on as the specification step does |
| ParserLoop.Yyparse | 3rdparty/libconfig/grammar.c:1204-1960 | The loop on arrays, lookahead and configuration terminates with the result the specification gives for the tokens of the text |
| ParserLoop.ConfigRead | 3rdparty/libconfig/libconfig.c:553-616 | Scanner, parser and actions together: a text is accepted or refused as specified, and then the valid configuration on the heap holds exactly the settings that the text denotes |
| ElementLists.ElementList.Add | 3rdparty/libconfig/libconfig.c:398-409 | Appends, moving to a larger array exactly when the last chunk is full |
| ElementLists.ElementList.Remove | 3rdparty/libconfig/libconfig.c:442-457 | Takes one element out and keeps the order of the rest |
| SettingHeap.NameCompare | 3rdparty/libconfig/libconfig.c:130-152 | 0 exactly if the two names agree up to their first path separator |
| SettingHeap.ListSearch | 3rdparty/libconfig/libconfig.c:413-438 | The first member the name denotes, or none if there is none |
| SettingHeap.Config.Create | 3rdparty/libconfig/libconfig.c:755-782 | A new last child with parent link; keeps the whole tree valid and every other setting unchanged; fails only under a scalar |
| SettingHeap.Config.AddMember | 3rdparty/libconfig/libconfig.c:1524-1546 | Refuses exactly invalid and taken names, otherwise adds the member |
| SettingHeap.Config.Add | 3rdparty/libconfig/libconfig.c:1524-1546 | Adds to groups by name and to other aggregates without; refuses exactly scalars, invalid names and taken names |
| SettingHeap.Config.Remove | 3rdparty/libconfig/libconfig.c:1550-1569 | Removes the named member and all below it, and nothing else |
| SettingHeap.Config.RemoveElem | 3rdparty/libconfig/libconfig.c:1572-1595 | Removes the element at an index and all below it, and nothing else |
| SettingHeap.Config.SetScalar | 3rdparty/libconfig/libconfig.c:977-1116 | Stores a scalar if the setting has that type, none, or one it can be converted to, automatic conversion included; otherwise changes nothing |
| SettingHeap.WhatIsStored | 3rdparty/libconfig/libconfig.c:977-1116 | The type of a setting never changes, values of that type are kept with the setting's format, a 64-bit integer goes into a 32-bit setting as 0 if it does not fit, and other numbers are taken exactly with automatic conversion |
| SettingHeap.Config.SetFormat | 3rdparty/libconfig/libconfig.c:1120-1136 | Sets the output format of integers only |
| SettingHeap.Config.AppendElem | 3rdparty/libconfig/libconfig.c:1259-1454 | A negative index appends an element to an array of the right type or a list |
| SettingHeap.Config.ReplaceElem | 3rdparty/libconfig/libconfig.c:1259-1454 | Another index changes the element there and no other |
| SettingHeap.Config.Index | 3rdparty/libconfig/libconfig.c:1598-1616 | The position of a setting in its parent; -1 for the root alone |
| SettingHeap.Config.IndexInvertsElem | 3rdparty/libconfig/libconfig.c:1458-1472 | In every valid tree the index found is the only one at which the parent holds the setting |
| SettingHeap.Config.NamesAreUnique | 3rdparty/libconfig/libconfig.c:1524-1546 | In every valid tree the names in a group differ, also when cut at a separator |
| SettingHeap.Config.SetType | 3rdparty/libconfig/grammar.c:1507-1512 | A setting without a value becomes an empty aggregate and the tree stays valid |
| SettingPaths.LookupFrom | 3rdparty/libconfig/libconfig.c:1142-1171 | The path loop terminates and finds what the recursive specification finds, which PathLaws characterises by routes |
| PathLaws.LookupIff | 3rdparty/libconfig/libconfig.c:1142-1171 | A path leads nowhere exactly if no route is named by its segments one by one, an opening bracket at the very end of the path apart |
| PathLaws.LookupFollows | 3rdparty/libconfig/libconfig.c:1142-1171 | A path whose segments name a route leads to the end of the route |
| PathLaws.FoundAlongRoute | 3rdparty/libconfig/libconfig.c:1142-1171 | A path that leads somewhere leads along a route that its segments name |
| PathLaws.MissingNameIsNull | 3rdparty/libconfig/libconfig.c:1163-1170 | A path along any route, then a name that no member there has, then anything, leads nowhere |
| PathLaws.MissingElement | 3rdparty/libconfig/libconfig.c:1150-1161 | So does the closed index of an element that is not there |
| PathLaws.AtoiReads | 3rdparty/libconfig/libconfig.c:1150-1161 | An index is the number written behind white space and in front of anything but a digit |
| SettingPaths.LookupFindsPath | 3rdparty/libconfig/libconfig.c:1142-1171 | The path built from a route of positions leads to the setting at the end of the route, with any separator |
| SettingPaths.RouteTo | 3rdparty/libconfig/libconfig.c:1598-1616 | Every setting of a valid tree has a route from the root |
| SettingPaths.EverySettingIsFound | 3rdparty/libconfig/libconfig.c:1142-1171 | Hence the path of any setting looks up that very setting, if no aggregate has more than 2^31 elements |
| SettingTrees.TreeBelow | 3rdparty/libconfig/libconfig.c:755-782 | Every setting of a valid configuration has a tree of values below it, in which members of groups have valid names that differ and other elements none |
| SettingCopy.CopySimple | src/common/conf.cpp:28-53 | Copies a member or element with its format, unless its name is taken; crashes exactly if an aggregate in it does |
| SettingCopy.CopyElem | src/common/conf.cpp:55-74 | Copies an element into an array or list: left out if it has no type or not that of the array's first element, a crash through a null pointer if such an element is an integer |
| SettingCopy.CopyAggregate | src/common/conf.cpp:76-95 | Copies an aggregate with all its children, disjoint from the source; crashes exactly if one of these does |
| SettingCopy.CopySetting | src/common/conf.cpp:97-108 | From any setting of a valid configuration: appends the deep copy as newly made settings and leaves source and target otherwise as they were; a name clash changes nothing, and 1 is returned even then; crashes exactly as the value of the source says |
| CopyValues.CopyEqualsSource | src/common/conf.cpp:55-95 | The copy has the source's value exactly if no element of an array or list has a name or lacks a type and the scalars of each array have the type of its first element; then no null pointer is met |
| CopyValues.ArrayCopyIs | src/common/conf.cpp:55-74 | Of an array of scalars exactly those are copied, in order, that have the type of the first with a type |
| CopyValues.MixedArrays | src/common/conf.cpp:55-74 | An array of two scalars of different types: the copy holds the first alone, and copying crashes exactly if the second is an integer |
| CopiesOfReadTrees.ReadTreesCopyEqual | src/common/conf.cpp:97-108 | Trees obtained by reading text are always copied, without a null pointer, to equal values |
| CharSafety.StepSafe | src/char/char.cpp:77-231 | Every handler keeps: timers match the table one to one, entries without a server hold no timer, no entry names a slot that is not connected, tickets match the record of issues |
| CharSafety.RunIsSafe | src/char/char.cpp:77-231 | The invariant holds after every sequence of events |
| CharSafety.TimersInRuns | src/char/char_mapif.cpp:355-382 | In every run the live timers are exactly the timers in the table, one account each, and entries with server -1 have none |
| CharSafety.SlotsInRuns | src/char/char_mapif.cpp:1491-1521 | In every run each entry that names a map-server slot names a connected one, and kicks go to connected servers |
| CharSafety.UsesLatestTicket | src/char/char_mapif.cpp:982-1068 | Every grant and every return from a map server uses the account's latest ticket, issued before with nothing between, and the login ids agree |
| CharSafety.TicketsAreOneShot | src/char/char_clif.cpp:742-768 | No ticket is used twice in any run |
| CharSafety.NoUseAfterKick | src/char/char_logif.cpp:549-583 | After a kick nothing is granted to the account until a new ticket is issued |
| CharJourneys.SelectedPlayerEnters | src/char/char_clif.cpp:931-941 | Who has selected a character enters the map with it from any connected map-server, whatever happens meanwhile that leaves the ticket alone: the grant is logged, the entry names that server and character, and the ticket is gone |
| CharJourneys.ChangedPlayerEnters | src/char/char_mapif.cpp:594-655 | Who changes to another map-server enters there with that character, whatever happens meanwhile that leaves the ticket alone |
| CharJourneys.ReturningPlayerIsLetIn | src/char/char_mapif.cpp:451-492 | Who goes back to character selection is let in there by the ticket, unless a map-server has the player by then or another client holds the account |
| CharJourneys.NobodyElseEnters | src/char/char_mapif.cpp:982-1068 | In every run a request for a player without a matching ticket that is still open changes nothing, unless it is an autotrader |
| CharJourneys.ClientsAreEarned | src/char/char_clif.cpp:701-768 | In every run, who is let in to character selection was accepted by the login-server under that account and those ids, or used up a ticket for them |
| CharJourneys.SecondLoginGetsIn | src/char/char.cpp:1958-1988 | A second login has the player's map-server asked to let go and a timer running, and gets in once the timer has fired |
| CharJourneys.KickedCannotEnter | src/char/char_logif.cpp:549-583 | After a kick neither a map-server nor character selection lets the account in by its old ticket |
| CharJourneys.LostPlayersAreForgotten | src/char/char.cpp:2179-2195 | The players of a lost map-server are forgotten at the next cleanup unless they have a client here, and nobody else is |
| CharEffects.AcceptedLogin | src/char/char.cpp:1958-1988 | What comes of the login-server's positive answer: the client is let in, or the player's map-server is asked to let go, or another client is in the way and nothing changes |
| CharEffects.Selected | src/char/char_clif.cpp:804-941 | What each outcome of selecting a character does to the entry, and that only the last one issues a ticket, for that character and the session's ids |
| CharEffects.ClientLeaves | src/char/char_clif.cpp:1355-1375 | A client that leaves takes nothing along but its connection: setting its player offline changes nothing in the table |
| CharEffects.PlayerOnline | src/char/char.cpp:109-145 | The entry names the server and character, its timer is gone, and another server that had a character of the account is asked to let go |
| CharEffects.PlayerOffline | src/char/char.cpp:147-195 | The timer is gone, and the player is nowhere if that was the character online |
| CharEffects.Saved | src/char/char_mapif.cpp:391-430 | A final save is as setting the character offline; another one of a character that is not known to be online is as setting it online |
| CharEffects.TimeIsUp | src/char/char.cpp:2166-2177 | When its timer fires an entry is that of a player who is nowhere, and nothing else changes |
| CharEffects.AccountKicked | src/char/char_logif.cpp:549-583 | The ticket is gone; a map-server that has the player is asked to let go once, and a player who is nowhere and has no client is offline |
| CharEffects.FirstFreeSlot | src/char/char_clif.cpp:665-695 | An accepted map-server gets the first slot that is free, a refused one none |
| CharEffects.ServerLost | src/char/char_mapif.cpp:1491-1521 | The players of a lost map-server are on an unknown one and all others where they were |
| CharEffects.Cleaned | src/char/char.cpp:2179-2195 | The cleanup forgets exactly the players who are neither here nor on a map-server, with their timers |
| CharEffects.ServerEmptied | src/char/char.cpp:215-244 | Exactly the players of the map-server are to be disconnected by it |
| CharEffects.EverybodyOffline | src/char/char.cpp:215-244 | Who is on a map-server is to be disconnected by it, who waits for a timer stays, everybody else is nowhere |
| CharEffects.PlayersReported | src/char/char_mapif.cpp:355-382 | A map-server has exactly the players that it reports, with the character reported last, and exactly the other map-servers that had one of them are asked to let go |
| CharHandlers.CharServer.SetToCharselect | src/char/char.cpp:88-107 | The entry goes to character selection, as the specification step says |
| CharHandlers.CharServer.SetCharOnline | src/char/char.cpp:109-145 | The entry names the map server; a second server's player is kicked |
| CharHandlers.CharServer.SetCharOffline | src/char/char.cpp:147-195 | The entry is cleared and its timer deleted |
| CharHandlers.CharServer.DetachPlayers | src/char/char.cpp:197-213 | Entries on the map server are now on an unknown one, all others stay as they are |
| CharHandlers.CharServer.KickAllFrom | src/char/char.cpp:215-244 | Each player of the server, and nobody else, is asked to be disconnected |
| CharHandlers.CharServer.SetAllPlayersOffline | src/char/char.cpp:215-244 | Everybody on a map server is asked to be disconnected; of the others those without a disconnect timer are set offline |
| CharHandlers.CharServer.AuthenticateClient | src/char/char.cpp:1958-1988 | A player still on a map server is kicked and given a timer once; others enter character selection |
| CharHandlers.CharServer.TimerExpired | src/char/char.cpp:2166-2177 | Only the timer that the entry holds sets its player offline |
| CharHandlers.CharServer.CleanUp | src/char/char.cpp:2179-2195 | Removes exactly the stale entries; none of them holds a live timer |
| CharHandlers.CharServer.RequestConnect | src/char/char_clif.cpp:701-768 | A matching ticket is taken and the session authenticated, otherwise the login server is asked |
| CharHandlers.CharServer.AcceptLogin | src/char/char_logif.cpp:298-330 | An accepted answer authenticates the session it was asked for |
| CharHandlers.CharServer.SelectChar | src/char/char_clif.cpp:804-941 | A new ticket is issued for the account, the character selected and the session's ids, as the step does that CharJourneys.SelectedPlayerEnters is proved about |
| CharHandlers.CharServer.ClientClosed | src/char/char_clif.cpp:1355-1375 | A client that leaves from character selection goes offline |
| CharHandlers.CharServer.KickAccount | src/char/char_logif.cpp:549-583 | A kicked account loses its ticket, and its player is disconnected with one timer |
| CharHandlers.CharServer.MapServerLogin | src/char/char_clif.cpp:665-695 | An accepted map server takes the first free slot, if there is one |
| CharHandlers.CharServer.MapServerClosed | src/char/char_mapif.cpp:1491-1521 | The slot is freed and no entry names it any more |
| CharHandlers.CharServer.RegisterUsers | src/char/char_mapif.cpp:355-382 | The reported players are on this server, others who were are detached, and players also reported elsewhere are kicked there |
| CharHandlers.CharServer.SaveCharacter | src/char/char_mapif.cpp:391-430 | A final save sets the character offline |
| CharHandlers.CharServer.BackToCharSelect | src/char/char_mapif.cpp:451-492 | The ticket that character selection needs is issued |
| CharHandlers.CharServer.ChangeMapServer | src/char/char_mapif.cpp:594-655 | A change between map servers issues the ticket for the other server and moves the entry there |
| CharHandlers.CharServer.RequestAuth | src/char/char_mapif.cpp:982-1068 | Grants, while the server runs and the character's data is there, exactly autotraders and holders of the latest matching ticket |
| PartyAggregates.Party.CheckLevels | src/char/int_party.cpp:40-63 | Recomputes the range; even share is switched off when it is no longer allowed |
| PartyAggregates.Party.CalcState | src/char/int_party.cpp:65-111 | The counters and the range equal a recomputation over the members whatever they were before |
| PartyAggregates.Party.CheckExpShare | src/char/int_party.cpp:343-346 | Even share is allowed for fewer than two online, a narrow range or a family |
| PartyAggregates.ShareRule | src/char/int_party.cpp:343-346 | Where the aggregates are right, even share is allowed exactly if no two members online are further apart than the limit, or for a family |
| PartyAggregates.FamilyOfThree | src/char/int_party.cpp:307-340 | Two parents and their child are a family exactly if both parents are online, on the child's map and at level 70 at least |
| PartyAggregates.Party.AddMember | src/char/int_party.cpp:569-605 | Takes the first free place; all four aggregates stay equal to their recomputation |
| PartyAggregates.Party.ChangeOption | src/char/int_party.cpp:607-627 | Even share is on exactly if asked for and allowed |
| PartyAggregates.Party.Leave | src/char/int_party.cpp:629-679 | Removes the member, or everybody with the leader; the aggregates stay equal to their recomputation |
| PartyAggregates.Party.ChangeMap | src/char/int_party.cpp:681-736 | After a report the aggregates equal their recomputation exactly if the member changed place or state, or the stored range follows the level; they always do when levels rise by at most one |
| PartyAggregates.LevelJumpIsMissed | src/char/int_party.cpp:681-736 | A party that its handlers make, at levels a < b < c, whose second member jumps to d > c: the stored range is no longer that of the members |
| PartyAggregates.Party.ChangeLeader | src/char/int_party.cpp:758-785 | Moves the leader mark and keeps the aggregates |
| PartyAggregates.ChangeShareLevel | src/char/int_party.cpp:788-802 | All parties meet the new limit afterwards, whatever the family query answers for each of them |
| FameRanking.FameList.Move | src/char/char_mapif.cpp:1093-1145 | Moves an entry in place, shifting those between by one |
| FameRanking.FameList.Update | src/char/char_mapif.cpp:1093-1145 | The handler on the array equals the specification on the list |
| FameRanking.UpdateKeepsRanking | src/char/char_mapif.cpp:1093-1145 | An update that lowers no fame keeps the list sorted, ids unique, fames latest, and nobody outside above anybody inside |
| FameRanking.RankingStaysRight | src/char/char.cpp:1990-2046 | After any number of updates that lower no fame the list is sorted, ids are unique, fames are the latest, and nobody outside is above anybody inside |
| FameRanking.RankedAreMostFamous | src/char/char_mapif.cpp:1093-1145 | Whoever has more fame than the last entry is listed with it |
| FameRanking.UpdateSortedIff | src/char/char_mapif.cpp:1093-1145 | For any update, lowering ones too: the list stays sorted exactly unless the player moves down to a place whose holder has less fame |
| Whispers.WisServer.CheckTtl | src/char/inter.cpp:1071-1101 | The batched loop terminates and removes exactly the timed-out entries |
| Whispers.WisServer.ForwardWhisper | src/char/inter.cpp:1142-1209 | Stores the request with the number of servers asked |
| Whispers.WisServer.TakeReply | src/char/inter.cpp:1212-1230 | Counts down; answers on a find or when the last server replied, and then whoever asked, as WhisperRuns proves of all runs |
| Whispers.RunIsSafe | src/char/inter.cpp:1024-1041 | After any events each waiting request has had one reply fewer than its count says, all of them not found |
| Whispers.AnsweredOnce | src/char/inter.cpp:1212-1230 | No request is answered twice in any run |
| Whispers.NotFoundMeansNowhere | src/char/inter.cpp:1212-1230 | Not found is answered only after as many replies as servers were asked, all not found |
| WhisperRuns.AnswerGoesBack | src/char/inter.cpp:1212-1230 | In every run each answer goes to the connection and the player that sent the request with that number |
| WhisperRuns.StillWaiting | src/char/inter.cpp:1071-1101 | In every run a forwarded request stays until it is answered or more than a minute older than a later one |
| WhisperRuns.ReplyIsPassedOn | src/char/inter.cpp:1212-1230 | A reply to such a request is passed on to whoever asked if it says anything but not found or is the last to come, and the request is gone |
| WhisperRuns.OthersAreAwaited | src/char/inter.cpp:1212-1230 | A reply that says not found before the last one is not passed on, and the request stays |
| WhisperRuns.LateReplyIgnored | src/char/inter.cpp:1212-1218 | A reply to a request that has been answered, has timed out or never was changes nothing |
| WhisperRuns.RefusalIsAnswered | src/char/inter.cpp:1160-1190 | Who whispers to nobody or to themselves is told so at once, and nothing waits |
| RegistryPackets.LoginLink.Add | src/char/char_logif.cpp:181-231 | Adds an entry behind the others and sends the packet once it is long |
| RegistryPackets.LoginLink.Prepare | src/char/char_logif.cpp:164-173 | Writes the header of an empty packet |
| RegistryPackets.PacketRead | src/char/inter.cpp:1245-1299 | A packet's length and count are right and it reads back as its entries |
| RegistryPackets.HeaderRead | src/char/char_logif.cpp:164-173 | The account and character fields of a packet read back as the account and the character |
| RegistryPackets.EntryRead | src/char/inter.cpp:1262-1290 | Every kind of entry is read back whatever follows it |
| RegistryPackets.EntryLayout | src/char/char_logif.cpp:190-222 | Where everything stands in an entry: length, key, NUL, index with its least significant byte first, and what tells the kinds of values apart |
| RegistryPackets.ConcatRead | src/char/inter.cpp:1258-1292 | Pieces that tell where they end are read back one after the other by any such reader |
| RegistryPackets.ParseEntries | src/char/inter.cpp:1258-1292 | The cursor loop finds what the recursive reader finds, malformed bytes included |
| RegistryPackets.ParseRegistry | src/char/inter.cpp:1245-1299 | Reading a packet by its header count finds the entries the recursive reader finds; short packets hold none |
| RegistryPackets.SendAll | src/char/char_logif.cpp:164-231 | All packets together read back as the original entries in order; each is well formed, says whose it is, and is not over 60300 bytes |
| GuildLevels.LevelUpConserves | src/char/int_guild.cpp:862-872 | Levelling terminates, conserves total experience, gives a point per level, and goes at most one level beyond the highest |
| GuildLevels.LevelUpIsTheOnly | src/char/int_guild.cpp:862-872 | No other outcome conserves the experience and is settled |
| GuildLevels.SplitsDoNotMatter | src/char/int_guild.cpp:1555-1575 | Feeding experience in any portions gives the same as in one |
| GuildLevels.LevelBeyondMax | src/char/int_guild.cpp:838-846 | A guild at the highest level with the last threshold's experience goes to one level more |
| GuildLevels.WithinMaxIff | src/char/int_guild.cpp:838-872 | The level stays within the highest exactly if a threshold on the way is zero or the experience is below all of them together |
| GuildLevels.LevelIsLeft | src/char/int_guild.cpp:838-872 | A guild leaves a level exactly if it has the experience that the table gives for it, and no level that is not in the table |
| GuildLevels.PlaceCounts | src/char/int_guild.cpp:889-910 | What each place contributes to the counts of members and levels: nothing unless it has an account and, for levels, a level that is not negative |
| GuildLevels.Guild.RaiseLevels | src/char/int_guild.cpp:854-873 | The loop equals the specification from level 1 at least, and points plus skills stay at least level minus one |
| GuildLevels.Guild.CalcInfo | src/char/int_guild.cpp:854-916 | Levels as the loop gives them; places from the extension skill, members online and average level are those of a recomputation; tells exactly whether places, level or points have changed |
| GuildLevels.Guild.GainExp | src/char/int_guild.cpp:1555-1575 | Adds experience, or gives 0x7FFFFFFF when the 64-bit sum overflows, then levels |
| GuildLevels.Guild.SkillUp | src/char/int_guild.cpp:1679-1700 | Spends one point on one skill exactly if there is one and the skill has an id and is not full |
| GuildLevels.Guild.ChangeLevel | src/char/int_guild.cpp:1477-1500 | Raises with points and lowers without, inside 1 to the highest level |
| ItemStorage.ItemTable.Unchanged | src/char/char.cpp:597-660 | The comparison that saves a statement is true exactly if the UPDATE would change no column of the row |
| ItemStorage.ItemTable.SyncRow | src/char/char.cpp:597-690 | A stored row is kept, updated or deleted by its first unmatched equal item |
| ItemStorage.ItemTable.InsertRest | src/char/char.cpp:690-720 | The unmatched items get new rows |
| ItemStorage.ItemTable.Save | src/char/char.cpp:509-723 | Each item that is not empty has its own row: in the inventory the item itself, elsewhere the item with favorite and equipSwitch 0; surviving rows keep their item identity, other owners' rows are untouched |
| ItemStorage.SavedItems | src/char/char.cpp:509-723 | Whatever the initial rows and their order, the stored items are those submitted that are not empty, as a multiset |
| ItemStorage.SaveAndLoad | src/char/char.cpp:725-837 | Loading after saving returns that multiset: of each item of the inventory that is not empty as many as were submitted, field by field |
| ItemStorage.OverwrittenIsStored | src/char/char.cpp:637-650 | Writing an item's columns over a row of the same item gives the row that a new one would get |
| ItemStorage.InventorySurvives | src/char/char.cpp:725-837 | Of a saved and loaded inventory there are as many of each item as were submitted |
| QuestLog.SaveQuest | src/char/int_quest.cpp:149-163 | One submitted quest is stored and, if it was there before, compacted out of the list of old quests |
| QuestLog.SaveQuests | src/char/int_quest.cpp:138-168 | The table holds exactly the submitted quests, known ones with their stored time, and every statement changes something |
| QuestLog.SavedIsUnique | src/char/int_quest.cpp:138-168 | Only one table content meets that description |
| SlabCache.BlockHoldsItsEntries | src/common/ers.cpp:280-290 | A new block holds the entries counted for it exactly if the chunk size is at least 1 and the block's size fits 32 bits |
| SlabCache.EntriesDoNotOverlap | src/common/ers.cpp:194-208 | Different entries of a block take disjoint bytes |
| SlabCache.Cache.Take | src/common/ers.cpp:181-214 | Hands out an entry that is not in use: the one freed last, else the next of the last block, else the last of a new block; the counters keep adding up for every chunk size, 0 included |
| SlabCache.Cache.Give | src/common/ers.cpp:216-236 | The entry moves from use to the head of the reuse list |
| SlabAllocator.Allocator.LinkCache | src/common/ers.cpp:147-156 | A cache goes to the head of a well-formed doubly linked list |
| SlabAllocator.Allocator.UnlinkCache | src/common/ers.cpp:161-179 | A cache leaves the list, which stays well formed and in order |
| SlabAllocator.Allocator.FindCache | src/common/ers.cpp:127-159 | The one cache with this size and these options, new if there was none |
| SlabAllocator.EntryHoldsObject | src/common/ers.cpp:293-300 | An entry has room for header and object exactly if their 32-bit sum does not wrap around |
| SlabAllocator.Allocator.New | src/common/ers.cpp:293-330 | One instance more, counted on its cache, with the 32-bit entry size; lists, keys and holdings stay right |
| SlabAllocator.Allocator.AllocEntry | src/common/ers.cpp:181-214 | The entry was held by no instance and is now held by this one; the cache's blocks are as large as their entries exactly if they were and the chunk size of a new block fits |
| SlabAllocator.Allocator.FreeEntry | src/common/ers.cpp:216-236 | The entry is no longer held and is the next to be reused |
| SlabAllocator.Allocator.Destroy | src/common/ers.cpp:250-278 | The instance leaves its list, and its cache leaves with the last instance; reference counts stay the numbers of instances |
| SlabAllocator.Allocator.SetChunkSize | src/common/ers.cpp:280-290 | Changes only the size of later blocks |
| SlabAllocator.Allocator.HeldEntriesAreApart | src/common/ers.cpp:181-214 | Two entries held at the same time share no byte, and lie inside their blocks if these are as large as their entries |
| DesBlock.TablesAreInverse | src/common/des.cpp:23-34 | The final permutation's table inverts the initial one's, position by position (FIPS PUB 46-3, Enciphering) |
| DesBlock.PermutationsAreInverse | src/common/des.cpp:19-71 | The two permutations undo each other on every block, in either order |
| DesBlock.InitialPermutation | src/common/des.cpp:19-43 | The bit loop on bytes computes the initial permutation of its table |
| DesBlock.FinalPermutation | src/common/des.cpp:47-71 | The bit loop on bytes computes the final permutation of its table |
| DesBlock.ShiftsComputeTheTable | src/common/des.cpp:76-114 | Each group of the shifted expansion, moved up two bits, is the tabled group of the disabled branch |
| DesBlock.ShiftExpansion | src/common/des.cpp:101-111 | Every substitution index is below 64 |
| DesBlock.Substitute | src/common/des.cpp:147-183 | The loop over the four packed tables reads only existing entries |
| DesBoxes.BoxesAreStandard | src/common/des.cpp:147-183 | The eight groups of six bits go through the boxes S1 to S8 of FIPS PUB 46-3, appendix 1, by row and column, and the results are joined in pairs, the first of a pair in the high nibble |
| DesBoxes.RoundFlipsBits | src/common/des.cpp:186-199 | A round flips exactly those bits of the left half for which the permutation P picks a bit that the boxes set |
| DesTables.InitialByColumns | src/common/des.cpp:23-34 | The initial permutation takes the columns from the bottom up, the even ones first |
| DesTables.ExpansionByGroups | src/common/des.cpp:83-92 | Each group of the expansion takes four bits with their neighbours on both sides |
| DesBlock.Transpose | src/common/des.cpp:118-142 | The bit loop computes the tabled permutation P into the right half |
| DesBlock.ValueDependsOnRightHalf | src/common/des.cpp:186-199 | The cipher function sees the right half only |
| DesBlock.RoundUndoesItself | src/common/des.cpp:186-199 | A round leaves the right half alone and a second round undoes it |
| DesBlock.RoundFunction | src/common/des.cpp:186-199 | The code on two blocks computes the round |
| DesBlock.TransformUndoesItself | src/common/des.cpp:202-207 | Decrypting any block twice gives the block back |
| DesBlock.DecryptBlock | src/common/des.cpp:202-207 | The code on eight bytes computes the transform |

## Left out

- Which doubles ten digits are enough for: `atof` and `%.10g` are any functions of the C library, so the results name the doubles that they keep.
- `@include` gives an error token, as reading files is not part of this model; so are locale overrides.
- Comments are scanned; a line comment that the end of the input cuts short is not matched as a comment, as in the rules.
- Characters are Dafny characters, bytes in the source; names and escapes concern ASCII only.
- Hooks, destructors and source line numbers of settings. The casts of automatic conversion are parameters.
- Error messages of scanner and parser, and the flex buffer and table machinery: the rules are matched directly.
- SettingHeap.Config.Create: a setting holds its elements as a sequence with a capacity; the array that grows in chunks is proved to behave like that sequence as ElementLists.ElementList and not put into the setting, so that two settings cannot share an array is not stated. Freed memory stays allocated but unreachable.
- SettingHeap.Config.CapacitySuffices: about that capacity, not about an allocated array.
- SettingHeap.Config.Add: a member of a group is added with a name; with a null name the search reads through the null pointer unless no member has a name.
- SettingCopy.CopySetting: the new parent does not lie inside the source, where copying does not end, and a nameless source is not copied into a group.
- ParserLoop.ConfigRead: include files are not read, see above.
- SettingPaths.EverySettingIsFound: for aggregates of at most 2^31 elements, because indexes are read by `atoi`.
- Sockets, SQL text and SQL errors: tables are maps, packets sent are logs; pins, map data and character data in the handlers.
- CharSafety.RunIsSafe: clients and servers may send any events; pincode and version checks before the modelled steps are arbitrary inputs. The per-server counter of users is left out.
- CharHandlers.CharServer.RequestAuth: the comparison of sexes that only clients before 2014-10-16 are compiled with.
- CharHandlers.CharServer.DetachPlayers: the branch for all map servers, which no caller reaches.
- Whispers.RunIsSafe: request numbers do not wrap around.
- PartyAggregates.Party.ChangeMap: the family query is an arbitrary value. Levels are positive. The two handlers without a caller are left out.
- FameRanking.UpdateKeepsRanking: for updates that do not lower a fame; for those that do only the order of the list is characterised.
- ItemStorage.ItemTable.Save: one statement per row; the new rows are inserted one by one, not in one statement.
- QuestLog.SaveQuests: one character's rows; the ids submitted are distinct.
- SlabAllocator.Allocator.New: entries are aligned to one byte, the default; counters of entries do not wrap. The contents of entries, the clean option's zeroing and the report are left out.
- The multi-block loop `des_decrypt`, which decrypts its first block over and over.
- Guild alliances, emblems, pets, elementals, clans, map index tables, YAML databases, consoles and tools: independent of the properties above or easy.
