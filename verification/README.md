# The signature generator, proved

The examiner lets an analyst build a malware signature from a *draft*: markers (byte strings with
a range to look in), matchers (all / any / at least N of some markers, a marker at a place, or
similarity to blocks), and a forest of conditions written over matcher numbers. `generate` compiles
the draft into the body of a C function `kof_scan`; `draft_from_source` reads such a body back.
This project models that compiler, the reader, and every editor operation that renumbers what the
draft refers to, and proves what they promise. Four smaller engines of the same program - the
marker locator, the clipped screen writer, the base64 payload decoder and the command-line quoter -
are modelled and proved beside them.

`dafny verify dfyconfig.toml` verifies the whole project (Dafny 4.11).

## How the model is laid out

The draft is a class whose fields are the arrays of `struct kof_draft`, each held as its live prefix
(`DraftModel.Draft`); the methods read and change it with the loops of the C. Every such method is
proved against a function of the draft's value (`DraftModel.Model`), and the theorems are about those
functions, so they hold of the methods.

| part | modules |
|---|---|
| the source language: condition text, its lexer and grammar, its meaning | ExprSource, Matchers, Conditions |
| the target language: C tokens, a parser with C11's precedence (sections 6.5.3.3, 6.5.8, 6.5.13, 6.5.14), an evaluator | TargetC |
| what is written, what it reads as, what it does | ExprTokens, ExprMeaning, BranchTokens, BranchMeaning, Order, Visits, Generate, Verdicts |
| the emission loops themselves | Queries, Emitter |
| what is refused, and what an accepted draft guarantees | Refusals, Closed |
| the panel's id row | IdList, IdRoom, IdEdits |
| removing and adding matchers, conditions and ranges | Removal, DraftEdits, RangeEdits |
| the change stamp and the block order | Stamp |
| the characters of a body, and the lines a buffer of 1024 makes of them | Lines, CallText |
| reading a body back | Reader, ReaderLoop, Rebuild, ReadMeaning, RoundTrip, Reopen, Reopened |
| concrete drafts at which a promise fails | Samples, Widths, CutLines, LongLine, Failures |
| places, locator, screen, payloads, command lines | PlaceText, Locator, Clip, Base64, CommandLine |

An object is what it answers: which strings each range holds, which place holds which string, how
similar it is to each block, and its size. All theorems quantify over every object.

## Main results

* **Compilation preserves meaning** (`Generate.CompilationPreservesMeaning`). For every forest whose
  top-level runs begin with their strongest member, the written tokens parse as C and executing them
  on any object concludes what the forest means, its branches tried strongest first. The loops that
  write those tokens are `Emitter.GenerateBody` and what it calls.
* **Generate, then open** (`Reopened.GenerateThenOpen`). Reading the written body back - cut into the
  lines a buffer of 1024 gives, every call taken apart by its characters - gives a draft that says of
  every object what the first one said, when no line is longer than the buffer and no branch
  concludes stronger than one written before it. The draft that comes back tries its branches in the
  written order if and only if the latter holds (`Reopened.SameOrderIff`).
* **Sharing is sound** (`Matchers.SharingSound`), **accepted drafts are closed**
  (`Closed.BodyNamesDeclared`, `Closed.StringsAsked`), **edits keep what they do not name**
  (`Removal.*`, `DraftEdits.RemovingUnusedKeepsMeaning`, `RangeEdits.DeletedIsGone`), **the stamp
  ignores block order** (`Stamp.OrderUnseen`), **the id row is exact in its 64 bytes** (`IdRoom.*`).
* **Locator, screen, places, base64, quoting**: `Locator.FileAnswer`, `Clip.PutShows`,
  `PlaceText.PlaceRoundTrip`, `Base64.DecodesEncoding`, `CommandLine.SplitUndoesQuoting`.

## Where the code does not do what it says

Each is kept as the code has it, with the exact condition proved.

* A top-level run whose head is weaker than a later member writes that member twice
  (kofexamine/kofeditor.c:6401-6412, against the comment at 6391-6393). Every condition is written
  exactly once if and only if no run does so (`Visits.WrittenOnceIff`); for a weak-headed pair the
  body misreports on exactly the objects where the second test holds without the first
  (`Verdicts.WeakPairMisreports`).
* The same for any run with a member stronger than its head: the body concludes what the run
  concludes where the head does not hold (`Verdicts.WeakRunMisreports`; `Failures.WeakHeadMisreports`
  is such a draft and object).
* A run that concludes weaker than it begins comes back from the reader as one condition with the
  weaker level, and a later branch may then be tried first: for any two branches that both conclude,
  the draft says what the earlier one does and the draft that comes back what the later one does, if
  that one ends stronger and no third comes first (`Reopened.OrderLost`; `Failures.WeakEndComesBack` is
  such a draft and object).
* The emitter never wraps a line, and the reader's buffer holds 1023 characters
  (kofexamine/kofeditor.c:4582, 4658). A longer `if` is read as two lines: a call the cut falls in loses
  markers and its number (`CutLines.FirstPiece`), and the verdict changes. `LongLine.LongComesBack` is a
  draft that the generator accepts, with everything else as the reader wants it, an if line of 1032
  characters, and an object on which the two drafts differ.
* Ids wrap at 32 bits in the emitter and saturate at the width of `unsigned long` in the panel
  (kofexamine/kofeditor.c:583, 4056). The two name the same matchers if and only if no id is one that
  wraps onto a matcher (`IdList.PanelInEmitter`, with a concrete id in `IdList.WrappedId`).
* A find_at matcher still has a range declared; a declared range is used by a call if and only if a
  matcher that is not at a place searches it (`Closed.RangeNamedIff`).
* Retargeting a range to no bits at all is not reached: the matcher falls back to its markers' own
  regions (`RangeEdits.EmptyTargetMissed`, an if and only if).
* Where a find_at matcher looks is not in the change stamp (`Stamp.PlaceUnseen`).
* The place reader negates the most negative offset after a named anchor, which overflows; every
  other place is read back (`PlaceText.PlaceRoundTrip`, an if and only if).
* The screen writer asks whether the row is inside the rectangle once, when a text begins
  (kofexamine/kofview.c:251-347). Clipping is cell by cell if and only if no newline in the text changes
  the answer for a cell that follows it (`Clip.ClippedIff`, with `Clip.NewlineShows`).
* The base64 decoder's comment allows a NUL at the end; the code stops at the first NUL wherever it
  stands and ignores what follows (`Base64.NulEnds`).

## Model

| member | source | states |
|---|---|---|
| Matchers.SameSetEquivalence | kofexamine/kofeditor.c:2132-2170 | asking the same question is reflexive, symmetric and transitive |
| Matchers.LeadCanonical | kofexamine/kofeditor.c:1598-1606 | two matchers ask the same question exactly when they have the same lead, and a lead leads itself |
| Matchers.SharedOnClass | kofexamine/kofeditor.c:2175-2197 | whether the call is shared is the same for every matcher of a class |
| Matchers.HoldsByCount | kofexamine/kofeditor.c:2120-2129 | any, all and multi each hold exactly when the number of found markers reaches the effective threshold |
| Matchers.LeadSpeaksFor | kofexamine/kofeditor.c:6354-6374 | the lead's counter is declared and counts the same markers in the same range as every member of its class |
| Matchers.SharingSound | kofexamine/kofeditor.c:3998-4003 | comparing the lead's counter with the effective threshold answers exactly what the matcher asks |
| Matchers.CounterOf | kofexamine/kofeditor.c:6362-6371 | the 8-bit counter holds the true count, so it never wraps |
| Queries.GrpCount | kofexamine/kofeditor.c:1708-1716 | the number of markers a matcher has |
| Queries.GrpMask | kofexamine/kofeditor.c:1696-1706 | the range a matcher searches: its own, or the union of its markers' |
| Queries.GrpHasRange | kofexamine/kofeditor.c:1718-1735 | whether the matcher's own call names a range: never at a place |
| Queries.GrpThreshEff | kofexamine/kofeditor.c:2120-2129 | the count each rule compares with |
| Queries.GrpSameSet | kofexamine/kofeditor.c:2132-2170 | the loop over the markers decides the relation proved an equivalence |
| Queries.GrpLead | kofexamine/kofeditor.c:1598-1606 | the first matcher of the class |
| Queries.GrpShared | kofexamine/kofeditor.c:2175-2197 | shared: more than one in the class, and one of them counts |
| Queries.CndChildren | kofexamine/kofeditor.c:2024-2031 | nonzero exactly for a gate |
| Queries.CndSibNext | kofexamine/kofeditor.c:1870-1878 | the next condition inside the same parent |
| Queries.CndAndRun | kofexamine/kofeditor.c:1888-1906 | the last member of the "and" run beginning here |
| ExprMeaning.NegatedRead | kofexamine/kofeditor.c:4058-4080 | a negated matcher in brackets reads as the negation of its whole comparison |
| ExprMeaning.EmittedReads | kofexamine/kofeditor.c:4017-4094 | every text of the panel's grammar is written as C that parses, under C's precedence, up to the closing bracket |
| ExprMeaning.EmittedMeansWritten | kofexamine/kofeditor.c:4017-4094 | what it parses as is true of an object exactly when the condition's text is |
| ExprMeaning.CompilesIffReads | kofexamine/kofeditor.c:4017-4094 | and the C is an expression only when the text is one |
| BranchTokens.RunTestReads | kofexamine/kofeditor.c:4204-4220 | a run's members joined by && and bracketed where they hold "or" read as one test |
| BranchTokens.RunTestMeans | kofexamine/kofeditor.c:4176-4228 | which is true exactly when every member's own text is |
| BranchMeaning.UnitsRead | kofexamine/kofeditor.c:4233-4335 | leaves, runs, gates and bare blocks read back as nested statements, in order |
| BranchMeaning.UnitsRun | kofexamine/kofeditor.c:4233-4335 | executing them gives the verdict of the first branch that concludes; a gate falls through to what follows when it concludes nothing |
| Generate.BodyRead | kofexamine/kofeditor.c:6328-6414 | the whole body is C up to its closing brace |
| Generate.CountersAreSet | kofexamine/kofeditor.c:6354-6374 | after the declarations every shared counter holds its count |
| Generate.BodyRuns | kofexamine/kofeditor.c:6324-6414 | for any forest the body concludes what the branches it writes conclude in writing order, and nothing over the maximum size |
| Generate.CompilationPreservesMeaning | kofexamine/kofeditor.c:6324-6414 | with strong heads, parsing and running the body gives the forest's meaning on every object |
| Order.WrittenSorted | kofexamine/kofeditor.c:6395-6413 | with strong heads the level loop writes the stable order by level |
| Visits.VisitedOnce | kofexamine/kofeditor.c:4309-4316 | continuing from the returned index, a level of branches reaches each condition under it once and no other |
| Visits.OrderedOnce | kofexamine/kofeditor.c:6396-6412 | the order by level reaches every condition exactly once |
| Visits.AllWritten | kofexamine/kofeditor.c:6396-6412 | whatever the levels, every condition is written |
| Visits.WeakHeadTwice | kofexamine/kofeditor.c:6404-6410 | a member stronger than the head of its run is written at least twice |
| Visits.WrittenOnceIff | kofexamine/kofeditor.c:6396-6412 | every condition exactly once if and only if no top-level run begins weaker than a member |
| Verdicts.OrderedSorted | kofexamine/kofeditor.c:6376-6394 | branches are tried by level and, within one, by index; none is left out |
| Verdicts.StrongestSpeaks | kofexamine/kofeditor.c:6376-6394 | the strongest branch that concludes is the one that speaks, the earliest of equals; silence only when none does |
| Verdicts.StrongestLeafWins | kofexamine/kofeditor.c:4121-4152 | of top-level leaves that hold, the generated body concludes the least level, earliest first, and no verdict only when none that reports holds |
| Verdicts.TailWritten | kofexamine/kofeditor.c:6401-6412 | a run with a member stronger than its head has a member that is written as a branch of its own |
| Verdicts.WeakRunMisreports | kofexamine/kofeditor.c:6401-6412 | the body then concludes what the run concludes where its head does not hold, on every object where the rest holds and no branch written earlier concludes |
| Verdicts.WeakPairMisreports | kofexamine/kofeditor.c:6401-6412 | for a weak-headed pair the body says what the draft means exactly where the second test does not hold without the first |
| Emitter.EmitCallAs | kofexamine/kofeditor.c:3563-3607 | writes the call asking the matcher's question with its markers in order |
| Emitter.EmitSim | kofexamine/kofeditor.c:3948-3996 | writes the similarity comparisons, skipping items no build can write, and 0 when none is left |
| Emitter.EmitMatcher | kofexamine/kofeditor.c:3930-4007 | writes one matcher: its scores, its lead's counter, or its own call |
| Emitter.ReadId | kofexamine/kofeditor.c:4050-4058 | a run of digits accumulated in 32 bits is the number modulo 2^32 |
| Emitter.EmitExpr | kofexamine/kofeditor.c:4017-4094 | the character loop writes the tokens whose parse is proved above |
| Emitter.EmitVerdict | kofexamine/kofeditor.c:4121-4152 | writes the verdict, or nothing for none |
| Emitter.EmitAndRun | kofexamine/kofeditor.c:4176-4228 | writes a run as one test with its last member's verdict |
| Emitter.EmitCond | kofexamine/kofeditor.c:4233-4335 | writes a branch and answers the last index it consumed, having visited each condition under it |
| Emitter.EmitGate | kofexamine/kofeditor.c:4280-4335 | writes a gate: its test, its children, its own verdict |
| Emitter.EmitKids | kofexamine/kofeditor.c:4305-4318 | the child loop, jumping over run members, writes each child branch once |
| Emitter.LevelPass | kofexamine/kofeditor.c:6399-6412 | one pass over the top level marks off exactly what it wrote |
| Emitter.EmitDecls | kofexamine/kofeditor.c:6354-6374 | declares one counter per shared class |
| Emitter.EmitLevels | kofexamine/kofeditor.c:6395-6413 | writes the branches of the level loop in its order |
| Emitter.GenerateBody | kofexamine/kofeditor.c:6324-6414 | the loops together write the body that the theorems read and run |
| IdList.IdsAreNamed | kofexamine/kofeditor.c:554-592 | the panel's scan finds exactly the ids the emitter's lexer finds |
| IdList.PanelInEmitter | kofexamine/kofeditor.c:554-592 | panel and emitter name the same matchers if and only if no id wraps onto one |
| IdList.WrappedId | kofexamine/kofeditor.c:4050-4058 | 2^32 + k is matcher k to the emitter and none to the panel |
| IdList.LexPrint | kofexamine/kofeditor.c:1322-1354 | a written list lexes to its ids and joins and nothing more |
| IdList.IdsPrint | kofexamine/kofeditor.c:1322-1354 | the ids the row writes are the ids it reads |
| IdList.ListReads | kofexamine/kofeditor.c:1795-1826 | a written list means the conjunction or disjunction of its literals |
| IdRoom.FitExact | kofexamine/kofeditor.c:1341-1343 | the room check leaves the list whole exactly when there is room before its last id |
| IdRoom.FitInField | kofexamine/kofeditor.c:1322-1354 | a rewritten text always ends inside its 64 bytes |
| IdRoom.DistinctSmall | kofexamine/kofeditor.c:1806-1815 | no matcher twice means at most eight one-digit ids |
| IdRoom.SmallFits | kofexamine/kofeditor.c:1322-1354 | neither room check can cut such a list |
| IdRoom.CanonKeeps | kofexamine/kofeditor.c:1795-1826 | the canonical text keeps each matcher's use and sign, and is a row list |
| IdRoom.CanonIdempotent | kofexamine/kofeditor.c:1795-1826 | canonical text is its own canonical text |
| IdRoom.NegateTwice | kofexamine/kofeditor.c:1369-1372 | negating a matcher twice restores the text byte for byte |
| IdEdits.NextId | kofexamine/kofeditor.c:554-592 | each call returns the next id and where the scan goes on |
| IdEdits.CndUses | kofexamine/kofeditor.c:595-606 | whether any id of the text names the matcher |
| IdEdits.CndNeg | kofexamine/kofeditor.c:614-625 | whether the first such id is negated |
| IdEdits.CndRewrite | kofexamine/kofeditor.c:1322-1354 | the read-and-rewrite loop produces the edited list, inside its field |
| IdEdits.CndCanon | kofexamine/kofeditor.c:1795-1826 | the matcher-order loop produces the canonical text |
| IdEdits.CndDropMatcher | kofexamine/kofeditor.c:1357-1360 | one condition changes, to its list without the matcher |
| IdEdits.CndNegateMatcher | kofexamine/kofeditor.c:1369-1372 | one condition changes, to its list with that sign flipped |
| IdEdits.CndSwapMatcher | kofexamine/kofeditor.c:1390-1403 | out of range changes nothing; otherwise one condition is swapped and redrawn |
| IdEdits.CndSetOp | kofexamine/kofeditor.c:1842-1854 | a row list is rejoined; a typed expression is left alone |
| IdEdits.DropKeeps | kofexamine/kofeditor.c:1357-1360 | dropping leaves every other matcher's use and sign |
| IdEdits.SwapMoves | kofexamine/kofeditor.c:1390-1403 | the new matcher takes the old one's use and sign, no other moves, and the text is canonical again |
| IdEdits.SetOpKeepsList | kofexamine/kofeditor.c:1842-1854 | only the join changes, and setting it back restores the condition |
| IdEdits.SetOpMeans | kofexamine/kofeditor.c:1842-1854 | the meaning goes from all of the literals to any of them, or back |
| Removal.SpliceBit | kofexamine/kofeditor.c:1933-1943 | splicing low and high bits moves each surviving bit to its new number |
| Removal.MarkersKeep | kofexamine/kofeditor.c:1933-1943 | every marker belongs to exactly the surviving matchers it belonged to |
| Removal.RemovalKeepsBitsBelow | kofexamine/kofeditor.c:1925-1943 | no marker is left with a bit past the last matcher |
| Removal.MatcherKeeps | kofexamine/kofeditor.c:1925-1979 | every surviving matcher holds of the same objects |
| Removal.RemovalKeepsList | kofexamine/kofeditor.c:1944-1975 | a row list stays one, nothing cut off, every sign kept |
| Removal.RemovalKeepsCondition | kofexamine/kofeditor.c:1944-1975 | it holds exactly when the old list without that literal did, and is empty once that was all it had |
| DraftEdits.GrpRemove | kofexamine/kofeditor.c:1925-1979 | the three renumbering loops leave the draft without the matcher; an absent number changes nothing |
| DraftEdits.Renumber | kofexamine/kofeditor.c:1944-1975 | one condition's ids shifted down past the removed one |
| DraftEdits.AlikeMeaning | kofexamine/kofeditor.c:4233-4335 | forests of one shape whose tests agree mean the same |
| DraftEdits.RemovingUnusedKeepsMeaning | kofexamine/kofeditor.c:1925-1979 | removing a matcher no condition names changes the draft's verdict on no object |
| DraftEdits.CndAdd | kofexamine/kofeditor.c:1981-1992 | a new condition at the end, inside the selected one if nested; a full panel changes nothing |
| DraftEdits.CndRemove | kofexamine/kofeditor.c:2001-2022 | the shifting loop leaves the forest without the condition and the selection in it |
| DraftEdits.CutKeepsParents | kofexamine/kofeditor.c:2001-2022 | every survivor is inside what it was inside, or at the top when that is what went |
| DraftEdits.EditsKeepForest | kofexamine/kofeditor.c:1981-2022 | over every sequence of edits a condition sits only inside an earlier one |
| DraftEdits.AddThenRemove | kofexamine/kofeditor.c:1981-2022 | removing the condition just added restores the rows |
| Refusals.DraftMissing | kofexamine/kofeditor.c:2753-3085 | nothing is refused exactly when nothing is wrong, and a refusal names something wrong |
| Closed.AcceptedCounts | kofexamine/kofeditor.c:2992-3008 | an accepted matcher has 1 to 16 markers, exactly one at a place |
| Closed.Ranges | kofexamine/kofeditor.c:6149-6175 | the ranges declared are the distinct masks of matchers with markers |
| Closed.DeclareRanges | kofexamine/kofeditor.c:6149-6175 | the declaring loop produces them |
| Closed.BodyNamesDeclared | kofexamine/kofeditor.c:6151-6164 | every counter tested, range named and string used in the body is declared |
| Closed.CallWritten | kofexamine/kofeditor.c:3563-3607 | every matcher's question is asked by some call of the body |
| Closed.StringsAsked | kofexamine/kofeditor.c:3037-3059 | every declared string occurs in some call |
| Closed.RangeNamedIff | kofexamine/kofeditor.c:6149-6164 | a declared range is named by a call if and only if a searching matcher has it |
| RangeEdits.RngAll | kofexamine/kofeditor.c:3202-3234 | lists every range once, marking those no matcher searches |
| RangeEdits.RetargetAdded | kofexamine/kofeditor.c:3103-3128 | the declared list rewritten in place, no range twice |
| RangeEdits.RngRetarget | kofexamine/kofeditor.c:3094-3142 | every matcher searching the old range searches the new one |
| RangeEdits.RetargetMapsRanges | kofexamine/kofeditor.c:3094-3142 | the set of ranges is mapped through old to new, and stays distinct |
| RangeEdits.EmptyTargetMissed | kofexamine/kofeditor.c:1696-1706 | a retargeted matcher searches the target if and only if it has bits |
| RangeEdits.RngAddDrop | kofexamine/kofeditor.c:3237-3247 | takes one declaration out, keeping the order |
| RangeEdits.RngDelete | kofexamine/kofeditor.c:3255-3270 | removes exactly the matchers that search the range, the rest in order with their markers |
| RangeEdits.DeletedIsGone | kofexamine/kofeditor.c:3255-3270 | no matcher searches it afterwards, and every other range is searched as before |
| RangeEdits.TrackedHolds | kofexamine/kofeditor.c:3255-3270 | a matcher kept through a deletion holds of the same objects |
| RangeEdits.RngApply | kofexamine/kofeditor.c:3280-3331 | each menu line is one retarget or one declaration, and the list stays distinct and within eight |
| Stamp.DraftHash | kofexamine/kofeditor.c:2201-2370 | the nested mixing loops fold the bytes of the draft |
| Stamp.AddBlocks | kofexamine/kofeditor.c:2299-2320 | the picked blocks' hashes summed modulo 2^32 |
| Stamp.AutoUnseen | kofexamine/kofeditor.c:2215-2235 | whatever the engine fills into an option, the stamp is unchanged |
| Stamp.PlaceUnseen | kofexamine/kofeditor.c:2249-2253 | moving where a find_at matcher looks leaves the stamp unchanged |
| Stamp.SumRearranged | kofexamine/kofeditor.c:2299-2320 | the sum over the blocks is the same for every permutation |
| Stamp.OrderUnseen | kofexamine/kofeditor.c:2299-2354 | permuting the blocks and telling the matchers leaves the stamp unchanged |
| Stamp.OrderKeepsMeaning | kofexamine/kofeditor.c:3889-3902 | and leaves the verdict on every object unchanged |
| Stamp.BlkPermute | kofexamine/kofeditor.c:3889-3902 | each block item follows its block; other items stay |
| Stamp.SortBlocks | kofexamine/kv_decl.c:2715-2731 | the insertion sort yields a permutation with no block before one it belongs after |
| Stamp.MtnOrder | kofexamine/kv_decl.c:2703-2745 | the sorted table and the told matchers are a rearrangement the stamp does not see |
| PlaceText.PlaceRoundTrip | kofexamine/kofeditor.h:522-652 | a printed place reads back to the same anchor and step and stops at the following comma, if and only if it is not the most negative step of a named anchor |
| PlaceText.NamedText | kofexamine/kofeditor.h:494-549 | what a place with a named anchor reads back as, and when it overflows |
| PlaceText.HexRead | kofexamine/kofeditor.h:522-549 | a printed magnitude reads back, with or without a sign, up to its suffix |
| PlaceText.GrpAtParse | kofexamine/kofeditor.h:564-652 | the cursor loops compute the reading proved inverse to the printer |
| Locator.RegionMapAt | kofexamine/kofinspect.c:1579-1592 | the first region of the map that holds an offset |
| Locator.LocateWalk | kofexamine/kofinspect.c:1642-1684 | one window adds exactly its occurrences, in order, to the answer |
| Locator.Length | kofexamine/kofinspect.c:1602-1631 | the bisection finds the least length the monotone match accepts |
| Locator.LocateLens | kofexamine/kofinspect.c:1602-1631 | every listed hit gets that least length |
| Locator.LocateStr | kofexamine/kofinspect.c:1687-1751 | imports, then exports, then the file: the first with an occurrence is reported with all of its occurrences |
| Locator.FileAnswer | kofexamine/kofinspect.c:1642-1684 | `at` is the least occurrence in an allowed region, else the least at all, marked off-range; hits are the ascending first 64 and clipped means exactly that more exist |
| Locator.CurHitIs | kofexamine/kofinspect.c:1642-1684 | the selected hit is the reported one whenever it is in the list, so always when the list is not clipped |
| Locator.HalfAnswer | kofexamine/kofinspect.c:1700-1730 | in a symbol half the first occurrence is reported |
| Clip.OutClipSet | kofexamine/kofview.c:169-191 | narrows the rectangle and hands back the one to restore |
| Clip.OutClipRestore | kofexamine/kofview.c:193-197 | puts a rectangle back |
| Clip.NestedIsIntersection | kofexamine/kofview.c:169-191 | a rectangle set inside another admits exactly what both admit |
| Clip.OutAdd | kofexamine/kofview.c:251-347 | the run-batching loops do what the byte-at-a-time filter does, on every byte sequence |
| Clip.OutGlyph | kofexamine/kofview.c:354-364 | one glyph is one cell, shown whole or dropped whole |
| Clip.OutAt | kofexamine/kofview.c:384-390 | positioning passes every rectangle |
| Clip.PutShows | kofexamine/kofview.c:251-347 | the filter lets through exactly the escapes and the whole cells the rectangle admits, and counts what it drops |
| Clip.PlacesIndependent | kofexamine/kofview.c:251-347 | where text goes does not depend on the rectangle |
| Clip.ClippedIff | kofexamine/kofview.c:251-347 | clipping is cell by cell if and only if no newline changes the row's answer; always on newline-free text |
| Clip.NewlineShows | kofexamine/kofview.c:251-347 | a concrete cell below the rectangle that is shown |
| Base64.Decode | kofexamine/kofscfind.c:157-201 | the loop with the unmasked 32-bit accumulator writes the decoded bytes, or answers 0 when they do not fit |
| Base64.DecodesEncoding | kofexamine/kofscfind.c:157-201 | any spelling of section 4 of RFC 4648 of at least 8 characters, with or without padding, line breaks or a final NUL, decodes to the bytes encoded |
| Base64.CanonicalSpells | kofexamine/kofscfind.c:157-201 | the standard's own text with any padding is such a spelling |
| Base64.NulEnds | kofexamine/kofscfind.c:157-201 | what follows a NUL is ignored |
| Base64.BytesCount | kofexamine/kofscfind.c:157-201 | n sextets give exactly the whole bytes in 6n bits |
| Base64.NeverFull | kofexamine/kofscfind.c:204-216 | the largest payload decodes to at most 6144 bytes |
| CommandLine.Build | kofexamine/kofplat.h:299-330 | the command line is built, or refused exactly when it does not fit |
| CommandLine.QuoteBody | kofexamine/kofplat.h:305-325 | the backslash-counting loop writes one quoted argument or runs out of room |
| CommandLine.SplitUndoesQuoting | kofexamine/kofplat.h:299-330 | splitting by the documented backslash and quote rule gives back every argument vector |
| ReaderLoop.DraftFromBody | kofexamine/kofeditor.c:4658-5300 | the line loop, a piece of the buffer at a time, fills the draft's arrays as the reading function says |
| ReaderLoop.OneLine | kofexamine/kofeditor.c:4964-5300 | one line: block, if, calls, verdict, braces, in that order |
| ReaderLoop.EveryCall | kofexamine/kofeditor.c:5137-5250 | each call on a line becomes a matcher and a literal of the open condition |
| ReaderLoop.VerdictLine | kofexamine/kofeditor.c:5252-5279 | a verdict goes to the condition still waiting for one, else to the gate it closes |
| ReaderLoop.EveryBrace | kofexamine/kofeditor.c:5284-5299 | braces open and leave gates, with the depth limit |
| Rebuild.ReadTest | kofexamine/kofeditor.c:4989-5020 | the line of a test reads as one condition with its literals, signs and join |
| Rebuild.AddMany | kofexamine/kofeditor.c:5137-5250 | a line's calls append their matchers and ids, and nothing else changes |
| Rebuild.ReadTops | kofexamine/kofeditor.c:4964-5300 | the lines of any plain branches read as exactly the conditions and matchers they were made of |
| ReadMeaning.TopsRead | kofexamine/kofeditor.c:4950-5300 | a draft so filled means what those branches mean |
| RoundTrip.ReadBackMeans | kofexamine/kofeditor.c:4950-5300 | reading plain branches, strongest first, gives a draft with their meaning |
| Reopen.TopsWritten | kofexamine/kofeditor.c:4233-4335 | what the emitter writes for such a draft is those lines |
| Reopen.TopsMeans | kofexamine/kofeditor.c:4233-4335 | and the branches mean what the draft means |
| Reopened.Sizes | kofexamine/kofeditor.c:4989-5020 | no more conditions come back than there were, and as many matchers as literals |
| Reopened.BodyIs | kofexamine/kofeditor.c:6395-6414 | the generated body is the lines of its branches and a closing brace |
| Reopened.BranchesSame | kofexamine/kofeditor.c:4950-5300 | the branches come back in written order, each with the level it ends at and the same meaning on every object |
| Reopened.SameOrderIff | kofexamine/kofeditor.c:6395-6413 | the draft that comes back tries them in that order if and only if none ends stronger than one written before |
| Reopened.GenerateThenOpen | kofexamine/kofeditor.c:4950-5300 | reading the generated body back gives the same verdict on every object |
| Reopened.OrderLost | kofexamine/kofeditor.c:5252-5279 | of two branches that conclude, the first written speaks before and the stronger-ending one after, whenever no other comes first |
| Failures.WeakEndComesBack | kofexamine/kofeditor.c:5252-5279 | one draft and object where that changes suspect into infection |
| Failures.WeakHeadMisreports | kofexamine/kofeditor.c:6401-6412 | one accepted draft and object where the body reports an infection the draft does not mean |
| Lines.CutExact | kofexamine/kofeditor.c:4658-4658 | a line cut at any character loses none, repeats none and moves none |
| CallText.WholeRead | kofexamine/kofeditor.c:5160-5215 | a printed call read back by its characters asks with the same rule, range name, place and markers |
| CallText.FindRead | kofexamine/kofeditor.c:5160-5215 | a call cut anywhere in its list of markers asks with the markers before the cut |
| Reader.FitsWhole | kofexamine/kofeditor.c:4658-4658 | with no line longer than the buffer, reading in pieces is reading line by line |
| CutLines.FirstPiece | kofexamine/kofeditor.c:5137-5250 | the first part of a cut test gives its whole calls, and the cut one with the threshold for none |
| LongLine.LongPieces | kofexamine/kofeditor.c:4204-4220 | where the buffer ends in a test of eight counted matchers of sixteen markers |
| LongLine.LongComesBack | kofexamine/kofeditor.c:4582-4658 | that draft is accepted and plain, only too wide, and comes back with another verdict |

## Left out

- Reopened.GenerateThenOpen: its condition (`Reopened.Readable` and `Reopen.EndsRanked`) is sufficient, not necessary. It asks for an accepted draft of string and find_at matchers without shared counters, places that can be read back, row lists at most one level deep, runs of and-lists, silence only at the top, at most eight literals in all, no maximum size, custom variants without the words SUSPECT and KOF_MALVAR_GENERIC, ranges whose names differ in the first 47 characters, and no line longer than 1023 characters. The order of branches is an if and only if; the rest is not, since drafts outside it can agree by accident (equal matchers, tests that never hold together, a line cut behind its last call).
- Refusals.DraftMissing: the checks on family, type, variant names and on similarity matchers without items are not modelled; those on string and find_at matchers, conditions, unused strings, matchers and ranges are.
- Generate.CompilationPreservesMeaning: with a weak-headed run the meaning can differ; `Generate.BodyRuns` says what the body does then, `Visits.WrittenOnceIff` when it happens, `Verdicts.WeakRunMisreports` gives objects for any such run, and `Verdicts.WeakPairMisreports` exactly the objects for a pair.
- Base64.DecodesEncoding: the decoder's lower bound of 8 characters is kept; shorter texts decode to nothing.
- PlaceText.PlaceRoundTrip: the anchor spellings are a fixed table; that `strtoull` reads hexadecimal, decimal and signs as C requires is written out as a function, and `unsigned long` is 64 bits.
- Locator.LocateStr: the byte matcher is a parameter, assumed to accept an occurrence whatever window it was asked in and to stay accepting as more bytes are allowed.
- CommandLine.Build: the special rule Windows has for the program name, and environment and handles, are not modelled.
- Stamp.DraftHash: strings are sequences of bytes up to their terminator; equal stamps are not claimed to mean equal drafts.
- DraftModel.Draft: the fixed C arrays are held as sequences of their live prefix, so what stale entries hold past the count is not modelled.
- How a range is named (`rng_ident`) is a parameter of the reader: identifiers, with nothing said of which regions they come from. A call carries the mask of its range, so ranges are taken to have names of their own; the C gives every range with the whole-file bit one name.
- A generated file is modelled from the opening brace of `kof_scan`: comments, tabs and the declarations above it are not, except which ranges and counters are declared; a search call is one token with its arguments.
- The reader's metadata and header parsing, the counters it keeps for later comparisons, its size line and comment stripping are text heuristics outside the body forms above; a line it takes for a counter's makes no matcher.
- Diagnostic matchers (`GRP_KIND_DIAG`), which a body of strings does not hold.
- Growth of the screen buffer and its failure, colours, and everything drawn with the writer.
- `sym_off` and `inline_variant` of the payload finder: tables and heuristics around the decoder.
- Files, directories, naming, clipboard and process creation: I/O only.
- The match engine, the format parsers and the anchor tables, which lie behind the parameters above.
