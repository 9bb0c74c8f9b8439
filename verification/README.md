# Verification of Caffold's core algorithms

Caffold is a browser front end for coding tasks with a Rust server behind it. This project models the parts of it
whose correctness is hard to see by reading, and proves what they are for.

* **Action Hints.** Every control on the page gets a code of capital letters; typing a code activates its control.
  `HintWords` proves Kraft's inequality for words whose first letter comes from a smaller alphabet. `HintCodes`
  models the code generator, loop by loop, and proves that no prefix-free choice takes fewer keystrokes in all or
  has a shorter longest word; `HintCodeOrder` says which words it picks. `HintAllocation` models which target draws
  on which pool of codes, `HintReconcile` the retirement of owner groups while a session is open, `HintSession` the
  controller as a class whose methods change the session in place. `HintSessionRuns` proves what holds in every
  reachable state, up to the statement that typing the code a target was allocated activates that target, and
  `HintSessionSteps` what each key and each event does.
* **Routes.** `RouteTable` is the ordered table that both reads and writes addresses, with its normalising
  constructors. `RouteRoundTrip`, `RouteParsing` and `RouteIdentity` prove that the routes addresses name are
  exactly the canonical ones and that printing and parsing are inverse on them. `RouteMeaning` says for every shape
  of address which route it names, field by field. `RouteAncestry`, `RouteParents`, `Ancestry` and `RouteRelation`
  prove what the parent of a route is and that the parent function orders each tab as a tree. `RouteLoops` holds the loops of the
  reader and writer, `PathText` and `PathMeaning` the readers of paths, texts and numbers, and `PathCodec` a codec of the kind the
  round trips assume.
* **Git output.** `LineChanges` reads zero-context patches, `NulRecords` the NUL-separated listings; both are proved
  against a printer for what Git writes. `GitNumbers` is the reading of numbers they share.
* **Protocols.** `RefreshCoordinator` (coalescing refreshes), `ShellInstall` (the service worker's installation),
  `ShadowRoots` (attachments that follow the document's shadow roots), `InFlightLimit` (the controller of a
  download's concurrency) and `ConnectionPager` (capped reading of a paged list).

Each loop or in-place method of the source is a method here, proved equal to a specification function or against the
property itself; the theorems are lemmas about those functions and about runs of them. `Wrappers` has the option type
and `Lists` the lists without repeats.

Callbacks and the outside world are inputs: what the page shows at each step (`Page`), whether an asset's request
fails, how long a cell waited, what a server's next page is. Two assumptions are stated where they are used.
`GoodCodec` says that percent-encoding a path segment can be undone, hides slashes and keeps unreserved letters;
`GoodCodecExists` shows a codec that meets it.
`StrongTags` says that an entity tag names one body (sections 8.8.3, 13.1.2 and 15.4.5 of RFC 9110).

Where the code and a natural reading of it part, the code is followed and the difference is a lemma:

* A rename that only the work tree column shows is misread by the status reader, which then takes the old path for
  another entry: `WorktreeRenameMisread` is an instance, `StatusReadIff` the exact condition.
* A failed refresh resolves the promises of requests made while it ran, with no refresh after them:
  `FailureLosesRefresh` is an instance, `ResolvedIff` says of every resolved request when it was left out.
* `sameElementSet` compares one way only. The lists it is symmetric from, whatever they are compared with, are exactly
  the duplicate-free ones: `SameElementSetSymmetricIff`. The program makes its lists duplicate-free first.
* The first cell of a download is itself in line, so on a link whose wait is base + slope * cells the usual wait is
  base + slope, and the count grows to 1 + 250 / slope: `StartApproaches`. It stays below 250 / slope, where a usual
  wait of base would lead, exactly on links that never come to it: `StartStaysBelowIff`, with an instance in
  `StartPassesRoundTripBalance`.
* With an empty first-letter alphabet the search for a depth does not end: `DepthSearchEnds`.
* An activation reports its exit before it looks at the page once more, so a session may end with an activation
  although nothing was activated: `ActivatedWithoutTarget` is an instance, `ActivationFiresIff` the exact condition.

## Model

| member | source | states |
|---|---|---|
| HintWords.KraftRooted | frontend/action-hints/model.ts:316-322 | Kraft's inequality for prefix-free words whose first letter comes from the root alphabet: what the words cover at a depth is at most the words of that length |
| HintWords.CodeCapacity | frontend/action-hints/model.ts:316-322 | the capacity the depth loop computes is a true bound: no prefix-free set within the depth has more words |
| HintWords.KeystrokeBound | frontend/action-hints/model.ts:327-351 | a lower bound on the total length of any prefix-free set, from Kraft and K^x >= 1+(K-1)x |
| HintCodes.FindDepth | frontend/action-hints/model.ts:312-322 | the capacity loop ends, at the least depth whose capacity reaches the count |
| HintCodes.DepthSearchEnds | frontend/action-hints/model.ts:312-322 | some depth is enough exactly when nothing is to be named or a first letter is left |
| HintCodes.ChildCounts | frontend/action-hints/model.ts:337-350 | every expanded leaf gets between 2 and 26 children and all children needed are handed out |
| HintCodes.ExpandTail | frontend/action-hints/model.ts:327-351 | the last leaves expanded, as few as are needed, give the specified codes |
| HintCodes.HandOutChildren | frontend/action-hints/model.ts:337-350 | the loop over the leaves to expand, with its running count of children still needed, hands all of them out |
| HintCodes.PushChildren | frontend/action-hints/model.ts:345-348 | the inner loop appends one leaf's children in alphabet order |
| HintCodes.CompactHintCodes | frontend/action-hints/model.ts:312-352 | the generator, built from its loops, is the specified code list |
| HintCodeOrder.FewCodes | frontend/action-hints/model.ts:323-325 | while the root letters are enough, the i-th code is the i-th root letter |
| HintCodeOrder.CompactWords | frontend/action-hints/model.ts:327-351 | past them, the i-th short code is the i-th word of its length in alphabet order, and the later words have their first letters' children follow in the same order, full shares first and never fewer than two each |
| HintCodeOrder.LongCodesExtend | frontend/action-hints/model.ts:327-351 | every longer code extends a word that comes after all the short ones |
| HintCodes.FixedWidthHintCodes | frontend/action-hints/model.ts:354-362 | the level-by-level loop builds all words of one width in order |
| HintCodeOrder.FixedWidthNth | frontend/action-hints/model.ts:354-362 | the n-th word of a width is the one whose letters are the digits of n, the last letter changing fastest |
| HintCodes.FixedWidthCode | frontend/action-hints/model.ts:354-362 | the words of one width over the two alphabets form a prefix-free code |
| HintCodes.CompactShape | frontend/action-hints/model.ts:312-352 | exactly count prefix-free codes over the alphabets, of the least depth or one letter less, shorter ones first, the last level used |
| HintCodes.ShortCountIsMost | frontend/action-hints/model.ts:327-335 | no more short codes would leave room for the count: as few leaves as possible are expanded |
| HintCodes.LeastKeystrokes | frontend/action-hints/model.ts:312-352 | no prefix-free choice of as many words has a smaller total length |
| HintCodes.ShortestLongest | frontend/action-hints/model.ts:316-322 | no prefix-free choice of as many words has a shorter longest word |
| HintCodes.FixedWidthAt | frontend/action-hints/model.ts:292-310 | the index-th fixed-width word is the index written in base 26 |
| HintCodes.TaskHintSuffix | frontend/action-hints/model.ts:292-310 | the suffix is the index-th fixed-width word; errors exactly for a width that is not positive or an index past the last word |
| HintAllocation.AllocateActionHintCodes | frontend/action-hints/model.ts:242-277 | every outcome: unsupported action or kind, bad id, a fixed key used twice, or the specified codes; the prefix-free error cannot happen |
| HintAllocation.AssignCodes | frontend/action-hints/model.ts:264-274 | the pass with two running indices gives each target its own code of its pool |
| HintAllocation.CheckCodes | frontend/action-hints/model.ts:712-724 | the final check tells apart lists with repeats, lists with a proper prefix, and prefix-free lists |
| HintAllocation.CheckTargetIds | frontend/action-hints/model.ts:667-675 | accepts exactly lists of distinct non-empty ids, and otherwise names an id that is empty or belongs to two targets |
| HintAllocation.CodesPrefixFreeIff | frontend/action-hints/model.ts:226-290 | over any mix of policies the codes are unique, and prefix-free, exactly when no fixed key is used twice |
| HintAllocation.AllocationOutcome | frontend/action-hints/model.ts:242-277 | allocation succeeds exactly when every target is supported and no id is empty or repeated and no fixed key repeated |
| HintAllocation.NoPolicyIff | frontend/action-hints/model.ts:91-215 | exactly the actions the table does not have are refused |
| HintAllocation.KeyCode | frontend/action-hints/model.ts:91-226 | creating a Task, choosing a model and focusing the prompt get N, M and P |
| HintAllocation.TaskCode | frontend/action-hints/model.ts:253-274 | the k-th Task gets T and the k-th generated task code |
| HintAllocation.PooledCode | frontend/action-hints/model.ts:253-290 | the k-th other target gets the k-th generated code of the automatic pool |
| HintAllocation.AutomaticRootMeans | frontend/action-hints/model.ts:226-290 | the first letters of that pool are the hint letters outside N, M, P, T and the reserved keys |
| HintAllocation.WithoutKeepsOrder | frontend/action-hints/model.ts:226-290 | leaving letters out keeps the others in order |
| HintAllocation.ReservedKeyBeginsNoCode | frontend/keyboard-navigation.ts:465-495 | a reserved key such as S begins no code, so on an empty buffer it can mean something else |
| HintAllocation.CodesOverAlphabet | frontend/action-hints/model.ts:226-290 | every allocated code is made of the letters of the hint alphabet |
| HintReconcile.SameElementSetMeaning | frontend/action-hints/model.ts:702-710 | on a duplicate-free left list the one-sided test is equality of sets without repeats, by pigeonhole |
| HintReconcile.SameElementSetEquivalence | frontend/action-hints/model.ts:702-710 | on duplicate-free lists the test is reflexive, symmetric and transitive |
| HintReconcile.SameElementSetSymmetricIff | frontend/action-hints/model.ts:702-710 | the lists the test is symmetric from, whatever they are compared with, are exactly the duplicate-free ones |
| HintReconcile.UniqueElements | frontend/action-hints.ts:1000-1013 | keeps the first occurrence of each element, in order, and drops missing and unmeasurable entries |
| HintReconcile.IndexById | frontend/action-hints/model.ts:607-613 | an index exists exactly when the current ids are good, and finds each descriptor |
| HintReconcile.ReconcileActionHintTargets | frontend/action-hints/model.ts:592-647 | the pass that retires owners and keeps the rest is the specified reconciliation |
| HintReconcile.SameBindingMeans | frontend/action-hints/model.ts:573-590 | bindings match when they differ at most in the order of their root lists |
| HintReconcile.MatchedMeans | frontend/action-hints/model.ts:614-626 | a target matches exactly when a usable, visible descriptor has its id and binding |
| HintReconcile.SurvivorShown | frontend/action-hints/model.ts:627-645 | every survivor carries the label and rectangle the page shows now |
| HintReconcile.RunSurvivorShown | frontend/action-hints/model.ts:592-647 | after a run of reconciliations every survivor carries what the last page shows |
| HintReconcile.RetiredOwnersMeaning | frontend/action-hints/model.ts:592-647 | an owner is retired exactly when one of its targets is missing, rebound, not actionable or not visible |
| HintReconcile.SurvivorMember | frontend/action-hints/model.ts:592-647 | the survivors are exactly the refreshed targets of owners that live |
| HintReconcile.GroupsLiveOrDieTogether | frontend/action-hints/model.ts:592-647 | after any run the survivors are the original targets whose whole group matched every time, order and codes unchanged |
| HintReconcile.ReconcileIdempotent | frontend/action-hints/model.ts:592-647 | reconciling again with the same page retires nothing and changes nothing |
| HintSession.BackspaceCancels | frontend/action-hints/model.ts:407-435 | a letter followed by Backspace leaves no trace in what the keys spell |
| HintSessionSteps.BufferMeans | frontend/action-hints/model.ts:407-435 | what the buffer becomes, which codes go on from it, and which of the four states is reported |
| HintSessionSteps.MatchesInOrder | frontend/action-hints/model.ts:407-435 | the codes that go on keep their order |
| HintSession.NormalizeKeyMeaning | frontend/action-hints/model.ts:364-398 | which event gives which letter: the key itself in either case, else the place of the key on the keyboard, and nothing when suppressed |
| HintSession.ActionHintController.HandleHintKeydown | frontend/action-hints.ts:285-327 | the whole new state after a keydown: ignored, cancelled, a Backspace or a letter |
| HintSessionSteps.EscapeEnds | frontend/action-hints.ts:303-308 | Escape ends the session with that reason and activates nothing |
| HintSessionSteps.BackspaceTrims | frontend/action-hints.ts:309-314 | Backspace drops the last letter of the buffer and never ends the session |
| HintSessionSteps.StrayCharacterEnds | frontend/action-hints.ts:315-323 | a character that types no letter ends the session as a mismatch |
| HintSessionSteps.OtherKeysIgnored | frontend/action-hints.ts:315-323 | any other key that types no letter changes nothing |
| HintSessionSteps.UnheardIgnored | frontend/action-hints.ts:285-302 | a suppressed or native key changes nothing |
| HintSessionSteps.LetterTyped | frontend/action-hints.ts:324-348 | a letter ends the session as a mismatch when no live code goes on so, activates when it completes one, and otherwise waits in the buffer |
| HintSession.ActionHintController.ApplyInput | frontend/action-hints.ts:329-348 | the whole new state after one accepted key |
| HintSession.ActionHintController.StartSession | frontend/action-hints.ts:350-402 | the whole new state after an attempt to open |
| HintSessionSteps.OpeningMeans | frontend/action-hints.ts:350-402 | when a session opens, with which targets, and with which reason it ends at once otherwise |
| HintSession.ActionHintController.CancelSession | frontend/action-hints.ts:404-425 | one exit is reported if a session was open, and none is open afterwards |
| HintSessionSteps.CancelMeans | frontend/action-hints.ts:404-425 | one exit with the given reason, nothing activated |
| HintSession.ActionHintController.Activate | frontend/action-hints.ts:427-464 | the exit is reported, and the target is activated exactly when the page still has it |
| HintSessionSteps.ActivationMeans | frontend/action-hints.ts:427-464 | the exit names the target, and it is activated, looking as the page shows it, exactly when its group is still shown |
| HintSessionSteps.ChoiceMeans | frontend/action-hints.ts:427-464 | choosing an unknown code changes nothing; a known one that the buffer begins is activated so |
| HintSession.ActionHintController.ReviseSession | frontend/action-hints.ts:676-694 | the session goes on with the surviving targets or is cancelled |
| HintSessionSteps.RevalidationMeans | frontend/action-hints.ts:676-756 | a session goes on exactly when the page holds, some live code can still be typed and the dialog takes the targets left |
| HintSession.ActionHintController.RevalidateSnapshot | frontend/action-hints.ts:696-756 | the targets are replaced only when all checks pass |
| HintSession.CaptureTargets | frontend/action-hints.ts:758-789 | a snapshot exists exactly when the page can be measured and allocation succeeds, and pairs each usable, visible target, in the given visual order, with its code |
| HintSession.CapturableAll | frontend/action-hints.ts:758-789 | usable, visible descriptors are taken, each as often as listed, and no others |
| HintSessionRuns.RunsDecode | frontend/action-hints.ts:285-485 | in every reachable state an open session's buffer is what its keys spell, begins a live code and equals none; one exit for each closed session and none for the open one; every keyboard activation hit the code the keys spell |
| HintSessionRuns.CodeKeepsItsTarget | frontend/action-hints.ts:696-756 | a live code names the target it was given when the session opened |
| HintSessionRuns.ActivationFiresIff | frontend/action-hints.ts:427-464 | an activation always reports its exit, and fires exactly when the page still shows the target's whole group and leaves something to type |
| HintSessionRuns.ActivatedWithoutTarget | frontend/action-hints.ts:427-464 | a run whose session ends with an activation and activates nothing |
| HintSessionRuns.TypingCodeActivates | frontend/action-hints.ts:329-464 | typing a live target's code activates that target and ends the session |
| HintSessionRuns.AllocatedCodeActivates | frontend/action-hints.ts:285-485 | from capture to activation: any visible target can be activated by typing the code it was allocated |
| PathText.ReviewFilePathLoop | frontend/navigation-routes.ts:1223-1240 | the loop over segments with its stack is the specified normal form |
| PathText.PushAllNormalForm | frontend/navigation-routes.ts:1223-1240 | the stack always holds leading ".." segments followed by plain names |
| PathText.ReviewFilePathWalks | frontend/navigation-routes.ts:1223-1240 | the normal form leads where the written path leads, from every directory |
| PathText.ReviewFilePathIdempotent | frontend/navigation-routes.ts:1223-1240 | normalising twice is normalising once |
| PathText.SameNormalFormIff | frontend/navigation-routes.ts:1223-1240 | two paths have one normal form exactly when they lead to the same place from every directory |
| PathText.CleanPathIdempotent | frontend/navigation-routes.ts:1208-1213 | cleaning twice is cleaning once, and no ".." is left |
| PathMeaning.CleanPathMeans | frontend/navigation-routes.ts:1208-1213 | a clean path is plain names and leads, from every directory, where the written one does without its ".." segments |
| PathMeaning.SafeRelativePathMeans | frontend/navigation-routes.ts:1215-1221 | a path with a ".." is refused; any other leads where it was written to |
| PathMeaning.NamesKept | frontend/navigation-routes.ts:1208-1240 | plain names joined by slashes are left as they are by every reader of paths |
| PathMeaning.TrimMeans | frontend/navigation-routes.ts:954-960 | trimming takes off the white space at both ends and nothing else |
| PathMeaning.PositiveIntegerIff | frontend/navigation-routes.ts:1252-1255 | a number is read exactly where white space, perhaps a plus sign and the digits of a positive number begin the text |
| PathMeaning.PositiveLineIff | frontend/navigation-routes.ts:1257-1264 | a line is read exactly from the decimal text of a positive safe integer |
| PathText.SafeRelativePathIdempotent | frontend/navigation-routes.ts:1215-1221 | the check keeps what it has accepted |
| PathText.PositiveIntegerOfDecimal | frontend/navigation-routes.ts:1252-1255 | reads back a printed number exactly when it is positive |
| PathText.PositiveLineOfDecimal | frontend/navigation-routes.ts:1257-1264 | reads back a printed number exactly when it is positive and a safe integer |
| RouteLoops.ParseAddress | frontend/navigation-routes.ts:554-569 | the loop over the table returns the first definition's route |
| RouteLoops.MatchPath | frontend/navigation-routes.ts:802-840 | the loop with a segment index matches tokens to segments |
| RouteLoops.BuildPath | frontend/navigation-routes.ts:842-867 | the loop joins the printed tokens |
| RouteLoops.ReadQuery | frontend/navigation-routes.ts:882-897 | the loop reads every query field, or its default |
| RouteLoops.PutQuery | frontend/navigation-routes.ts:899-912 | the loop writes the fields that differ from their defaults |
| RouteRoundTrip.MatchMeaning | frontend/navigation-routes.ts:802-840 | a match fixes the segment count, every literal and every parameter |
| RouteRoundTrip.EarlierApart | frontend/navigation-routes.ts:156-548 | only two pairs of patterns of the table overlap, so first match decides only there |
| RouteRoundTrip.QueryRoundTrip | frontend/navigation-routes.ts:882-912 | reading a written query gives every carried field back, defaults included |
| RouteMeaning.ParamWrittenIff | frontend/navigation-routes.ts:899-912 | a parameter is written exactly when its field says something other than its default |
| RouteRoundTrip.PathRoundTrip | frontend/navigation-routes.ts:802-867 | a printed path splits into the segments it was printed from |
| RouteParsing.DefinitionForCanonical | frontend/navigation-routes.ts:723-775 | a canonical route is printed by its own definition |
| RouteParsing.Remade | frontend/navigation-routes.ts:914-1190 | building a route again from its own fields gives it back |
| RouteIdentity.TasksRouteIdempotent | frontend/navigation-routes.ts:914-952 | making a Tasks route of a Tasks route changes nothing |
| RouteIdentity.SectionDetailRouteIdempotent | frontend/navigation-routes.ts:954-1024 | making a section route of a section route changes nothing, and the result is canonical |
| RouteIdentity.PrintParse | frontend/navigation-routes.ts:554-608 | parsing the printed address of a canonical route gives the route |
| RouteIdentity.ParsedCanonical | frontend/navigation-routes.ts:554-569 | every address names a canonical route or none |
| RouteMeaning.SegmentsNotEmpty | frontend/navigation-routes.ts:802-840 | no decoded segment is empty, so a Task and a note always have a name |
| RouteMeaning.NamesRouteIff | frontend/navigation-routes.ts:554-569 | an address names a route exactly when its segments spell a pattern of the table |
| RouteMeaning.CompareAddress | frontend/navigation-routes.ts:554-569 | the route of a compare page, field by field |
| RouteMeaning.LogAddress | frontend/navigation-routes.ts:554-569 | the route of a log page, field by field |
| RouteMeaning.IssuesAddress | frontend/navigation-routes.ts:554-569 | the route of an issue list, field by field |
| RouteMeaning.IssueAddress | frontend/navigation-routes.ts:554-569 | the route of an issue, field by field |
| RouteMeaning.PullsAddress | frontend/navigation-routes.ts:554-569 | the route of a pull-request list, field by field |
| RouteMeaning.PullAddress | frontend/navigation-routes.ts:554-569 | the route of a pull request, field by field |
| RouteMeaning.PullFilesAddress | frontend/navigation-routes.ts:554-569 | the route of a pull request's files, field by field |
| RouteMeaning.CompareFile | frontend/navigation-routes.ts:1140-1151 | a compare page carries a file of plain names as it is |
| RouteMeaning.LogFile | frontend/navigation-routes.ts:1153-1164 | a log page carries a file of plain names as it is |
| RouteMeaning.PullFile | frontend/navigation-routes.ts:1178-1190 | a pull request's files carry a file of plain names as it is |
| RouteMeaning.ReviewAddress | frontend/navigation-routes.ts:914-952 | the route of a review, field by field |
| RouteMeaning.TerminalAddress | frontend/navigation-routes.ts:914-952 | the route of a terminal |
| RouteMeaning.RecoveryAddress | frontend/navigation-routes.ts:914-952 | the route of a recovery |
| RouteMeaning.TaskAddress | frontend/navigation-routes.ts:914-952 | the route of a Task, whose name is not "new" |
| RouteMeaning.NewTaskAddress | frontend/navigation-routes.ts:914-952 | the route of a new Task, with its directory |
| RouteMeaning.TaskListAddress | frontend/navigation-routes.ts:914-952 | the older address of the Task list |
| RouteMeaning.RootAddress | frontend/navigation-routes.ts:914-952 | the root page without a section is the Task list |
| RouteMeaning.SectionAddress | frontend/navigation-routes.ts:954-1024 | the root page with a section: which parameters its surface and tool keep, field by field |
| RouteMeaning.NotesAddress | frontend/navigation-routes.ts:1103-1116 | the route of the notes |
| RouteMeaning.NoteAddress | frontend/navigation-routes.ts:1103-1116 | the route of a note, with another beside it |
| RouteMeaning.SettingsAddress | frontend/navigation-routes.ts:1118-1138 | the route of the settings |
| RouteMeaning.SettingsSectionAddress | frontend/navigation-routes.ts:1118-1138 | the route of each section of the settings |
| RouteIdentity.ParsePrintParse | frontend/navigation-routes.ts:554-608 | for every address that parses to a route, parsing the printed route gives it again |
| RouteIdentity.CanonicalIffParsed | frontend/navigation-routes.ts:554-608 | the canonical routes are exactly the ones some address names |
| RouteIdentity.RouteUrlInjective | frontend/navigation-routes.ts:588-608 | different canonical routes have different addresses |
| PathCodec.GoodCodecExists | frontend/navigation-routes.ts:842-880 | what the round trips ask of percent-encoding can be had |
| RouteAncestry.ParentStep | frontend/navigation-routes.ts:610-616 | a parent is canonical, in the same tab and of lower level; only the tab's home has none |
| RouteParents.ParentMeans | frontend/navigation-routes.ts:610-616 | the parent is the route without its innermost detail (file and line, commit, file list, number), every other field kept, or the tab's home when there is none |
| RouteParents.ParentOneLevelUp | frontend/navigation-routes.ts:610-616 | the parent is exactly one level up |
| RouteParents.SectionParent | frontend/navigation-routes.ts:1066-1101 | the same for a section's page |
| RouteRelation.EndsAtHome | frontend/navigation-routes.ts:610-616 | every chain of parents ends at the home of its tab |
| RouteRelation.RouteAscentSteps | frontend/navigation-routes.ts:654-671 | the climbing loop ends and is the specified step count |
| RouteRelation.AscentMeaning | frontend/navigation-routes.ts:654-671 | the count is n exactly when the other route is n > 0 parents up |
| RouteRelation.AscentAdds | frontend/navigation-routes.ts:654-671 | step counts add up along chains |
| RouteRelation.AscentStrict | frontend/navigation-routes.ts:654-671 | a route above another is different from it and not below it |
| RouteRelation.AscentInTab | frontend/navigation-routes.ts:610-689 | a route above another is in its tab |
| RouteRelation.RelationDual | frontend/navigation-routes.ts:629-650 | descending one way is exactly ascending the other way; swapping and changing tabs are symmetric |
| RouteRelation.RelationIff | frontend/navigation-routes.ts:629-650 | one descends exactly from a route in the other's chain of parents, ascends the other way round, changes tabs between tabs, and otherwise swaps |
| RouteRelation.DescendComposes | frontend/navigation-routes.ts:629-650 | descending twice is descending |
| RouteRelation.AncestorsInLine | frontend/navigation-routes.ts:654-671 | the routes above one route are in line: ancestry is a forest order |
| RouteRelation.EqualsFaithful | frontend/navigation-routes.ts:673-678 | comparing addresses is comparing canonical routes |
| Ancestry.ClimbTo | frontend/navigation-routes.ts:654-671 | the loop, for any parent function with a falling rank |
| Ancestry.StepsInLine | frontend/navigation-routes.ts:654-671 | two things above a third are above one another, for any such parent function |
| LineChangesModel.ParseLineChanges | caffold/src/git.rs:1496-1520 | the loop over lines collects the changes of the hunk headers |
| LineChangesModel.HeaderReads | caffold/src/git.rs:1496-1527 | a printed hunk header reads back as its ranges, with or without counts, whatever section name follows |
| LineChangesModel.HeaderIff | caffold/src/git.rs:1496-1510 | which lines are read as headers; all others are passed over |
| LineChangesModel.RangeIff | caffold/src/git.rs:1522-1527 | which texts are ranges: a first line, or a first line and a count |
| GitNumbers.ParseU64Iff | caffold/src/git.rs:1522-1527 | which texts are numbers |
| LineChangesModel.AddedMeaning | caffold/src/git.rs:1496-1520 | the added ranges are increasing, apart and cover exactly the inserted lines |
| LineChangesModel.RemovedMeaning | caffold/src/git.rs:1496-1520 | the removal points are increasing and exactly the numbers of new lines before a deletion |
| LineChangesModel.LineChangesMatchEdit | caffold/src/git.rs:1496-1527 | for any alignment of two files printed as zero-context headers, with any section names after them, both of the above |
| LineChangesModel.AllLinesAddedIsEmptyEdit | caffold/src/git.rs:1531-1542 | a file compared with nothing changes as the patch from an empty file says |
| LineChangesModel.LineCountIsLines | caffold/src/git.rs:1330-1358 | newlines, plus one for an unended last line, are the lines of the text |
| LineChangesModel.TextFileLineCount | caffold/src/git.rs:1330-1358 | under every chunking the count is that of the whole, zero when there is a NUL |
| NulRecords.ParseStatusEntries | caffold/src/git.rs:1233-1261 | the loop over records is the specified reading |
| NulRecords.StatusRoundTrip | caffold/src/git.rs:1233-1261 | printed status records read back as their entries, index renames and copies included |
| NulRecords.StatusEntriesMean | caffold/src/git.rs:1233-1261 | the flags of each entry: staged and unstaged as the columns say, untracked when both say so |
| NulRecords.StatusReadIff | caffold/src/git.rs:1233-1261 | a record is read as itself in front of anything exactly when its old path is expected or too short to be an entry |
| NulRecords.WorktreeRenameMisread | caffold/src/git.rs:1233-1261 | a rename only the work tree column shows yields one entry too many |
| NulRecords.ParseNameStatus | caffold/src/git.rs:1466-1485 | the loop over records is the specified reading |
| NulRecords.NameStatusRoundTrip | caffold/src/git.rs:1466-1485 | printed name-status records read back as files, renames and copies by their new path |
| NulRecords.ParseFileDiffStatsForPath | caffold/src/git.rs:1278-1328 | the loop over records is the specified reading |
| NulRecords.FileStatsMatch | caffold/src/git.rs:1278-1328 | the counts are the sums over the records that name the path, unavailable exactly when none does or one is binary |
| RefreshCoordinatorModel.RefreshCoordinator.Request | frontend/watch.ts:96-131 | joins the run in progress, or starts one; the whole new state |
| RefreshCoordinatorModel.RefreshCoordinator.RefreshSettled | frontend/watch.ts:96-131 | refreshes again if asked to meanwhile, or ends the run; the whole new state |
| RefreshCoordinatorModel.EveryRunKeeps | frontend/watch.ts:96-131 | over every interleaving only the last refresh can be in flight, each refresh was asked for, reported states alternate |
| RefreshCoordinatorModel.StatesTell | frontend/watch.ts:96-131 | the user is told of each run's start, and then of its success or failure |
| RefreshCoordinatorModel.NoLostRefresh | frontend/watch.ts:96-131 | a promise resolves only after a successful refresh begun at or after its request, unless its run failed |
| RefreshCoordinatorModel.ResolvedIff | frontend/watch.ts:96-131 | for every resolved request: no refresh was made for it exactly when the refresh it resolved with failed and had begun before it, and none succeeded exactly when that one failed and the one before it had begun before it |
| RefreshCoordinatorModel.SettlesSoon | frontend/watch.ts:96-131 | with no more requests two settlements end the run |
| RefreshCoordinatorModel.FailureLosesRefresh | frontend/watch.ts:96-131 | a failed refresh resolves a request that came after it began |
| ShellInstall.ShellAssetResponse | frontend/service-worker.ts:618-648 | the loop for an earlier tagged copy, then the conditional request |
| ShellInstall.StoredIsFresh | frontend/service-worker.ts:618-648 | what is stored has the body a fresh request would have |
| ShellInstall.StoredIs | frontend/service-worker.ts:618-648 | the first earlier copy is kept when its tag is still the asset's; otherwise the asset is sent whole |
| ShellInstall.Installer.FinishTask | frontend/service-worker.ts:598-616 | the whole new state after one asset's task ends |
| ShellInstall.Installer.DiscardCache | frontend/service-worker.ts:598-616 | the named cache is gone and the installation rejected |
| ShellInstall.EveryOrder | frontend/service-worker.ts:598-616 | what every completion order keeps, other caches included |
| ShellInstall.AllOrNothing | frontend/service-worker.ts:598-616 | once settled the named cache is absent or holds every listed path with its fresh body |
| ShellInstall.SettlesByFailures | frontend/service-worker.ts:598-616 | when all tasks have ended the installation succeeded exactly when none failed |
| ShellInstall.ServesOneBuild | frontend/service-worker.ts:650-668 | after installation every listed path is answered from one build, whatever the network does |
| ShellInstall.ShellAnswers | frontend/service-worker.ts:650-668 | the cache first, then the network, else an unavailable answer |
| ShadowRootsModel.ShadowRoots.EachDocumentTree | frontend/shadow-roots.ts:24-44 | attaches to the document and every root, in order, then follows; the whole new state |
| ShadowRootsModel.ShadowRoots.AddShadowRoot | frontend/shadow-roots.ts:127-135 | a new root is attached for every watcher; one that is in changes nothing |
| ShadowRootsModel.ShadowRoots.RemoveShadowRoot | frontend/shadow-roots.ts:137-144 | a root's attachments are undone for every watcher; one that is not in changes nothing |
| ShadowRootsModel.ShadowRoots.StopFollowing | frontend/shadow-roots.ts:37-43 | every attachment left is undone and the subscription no longer follows |
| ShadowRootsModel.EveryRunKeeps | frontend/shadow-roots.ts:24-44 | over every run a followed subscription has one entry for each tree in order, one not followed none, and entries are the attachments not undone |
| ShadowRootsModel.SetsFollowEvents | frontend/shadow-roots.ts:127-144 | roots and watchers are what the events say |
| ShadowRootsModel.AttachmentsBalance | frontend/shadow-roots.ts:24-44 | over every run a subscription is attached to a tree exactly while it is live and the tree is in the document, once, and no attachment is undone twice |
| ShadowRootsModel.RepeatsDoNothing | frontend/shadow-roots.ts:127-144 | adding, removing or stopping again changes nothing |
| InFlightLimitModel.InFlightLimit.Observe | frontend/chunked-fetch/in-flight-limit.ts:33-56 | the whole new state after one observation |
| InFlightLimitModel.InFlightLimit.AllowedCells | frontend/chunked-fetch/in-flight-limit.ts:25-27 | the whole cells within the count, at least one |
| InFlightLimitModel.InFlightLimit.Reset | frontend/chunked-fetch/in-flight-limit.ts:17-21 | back to one cell, no usual wait and the first round |
| InFlightLimitModel.OneStep | frontend/chunked-fetch/in-flight-limit.ts:33-56 | one observation keeps the bounds, moves by at most a factor of two, and only in its round and from the network |
| InFlightLimitModel.EveryRun | frontend/chunked-fetch/in-flight-limit.ts:33-56 | over every run the count is in 1 to 128 and the usual wait is the least network wait |
| InFlightLimitModel.RoundApproaches | frontend/chunked-fetch/in-flight-limit.ts:48-54 | on a steady link, with any usual wait u, a round moves towards (u - base + 250) / slope, clamped to 1 to 128, never past it, and cuts the gap by a fixed pace |
| InFlightLimitModel.RunApproaches | frontend/chunked-fetch/in-flight-limit.ts:33-56 | from any state whose usual wait the present count does not undercut, as after any round on the link: that wait stays the usual one and the count moves as above, geometrically in the rounds, whatever stale waits above it and cached answers come between |
| InFlightLimitModel.StartApproaches | frontend/chunked-fetch/in-flight-limit.ts:12-56 | from the start, when no wait is below that of one cell alone: the usual wait is base + slope after the first round, and the count grows towards 1 + 250 / slope, clamped, never past it |
| InFlightLimitModel.StartStaysBelowIff | frontend/chunked-fetch/in-flight-limit.ts:12-56 | every run from the start stays at or below 250 / slope, clamped, exactly when that is 128 or more |
| InFlightLimitModel.StartPassesRoundTripBalance | frontend/chunked-fetch/in-flight-limit.ts:12-56 | one observation on a link takes the count past 250 / slope |
| InFlightLimitModel.EveryLinkBalances | frontend/chunked-fetch/in-flight-limit.ts:48-54 | every link has the balance (u - base + 250) / slope for a usual wait u |
| InFlightLimitModel.EveryLinkHasPace | frontend/chunked-fetch/in-flight-limit.ts:48-54 | every link has a pace below one |
| InFlightLimitModel.ComesClose | frontend/chunked-fetch/in-flight-limit.ts:33-56 | enough rounds bring the count as close to its target as wanted |
| ConnectionPager.CollectRemainingConnectionNodes | caffold/src/github.rs:577-608 | with the first page this is the list's first thousand items; the loop ends, and fails only for a missing page or cursor |

## Left out

- Percent-encoding, URL parsing and `URLSearchParams`: a codec with stated laws and an ordered list of pairs stand for them.
- Number printing past 10^21 and floating-point rounding: integers are unbounded and the controller's numbers are reals.
- Absent route fields: a route is a record in which a field a kind does not have holds the empty text, no number or false, which is what the program reads there.
- `rest` tokens and pattern compilation: no definition of the table uses a rest token, so the tokens are written out.
- Reading `null` or a path that is not text: paths are strings, and the empty-path branches of `PathText` are kept although the general case covers them.
- `sortByVisualOrder`: any function that puts the same descriptors in some order stands for it, because its comparator is not transitive.
- Geometry, focus, observers, dialogs and event wiring: a `Page` value says what a revalidation would find.
- Callbacks that re-enter the object calling them, and callbacks that throw.
- HintCodes.CompactHintCodes: requires a first letter when codes are asked for, because the depth loop would not end without one (DepthSearchEnds).
- NulRecords.StatusRoundTrip: one way only for a whole list, since a misread old path may swallow a following record that compensates for it; StatusReadIff is exact for a record.
- Bytes are characters and `str::lines` gives the list of lines; lossy decoding of text that is not UTF-8 is not modelled.
- Arithmetic on line numbers wraps at 64 bits as in a release build; the theorem on line changes is for files of fewer than 2^64 lines.
- Git and `gh` processes, the file system, HTTP handlers and JSON: only the bytes and pages they return are modelled.
- The service worker's pruning of old caches and its notifications.
- The transitions of keyboard navigation: only the reserved S key is used.
- Action ids outside the policy table are one constructor carrying the id.
