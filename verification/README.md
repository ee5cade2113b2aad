# Verification of the strategy workbench

A Dafny model of the parts of the strategy workbench on which saved work depends, with proofs of what they promise.

- **Strategy identity.** What the canonical text of a strategy identifies and what it keeps apart: the decimal text
  (`Decimals`, `DecimalText`), the JSON printer and a reader that undoes it (`JsonText`, `CanonicalJson`, `JsonShape`),
  payload normalization (`Normalization`, `SemanticIdentity`), the simple strategy (`SimpleStrategy`, `WeightSums`,
  `PayloadShape`) and the V1 strategy (`V1Payload`, `V1Text`, `V1Shape`, `V1Dictionary`), with `Sorting` and
  `KeyedImages`, and the editor's own comparison (`Snapshots`).
- **The optimistic editor.** One editor as a class (`Editor`); any number of editors, with requests that overlap, arrive
  late or are lost, against the compare-and-swap store (`EditorProtocol`); what each step does to an editor and its
  histories, field by field (`EditorHistory`); the component's part in every run
  (`EditorReplay`); the invariant of all runs (`EditorSafety`) and what follows from it (`EditorGuarantees`); on which
  revision saved work was authored and from which contents it is derived (`EditorOrigins`, `EditorSight`); and what late
  answers can do (`EditorRaces`). Handlers act on the values they captured when they were invoked. The
  three-way merge offered on a conflict is `RevisionMerge`.
- **Visual graphs.** Traversal, validation and compilation of block graphs (`Traversal`, `VisualGraph`,
  `GraphCompiler`, `ChainedActions`), and what is reported of a draft (`GraphReports`).
- **Programs and flows.** Wrapping statements in a control and choosing ids (`ProgramTree`), readdressing copied trees
  (`Readdressing`, `Addresses`), and the layered layout of the capital flow (`FlowLayout`).
- **Performance figures.** The money-weighted return (`MoneyWeightedReturn`, `CashFlows`) and the maximum drawdown
  (`Drawdown`).

`dafny verify dfyconfig.toml` checks the whole project.

## Where the code does less than one might expect

Each of these is a lemma, with the exact condition under which the code does meet the property:

- Numbers beyond 28 significant digits are identified with their rounding (`Decimals.TwentyNineDigits`,
  `Decimals.RoundExactIff`).
- A name comparison that ties different names breaks the snapshot comparison (`Snapshots.TiedNamesBreakSnapshots`,
  `Snapshots.SnapshotFaithfulIff`).
- A save can overwrite work that its author never saw, because discarding a conflict takes no new request number
  (`EditorRaces.UnseenWorkIsOverwritten`). `EditorOrigins.InStepIff` is the condition on revisions that a caller can
  check; `EditorSight.InSightIff` is the one on contents, over the remembered history of each editor, for which
  `EditorSight.UnseenOnlyFromElsewhere` gives the guard to check.
- A superseded visual test can still put up its conflict (`EditorRaces.LateConflict`, `EditorRaces.SupersededIsInertIff`).
- An edit applied during a save can be lost (`EditorGuarantees.LateSaveLosesEdit`, `EditorGuarantees.SaveKeepsWorkIff`).
- An edit applied while a conflict is shown is dropped by a reapply, because the merge is that of the work the conflict
  met (`EditorRaces.EditIsDroppedByReapply`); even an edit of what remote changed too is overwritten without the conflict
  that merging it now would report (`RevisionMerge.StaleMergeOverwritesSilently`). Address by address,
  `RevisionMerge.StaleMergeKeepsIff` and `RevisionMerge.StaleMergeIsFreshIff` say when the work is kept.
- After a reapply the next edit is refused unless the merge left the hash unchanged
  (`EditorRaces.ReappliedEditorIsStuck`, `EditorGuarantees.ReappliedAuthoring`).
- The visual compiler drops every action after the first (`ChainedActions.SecondActionIsDropped`,
  `GraphCompiler.CompiledMeaningIff`).
- Wrapping copies a root when the OTHERWISE child is no statement block but is keyed like that root
  (`ProgramTree.TwoSpellingsCopyRoot`, `ProgramTree.ConservesIff`); with statement blocks it never does
  (`ProgramTree.StatementBlocksConserve`).
- A merge loses a local reordering of items that remote has in another order (`RevisionMerge.ReorderingIsLost`,
  `RevisionMerge.LocalOrderSurvivesIff`).
- A merged record that has both a `semantic_id` and an `id`, which no class of the strategy has, can change its identity
  (`RevisionMerge.TwoNamesLoseIdentity`, `RevisionMerge.IdentitySurvivesIff`).
- Copying an event-relative or clocked value copies the ids of its source, which then occur twice in the program
  (`Readdressing.ClockedCopyIsNotFresh`, `Readdressing.ConditionFreshIff`, `Readdressing.ValueFreshIff`).
- In a V1 component only the condition and the actions are rewritten; a value expression and the else actions are
  compared as they stand (`V1Payload.PayloadIdentity`).

## Model

| member | source | states |
|---|---|---|
| `Decimals.TextReadsBack` | src/ruletrade/hashing.py:22-25 | Reading the decimal text gives back the number rounded half-even to 28 digits. |
| `Decimals.TextCanonical` | src/ruletrade/hashing.py:22-25 | Two decimals get the same text if and only if their 28-digit roundings are the same number; minus zero and zero included. |
| `Decimals.RoundExactIff` | src/ruletrade/hashing.py:22-25 | The context rounding keeps the number if and only if it drops only zero digits. |
| `Decimals.TextCanonicalExact` | src/ruletrade/hashing.py:22-25 | Within 28 significant digits, same text if and only if same number, whatever the spelling. |
| `Decimals.InexactTextCollides` | src/ruletrade/hashing.py:22-25 | Past 28 digits every inexact number shares its text with a different number, so the bound cannot be dropped. |
| `Decimals.TwentyNineDigits` | src/ruletrade/hashing.py:22-25 | 10^28 + 1 is such a number: it gets the text of 10^28. |
| `Decimals.RoundIdempotent` | src/ruletrade/hashing.py:22-25 | A rounded number is representable, and rounding it again keeps its value. |
| `DecimalText.ShortIsKept` | src/ruletrade/hashing.py:22-25 | Up to 28 digits the context keeps a number as it is. |
| `DecimalText.RoundedIff` | src/ruletrade/hashing.py:22-25 | Of a longer coefficient exactly 28 digits' worth is left: the nearest whole number of units, and the even one of two equally near. |
| `DecimalText.TextIff` | src/ruletrade/hashing.py:22-25 | The text is the only numeral of the rounded number without a needless zero or point and without minus zero. |
| `Sorting.SortDeterminedByKeys` | src/ruletrade/hashing.py:81-90 | A stable sort gives equal results on two lists if and only if the lists have, key by key, the same elements in the same order. |
| `Sorting.PermutationsSortAlike` | src/ruletrade/hashing.py:52-55 | Lists with the same elements and distinct keys sort alike. |
| `JsonText.PrintReads` | src/ruletrade/hashing.py:238-246 | A reader of JSON (objects, arrays, escapes, `\u` forms with surrogate pairs; sections 4, 5 and 7 of RFC 8259) undoes the printer and stops exactly where it did, for both ASCII and plain output. |
| `JsonText.PrintInjective` | src/ruletrade/hashing.py:238-246 | Two trees print the same text if and only if they are the same tree. |
| `JsonShape.EscapeIff` | src/ruletrade/hashing.py:241-246 | A character is written as the only text that reads back to it with the length that JSON and the ASCII option ask for (itself where it may stand, a short escape where there is one, one or two `\u` forms otherwise) and lower-case digits. |
| `JsonShape.TextStands` | src/ruletrade/hashing.py:241-246 | A text whose characters may all stand as themselves is printed unchanged between quotation marks. |
| `JsonShape.PrintAscii` | src/ruletrade/hashing.py:243 | With `ensure_ascii` every character of the printed tree is printable ASCII. |
| `CanonicalJson.SortNamesMeaning` | src/ruletrade/hashing.py:241-246 | Sorting the names at every level keeps the denoted value and leaves the tree well formed. |
| `CanonicalJson.SortedTextCharacterizes` | src/ruletrade/hashing.py:241-246 | Sorted printing gives the same text if and only if the trees denote the same value, for any strict total order on names. |
| `CanonicalJson.DumpsReads` | src/ruletrade/hashing.py:238-246 | Reading a canonical text gives back the value it was made from, and consumes it all. |
| `CanonicalJson.DumpsCharacterizes` | src/ruletrade/hashing.py:238-246 | Equal canonical text if and only if equal value, whatever the insertion order of keys. |
| `JsonShape.StringLessIff` | src/ruletrade/hashing.py:245 | Names are ordered by the first code point in which they differ, a proper prefix first. |
| `JsonShape.DumpsIff` | src/ruletrade/hashing.py:241-246 | The canonical text is the ASCII text of the one tree that denotes the value and lists all names in ascending order. |
| `JsonShape.DumpsAscii` | src/ruletrade/hashing.py:243 | A canonical text is printable ASCII. |
| `Normalization.NormalizeValue` | src/ruletrade/hashing.py:167-209 | The recursive rewriting with its dictionary and list loops computes the specification Normalized. |
| `Normalization.PopDefaults` | src/ruletrade/hashing.py:182-201 | Popping the defaults one by one leaves exactly the entries that are not defaults of an expanded literal. |
| `Normalization.NormalizedIff` | src/ruletrade/hashing.py:167-209 | Two payloads normalize alike if and only if they differ only by list versus tuple, decimal versus canonical text, and spelled-out defaults of expanded literals; stated without normalizing. |
| `Normalization.DroppedIff` | src/ruletrade/hashing.py:182-201 | An entry is dropped if and only if its dictionary is a literal with operands and the entry is one of the fourteen named defaults, in any value that normalizes to it. |
| `Normalization.NormalizedIdempotent` | src/ruletrade/hashing.py:167-209 | Normalizing twice is normalizing once. |
| `Normalization.ExpansionInvisible` | src/ruletrade/hashing.py:176-201 | Expanding any set of compact literals, at any depth, with defaults in any spelling that normalizes to them, leaves the normal form unchanged; so do respelled texts and lists turned into tuples. |
| `Normalization.DailyValueNodeExpands` | src/ruletrade/strategy/v2/daily_values.py:66-92 | A compact literal read through DailyValueNode, with its fourteen defaults dumped as the class states them, field by field (an empty tuple, a Decimal one in any spelling), is such an expansion and keeps its normal form. |
| `Normalization.DailyValueTable` | src/ruletrade/hashing.py:183-198 | The fourteen defaults meet what the results about tables ask. |
| `SemanticIdentity.CanonicalTextExists` | src/ruletrade/hashing.py:238-246 | Every normalized payload can be printed. |
| `PayloadShape.LaysIff` | src/ruletrade/hashing.py:238-246 | What the printed layouts of a value are, constructor by constructor; a dictionary lists each entry once, in any order. |
| `PayloadShape.IntTokenReads` | src/ruletrade/hashing.py:238-246 | An integer is laid out as its canonical numeral. |
| `SemanticIdentity.CanonicalTextIdentity` | src/ruletrade/hashing.py:238-246 | Two payloads get the same canonical text if and only if they have the same content. |
| `SemanticIdentity.ReopenKeepsText` | src/ruletrade/hashing.py:176-209 | A strategy reopened with expanded literals and reordered entries keeps its canonical text. |
| `SemanticIdentity.ReopenedLiteralKeepsText` | src/ruletrade/hashing.py:176-201 | In particular a literal that is reopened through DailyValueNode keeps its canonical text. |
| `SimpleStrategy.AcceptedIsUnique` | src/ruletrade/domain.py:73-86 | An accepted simple strategy has pairwise distinct symbols. |
| `WeightSums.NearOneIff` | src/ruletrade/domain.py:79-81 | A total of at most 28 digits passes if and only if it differs from 1 by at most 10^-8; the context rounding of the difference never decides. |
| `WeightSums.AcceptedIff` | src/ruletrade/domain.py:73-86 | With positive weights whose sum fits 28 digits, a spec is accepted if and only if no symbol is listed twice, the exact sum is within 10^-8 of 1, and contributions come with monthly rebalancing; the first failing check decides. |
| `PayloadShape.SymbolIs` | src/ruletrade/domain.py:27-30 | A symbol is what stands between the outer white space, with its ASCII letters in upper case. |
| `PayloadShape.PayloadEntriesOf` | src/ruletrade/hashing.py:28-57 | The payload of an accepted spec has exactly six entries: the version, currency, capital, contribution or null, rebalancing, and the assets once each in ascending order of symbols. |
| `SimpleStrategy.PayloadIdentity` | src/ruletrade/hashing.py:28-57 | Accepted simple strategies have equal payloads if and only if they agree on currency, contribution, rebalance, capital and the map from symbol to weight as numbers; name, asset order and decimal spelling do not matter. |
| `SimpleStrategy.SimpleTextIdentity` | src/ruletrade/hashing.py:238-246 | The same, for the canonical text of accepted simple strategies. |
| `SimpleStrategy.SimpleTextExists` | src/ruletrade/hashing.py:238-246 | Every simple strategy has a canonical text. |
| `SimpleStrategy.CaseIsInvisible` | src/ruletrade/domain.py:27-30 | Submissions that differ only in the case of symbols and currency are accepted or rejected alike and have the same payload. |
| `SimpleStrategy.SpellingsCollide` | src/ruletrade/domain.py:75-77 | Two spellings of one symbol are rejected as duplicates. |
| `Snapshots.SnapshotSound` | frontend/src/strategyApi.ts:37-45 | Equal snapshots are deeply equal up to member order, whatever the name comparison. |
| `Snapshots.SnapshotIsDeepEquality` | frontend/src/strategyApi.ts:37-45 | For every weak order of names, the comparison of two trees is deep equality up to member order whenever no two names of one object tie. |
| `Snapshots.SnapshotIgnoresLocale` | frontend/src/strategyApi.ts:37-45 | Which of two weak orders the runtime uses makes no difference to trees without ties. |
| `Snapshots.TiedNamesBreakSnapshots` | frontend/src/strategyApi.ts:39 | A name comparison that ties two different names makes two deeply equal trees compare as different. |
| `Snapshots.SnapshotFaithfulIff` | frontend/src/strategyApi.ts:37-45 | The comparison is deep equality on all trees if and only if no two different names tie. |
| `KeyedImages.SortedImagesIff` | src/ruletrade/hashing.py:81-90 | Mapping a sorted list gives equal results if and only if the elements of each key have equal images in the same order. |
| `KeyedImages.SortIsMultiset` | src/ruletrade/hashing.py:111-126 | Sorting by a key that is the whole element forgets the order and nothing else. |
| `V1Payload.PayloadDraft.RewriteComponents` | src/ruletrade/hashing.py:91-110 | The component loop replaces every component, in place, by its rewritten form, and fails if and only if some component cannot be rewritten. |
| `V1Payload.PayloadDraft.Rewrite` | src/ruletrade/hashing.py:79-126 | The in-place rewriting leaves every collection sorted by its key and every component rewritten. |
| `V1Payload.NormalComponents` | src/ruletrade/hashing.py:91-128 | The rewritten components are normalized one by one, in sorted order. |
| `V1Shape.ConfigIff` | src/ruletrade/hashing.py:96-105 | The configuration of a known primitive holds what was configured and the defaults of the optional fields that were not; each value is retyped by the last field of its name if it matches that type, and kept otherwise. |
| `V1Shape.UnknownKeepsConfig` | src/ruletrade/hashing.py:92-96 | An unknown primitive keeps its configuration. |
| `V1Shape.AstOfList` | src/ruletrade/hashing.py:140-149 | Only lists and dictionaries are rewritten; a list item by item. |
| `V1Shape.AstOfPlainNode` | src/ruletrade/hashing.py:146-164 | In a dictionary that is neither a literal nor a known indicator exactly the children are rewritten. |
| `V1Shape.AstOfLiteral` | src/ruletrade/hashing.py:150-152 | A literal has its value retyped by its own type, and fails without one or where the value does not match. |
| `V1Shape.AstOfIndicator` | src/ruletrade/hashing.py:153-163 | A known indicator has each parameter retyped by the last field of its name, and fails without parameters. |
| `V1Shape.ComponentParts` | src/ruletrade/hashing.py:91-110 | In a component the configuration, the condition and the actions are rewritten and nothing else. |
| `V1Shape.ImageParts` | src/ruletrade/hashing.py:91-128 | The payload holds each rewritten part of a component, normalized, in its own place. |
| `V1Shape.PayloadAscends` | src/ruletrade/hashing.py:79-126 | Every sorted collection of the payload ascends by its key (connections by source, its port, target and its port) and holds what the document's own collection holds; groups and universes keep their order. |
| `V1Payload.SemanticPayload` | src/ruletrade/hashing.py:71-128 | The method computes the payload specification, including the case where it raises. |
| `V1Payload.PayloadIdentity` | src/ruletrade/hashing.py:71-164 | Two V1 documents have the same payload if and only if they agree on the seed, on the order and content of groups and universes, id by id on asset sets, parameters, state and rewritten components (actions in order), and on connections and entrypoints as multisets; metadata is no part of it. |
| `V1Payload.ReorderingInvisible` | src/ruletrade/hashing.py:79-126 | Reordering the sorted collections, with distinct ids, and changing the metadata never changes the payload, nor whether it can be built. |
| `V1Text.PayloadValueInjective` | src/ruletrade/hashing.py:71-128 | The payload as a dictionary determines the payload. |
| `V1Dictionary.TopEntries` | src/ruletrade/hashing.py:71-128 | The dictionary has exactly the five named entries, each with its own value. |
| `V1Dictionary.DefinitionEntries` | src/ruletrade/hashing.py:79-85 | The definitions have exactly their five collections. |
| `V1Dictionary.GraphEntries` | src/ruletrade/hashing.py:86-119 | The graph has exactly its components and connections. |
| `V1Dictionary.ItemEntries` | src/ruletrade/hashing.py:79-85 | An item is its fields and its id. |
| `V1Dictionary.ComponentEntries` | src/ruletrade/hashing.py:91-110 | A component has its five entries, a value expression if there is one and its else actions if there are any. |
| `V1Dictionary.ConnectionEntries` | src/ruletrade/hashing.py:111-119 | A connection joins the port of its source to the port of its target. |
| `V1Dictionary.EntrypointEntries` | src/ruletrade/hashing.py:120-126 | An entrypoint joins an event component to a target component. |
| `V1Text.V1TextIdentity` | src/ruletrade/hashing.py:238-246 | Two V1 documents have the same canonical text if and only if they have the same meaning. |
| `V1Text.V1TextExists` | src/ruletrade/hashing.py:238-246 | Every V1 document whose payload can be built has a canonical text. |
| `Editor.V2StrategyEditor.constructor` | frontend/src/components/V2StrategyEditor.tsx:91-109 | A freshly opened editor shows the revision as base, clean. |
| `Editor.V2StrategyEditor.Issue` | frontend/src/components/V2StrategyEditor.tsx:131-133 | Issuing an authoring request takes the next sequence number. |
| `Editor.V2StrategyEditor.ReceiveAuthored` | frontend/src/components/V2StrategyEditor.tsx:131-190 | A reply to apply, undo or redo changes the state as specified, and changes nothing when a newer request was issued. |
| `Editor.V2StrategyEditor.BeginSave` | frontend/src/components/V2StrategyEditor.tsx:191-196 | A save is sent only when the editor is dirty and settled. |
| `Editor.V2StrategyEditor.AdoptRevision` | frontend/src/components/V2StrategyEditor.tsx:196-202 | An accepted save makes the saved revision base, canonical and parent. |
| `Editor.V2StrategyEditor.ShowConflict` | frontend/src/components/V2StrategyEditor.tsx:204-209 | A stale save leaves the work in place and shows the conflict. |
| `Editor.V2StrategyEditor.ReapplyConflict` | frontend/src/components/V2StrategyEditor.tsx:222-228 | Reapplying puts the merged strategy on the head revision, with the head's own hash. |
| `Editor.V2StrategyEditor.DiscardConflict` | frontend/src/components/V2StrategyEditor.tsx:229-235 | Discarding loads the head, clean, with empty histories. |
| `Editor.V2StrategyEditor.ReceivePrepared` | frontend/src/components/V2StrategyEditor.tsx:286-297 | The reply to a prepared visual test is adopted only if no newer request was issued. |
| `EditorHistory.EditRequested` | frontend/src/components/V2StrategyEditor.tsx:131-133 | Apply, undo and redo take the next number and send what is shown; until the answer only the status differs. |
| `EditorHistory.AnswerAdopted` | frontend/src/components/V2StrategyEditor.tsx:135-143 | A current answer is shown with its hash, unsaved, on the revision and base that were there, in that editor only. |
| `EditorHistory.ApplyAdopted` | frontend/src/components/V2StrategyEditor.tsx:137-138 | An adopted edit appends the strategy sent to the undo history and empties the redo history. |
| `EditorHistory.UndoAdopted` | frontend/src/components/V2StrategyEditor.tsx:179-181 | An adopted undo shortens the undo history by one, makes the strategy sent the last to redo, and enables redo. |
| `EditorHistory.RedoAdopted` | frontend/src/components/V2StrategyEditor.tsx:182-183 | An adopted redo mirrors that. |
| `EditorHistory.HistoryLengthKeptIff` | frontend/src/components/V2StrategyEditor.tsx:179-184 | An adopted undo or redo keeps the joint length of the two histories if and only if there was an entry to move, which a discard in between can have taken. |
| `EditorHistory.UndoThenRedo` | frontend/src/components/V2StrategyEditor.tsx:149-190 | Undo and then redo leaves the redo history as it was and the undo history as it was up to its last entry, and the other way round. |
| `EditorHistory.EditRefused` | frontend/src/components/V2StrategyEditor.tsx:144-148 | A refused edit changes the status only. |
| `EditorHistory.OfferedIff` | frontend/src/components/V2StrategyEditor.tsx:323-325 | Undo and redo are offered exactly when their history is not empty. |
| `EditorHistory.SaveRequestedIff` | frontend/src/components/V2StrategyEditor.tsx:191-195 | A save is sent if and only if there is unsaved, settled work, and asks for what is shown to be stored after the revision that is shown. |
| `EditorHistory.StoreAnswers` | src/ruletrade/persistence/sqlite_strategies.py:464-511 | The store appends to its head only; what the head already holds is accepted as the head and becomes no revision. |
| `EditorHistory.SaveAdopted` | frontend/src/components/V2StrategyEditor.tsx:196-202 | What an accepted save leaves in every field; a visual test also makes what was shown undoable and opens its panel. |
| `EditorHistory.StaleAnswered` | frontend/src/components/V2StrategyEditor.tsx:203-206 | A stale answer sends the save on to load the head and changes no editor. |
| `EditorHistory.ConflictMet` | frontend/src/components/V2StrategyEditor.tsx:204-209 | The conflict is that of what was captured with the loaded head; the work is kept. |
| `EditorHistory.HeadAnswered` | frontend/src/components/V2StrategyEditor.tsx:204-214 | The head that is loaded is the store's of that moment; a save that cannot load it fails. |
| `EditorHistory.SaveRefused` | frontend/src/components/V2StrategyEditor.tsx:211-213 | A refused save leaves the work alone. |
| `EditorHistory.SaveLost` | frontend/src/components/V2StrategyEditor.tsx:211-213 | A save that is lost leaves the work alone. |
| `EditorHistory.LostSaveMayArrive` | frontend/src/components/V2StrategyEditor.tsx:191-214 | A save that was lost on its way to the store may still arrive there as it was sent. |
| `EditorHistory.ConflictRefreshed` | frontend/src/components/V2StrategyEditor.tsx:217-221 | Refreshing replaces the conflict by one with the head of now. |
| `EditorHistory.Reapplies` | frontend/src/components/V2StrategyEditor.tsx:222-228 | What a reapply leaves in every field; the histories are kept. |
| `EditorHistory.Discards` | frontend/src/components/V2StrategyEditor.tsx:229-235 | What a discard leaves in every field; the histories are emptied. |
| `EditorHistory.NothingToResolve` | frontend/src/components/V2StrategyEditor.tsx:217-235 | Without a conflict, or without a merge, the buttons do nothing. |
| `EditorHistory.Opens` | frontend/src/components/V2StrategyEditor.tsx:91-109 | A mounted editor shows the stored revision, clean and without histories. |
| `EditorHistory.RunTakenUpIff` | frontend/src/components/V2StrategyEditor.tsx:236-238 | Run is taken up if and only if the editor is settled. |
| `EditorHistory.TestStarts` | frontend/src/components/V2StrategyEditor.tsx:247-255 | A test that may run saves what was shown at Run if that was unsaved, and executes the revision that was shown otherwise. |
| `EditorHistory.TestRefused` | frontend/src/components/V2StrategyEditor.tsx:239-246 | A test that may not run never executes and settles the editor. |
| `EditorHistory.TestEnds` | frontend/src/components/V2StrategyEditor.tsx:256-271 | A finished test settles the editor and keeps the work. |
| `EditorHistory.PrepareRequestedIff` | frontend/src/components/V2StrategyEditor.tsx:276-284 | A visual test asks for its edit if and only if it has one and the editor is settled. |
| `EditorHistory.PreparedEdit` | frontend/src/components/V2StrategyEditor.tsx:285-288 | Its answered edit is sent to be stored after the revision that was shown, and not shown yet. |
| `EditorHistory.PreparedEditRefused` | frontend/src/components/V2StrategyEditor.tsx:298-310 | A refused edit of a visual test changes the status only. |
| `EditorHistory.WorkReported` | frontend/src/components/V2StrategyEditor.tsx:272-275 | A working draft settles the editor or makes it unfinished. |
| `EditorHistory.HistoryWasShown` | frontend/src/components/V2StrategyEditor.tsx:131-311 | On every run of any number of editors, whatever an editor offers to undo or redo was shown by that editor earlier in the run. |
| `EditorReplay.Perform` | frontend/src/components/V2StrategyEditor.tsx:131-311 | The component's methods carry out its part of every protocol step, and no step of others touches it. |
| `EditorReplay.Replay` | frontend/src/components/V2StrategyEditor.tsx:131-311 | On every run of the protocol a component that handles the steps about itself is, at the end, in exactly the state the protocol has for its editor. |
| `EditorReplay.MountAndReplay` | frontend/src/components/V2StrategyEditor.tsx:91-311 | The same from the moment it is mounted on a stored revision. |
| `EditorSafety.InvReachable` | frontend/src/components/V2StrategyEditor.tsx:131-311 | Every state reachable by any number of editors, in any order of replies and losses, satisfies the protocol invariant. |
| `EditorGuarantees.RevisionsFormOneChain` | src/ruletrade/persistence/sqlite_strategies.py:464-511 | Accepted revisions form one chain without branches, each naming its predecessor. |
| `EditorGuarantees.SavesReplaceTheirBase` | frontend/src/components/V2StrategyEditor.tsx:191-235 | The base of the editor that sent an accepted save is exactly the content that the save replaced; what it saved may have been authored on another revision. |
| `EditorOrigins.InStepIff` | frontend/src/components/V2StrategyEditor.tsx:131-235 | All that the editors show, capture and save is authored on the revision it would replace, all through a run, if and only if no editor adopts the answer to an edit that it requested on another revision. |
| `EditorOrigins.SavesWereAuthoredOnTheirParent` | frontend/src/components/V2StrategyEditor.tsx:191-235 | In such a run every accepted save was authored on the revision that it replaced. |
| `EditorSight.InSightIff` | frontend/src/components/V2StrategyEditor.tsx:131-235 | All that the editors show, capture and save is derived from the content it would replace, all through a run, if and only if no editor adopts a strategy that is not derived from its base. |
| `EditorSight.SavesSawWhatTheyReplaced` | frontend/src/components/V2StrategyEditor.tsx:191-235 | In such a run every accepted save is derived from the content that it replaced. |
| `EditorSight.UnseenOnlyFromElsewhere` | frontend/src/components/V2StrategyEditor.tsx:131-148 | Unseen work comes only with an answer that was requested on another revision, with another base and from another content than the editor's base now. |
| `EditorRaces.LateAnswerOverwritesHead` | frontend/src/components/V2StrategyEditor.tsx:131-148 | Any editor behind the head can overwrite the head unseen: it saves, edits on, discards the conflict, adopts the late answer to its edit and saves that. |
| `EditorRaces.UnseenWorkIsOverwritten` | frontend/src/components/V2StrategyEditor.tsx:131-235 | The run in full from a fresh store: two editors, three revisions, and the second overwritten by work on the first. |
| `EditorRaces.EditorBehindHeadExists` | frontend/src/components/V2StrategyEditor.tsx:131-235 | Editors with unsaved work behind the head are reachable. |
| `EditorGuarantees.EditorsStayConsistent` | frontend/src/components/V2StrategyEditor.tsx:131-235 | In every reachable state the base is the stored content of the editor's revision, a clean editor shows its base, and the source hash is that of what is shown outside the window that a reapply opens. |
| `EditorGuarantees.ReappliedAuthoring` | frontend/src/components/V2StrategyEditor.tsx:222-228 | After a reapply the authoring service can accept the next operation if and only if the merge did not change the hash. |
| `EditorRaces.ReapplyBlocksAuthoring` | frontend/src/components/V2StrategyEditor.tsx:222-228 | An editor behind the head whose merge has another hash than the head is, after its reapply, refused every edit. |
| `EditorRaces.ReappliedEditorIsStuck` | frontend/src/components/V2StrategyEditor.tsx:222-228 | That situation is reachable from a fresh store. |
| `EditorRaces.ReapplyDropsEdit` | frontend/src/components/V2StrategyEditor.tsx:204-228 | An edit that is applied while a conflict is shown is in no part of the editor after a reapply. |
| `EditorRaces.EditIsDroppedByReapply` | frontend/src/components/V2StrategyEditor.tsx:204-228 | That run in full from a fresh store. |
| `EditorRaces.LatestRequestWins` | frontend/src/components/V2StrategyEditor.tsx:109-148 | Of two numbered requests of one editor in flight, at most one is not superseded. |
| `EditorRaces.SupersededEffect` | frontend/src/components/V2StrategyEditor.tsx:131-311 | The whole effect of an answer to a superseded request on all editors: none, except that a prepared save past its stale answer still reports on the head. |
| `EditorRaces.SupersededIsInertIff` | frontend/src/components/V2StrategyEditor.tsx:276-310 | In an editor that shows no failure, a superseded request can change nothing if and only if it is not a prepared save past its stale answer. |
| `EditorRaces.LateConflict` | frontend/src/components/V2StrategyEditor.tsx:300-305 | Such a save does put up its conflict over a newer edit that is current. |
| `EditorRaces.LateConflictExists` | frontend/src/components/V2StrategyEditor.tsx:300-305 | That situation is reachable from a fresh store. |
| `EditorGuarantees.QuickTestsRunWhatWasShown` | frontend/src/components/V2StrategyEditor.tsx:53-59 | Every quick test runs on a stored revision whose content is exactly what was shown when Run was pressed. |
| `EditorGuarantees.FailedTestsNeverExecute` | frontend/src/components/V2StrategyEditor.tsx:236-271 | A quick test whose preflight or save failed or conflicted never executes, in any continuation. |
| `EditorGuarantees.SaveKeepsWorkIff` | frontend/src/components/V2StrategyEditor.tsx:191-202 | The reply to an accepted save leaves what is shown unchanged if and only if the editor still shows what it showed when Save was pressed. |
| `EditorGuarantees.LateSaveLosesEdit` | frontend/src/components/V2StrategyEditor.tsx:131-202 | Edits can be lost: an edit applied while a save is in flight disappears from the editor when the save's reply arrives last, and the editor calls itself clean. |
| `EditorGuarantees.EditedEditorExists` | frontend/src/components/V2StrategyEditor.tsx:131-148 | The situation in which an edit is lost is reachable. |
| `RevisionMerge.MergeValue` | frontend/src/domain/builderRevisionConflict.ts:23-59 | The recursive merge with its accumulating loops computes the specification Merged. |
| `RevisionMerge.MergeReconciles` | frontend/src/domain/builderRevisionConflict.ts:23-59 | A merge without conflict holds, at every address of field names and item identities, the remote value where local left the base alone, the local value where remote did, and the common value where they agree; the order of list items has no address. |
| `RevisionMerge.MergedListOrder` | frontend/src/domain/builderRevisionConflict.ts:34-45 | A merged list has the items of remote in order, then those only in local, then those only in base, less the ones that are gone. |
| `RevisionMerge.LocalOrderSurvivesIff` | frontend/src/domain/builderRevisionConflict.ts:34-45 | Two items keep the order that local gave them if and only if remote lacks the later one or has both in that order. |
| `RevisionMerge.ReorderingIsLost` | frontend/src/domain/builderRevisionConflict.ts:34-45 | A local reordering beside a remote edit of one item disappears, without a conflict and without a reported local change. |
| `RevisionMerge.StaleMergeKeepsIff` | frontend/src/domain/builderRevisionConflict.ts:23-59 | At every address that one side left alone or both agree on, a merge of earlier local work holds the work shown later if and only if that is still what was sent, where remote left the base alone, and is what remote has, where it did not. |
| `RevisionMerge.UndecidedIsMergeable` | frontend/src/domain/builderRevisionConflict.ts:28-56 | In a merge without conflict every other address is merged child by child. |
| `RevisionMerge.StaleMergeIsFreshIff` | frontend/src/domain/builderRevisionConflict.ts:23-59 | Where merging the later work has no conflict either, at an address decided for both, the earlier merge and the later one agree if and only if the work was not changed where remote left the base alone. |
| `RevisionMerge.StaleMergeOverwritesSilently` | frontend/src/domain/builderRevisionConflict.ts:23-71 | A merge of earlier work without conflict puts remote's field in the place of one changed later, although the work is what was sent wherever remote left the base alone, and merging it now would report the conflict. |
| `RevisionMerge.MergedChild` | frontend/src/domain/builderRevisionConflict.ts:28-56 | Merging without conflict commutes with looking under a field name or an item's identity. |
| `RevisionMerge.ConflictIff` | frontend/src/domain/builderRevisionConflict.ts:23-71 | A conflict is reported if and only if at some address all three values differ and cannot be merged child by child. |
| `RevisionMerge.ConflictSymmetric` | frontend/src/domain/builderRevisionConflict.ts:23-71 | Swapping local and remote never changes whether there is a conflict. |
| `RevisionMerge.IdentitySurvives` | frontend/src/domain/builderRevisionConflict.ts:14-19 | Merging three versions of an item that names itself once keeps its identity. |
| `RevisionMerge.IdentitySurvivesIff` | frontend/src/domain/builderRevisionConflict.ts:14-19 | Merging three versions of an item without conflict keeps its identity if and only if neither side drops the `semantic_id` that the other side goes by while changing the `id`. |
| `RevisionMerge.TwoNamesLoseIdentity` | frontend/src/domain/builderRevisionConflict.ts:14-19 | Such an item, with both names in base and remote, changes its identity in a merge without conflict. |
| `RevisionMerge.ListedExact` | frontend/src/domain/builderRevisionConflict.ts:63-68 | A reported list of paths holds each path once, in order. |
| `RevisionMerge.PathsIff` | frontend/src/domain/builderRevisionConflict.ts:23-59 | A path is reported of a kind if and only if it leads to an address that every step above left undecided and merged child by child, and the three values there are decided or cannot be merged and differ in the way of that kind. |
| `RevisionMerge.MergedFieldsSorted` | frontend/src/domain/builderRevisionConflict.ts:48-55 | The fields of a merged record are sorted by name. |
| `RevisionMerge.IdentityIff` | frontend/src/domain/builderRevisionConflict.ts:14-19 | An item is identified by the text of its `semantic_id`, by that of its `id` if it has no `semantic_id` or null there, and by nothing else. |
| `RevisionMerge.ItemIff` | frontend/src/domain/builderRevisionConflict.ts:31-33 | Of several items with one identity the last stands for it. |
| `RevisionMerge.MergeableIff` | frontend/src/domain/builderRevisionConflict.ts:28-48 | Child by child are merged three records, and three lists in which every item has an identity; nothing else. |
| `RevisionMerge.OthersClash` | frontend/src/domain/builderRevisionConflict.ts:30-58 | Whatever else differs three ways is remote's, a change of both sides and a conflict, at its own path. |
| `RevisionMerge.Analyze` | frontend/src/domain/builderRevisionConflict.ts:61-71 | A path is listed as a conflict, a local change or a remote change if and only if it is the path of an address where the recursion stops and the three versions differ so; each list is sorted without repetition; a merged strategy is offered if and only if no address clashes, and reconciles both sides. |
| `Traversal.Walk.VisitFrom` | frontend/src/domain/activeVisualGraph.ts:70-76 | The depth-first closure over its mutable visited set visits what the specification says, and terminates on every graph. |
| `Traversal.VisitExact` | frontend/src/domain/activeVisualGraph.ts:70-76 | From a root the walk visits exactly the reachable nodes, each once, on cyclic graphs too. |
| `Traversal.ReachedPartIsTree` | frontend/src/domain/activeVisualGraph.ts:68-76 | Where every child has one parent, there is one path from a parentless root to each reached node. |
| `Traversal.TreesDisjoint` | frontend/src/domain/activeVisualGraph.ts:68-76 | The parts reached from two parentless roots share no node. |
| `Traversal.WalkIsPreorder` | frontend/src/domain/activeVisualGraph.ts:70-76 | Over a tree the walk lists the root and then, child by child in their order, the walk over each child's own tree. |
| `VisualGraph.BuildChildren` | frontend/src/domain/activeVisualGraph.ts:43-46 | The child map lists each parent's children in connection order. |
| `VisualGraph.Validate` | frontend/src/domain/activeVisualGraph.ts:41-91 | The validator computes the specified graphs and diagnostics. |
| `VisualGraph.GroupByEvent` | frontend/src/domain/activeVisualGraph.ts:60-64 | The roots are grouped by event type, the types in order of first appearance. |
| `VisualGraph.CollectDuplicates` | frontend/src/domain/activeVisualGraph.ts:65-67 | Every Start of an event type with several Starts is reported. |
| `GraphCompiler.AcceptsIff` | frontend/src/domain/entryStyleGrammar.ts:105-109 | A slot takes the types that it names, groups where it names AssetSet, and every kind of amount where it names Value. |
| `GraphReports.MismatchReportedIff` | frontend/src/domain/activeVisualGraph.ts:44-56 | A mismatch is reported for a block if and only if some connection puts that known block into a slot of a known parent which does not take it. |
| `GraphReports.StartsIff` | frontend/src/domain/activeVisualGraph.ts:57-59 | The Starts are the blocks whose definition is a hat. |
| `GraphReports.EventOfStart` | frontend/src/domain/activeVisualGraph.ts:34 | A Start's event is its kind without the prefix. |
| `GraphReports.DuplicateReportedIff` | frontend/src/domain/activeVisualGraph.ts:60-67 | A Start is reported as a duplicate if and only if another Start has its event. |
| `GraphCompiler.ValidIff` | frontend/src/domain/activeVisualGraph.ts:44-67 | A draft is valid if and only if no connection puts a known block where the slot does not take it and no two Starts have the same event type. |
| `GraphCompiler.GraphsAreDisjointTrees` | frontend/src/domain/activeVisualGraph.ts:68-89 | Each returned graph, a single one included, lists exactly the blocks reachable from its root, once each, as a tree; graphs of different roots share no block. |
| `GraphCompiler.GraphsArePreorder` | frontend/src/domain/activeVisualGraph.ts:68-89 | A returned graph lists its Start and then, in connection order, each child with what hangs below it. |
| `GraphCompiler.ReadyIff` | frontend/src/domain/activeVisualGraph.ts:77-88 | A graph is ready if and only if every reachable block with a known definition has all slots filled and a verified execution contract. |
| `GraphReports.CapabilityIff` | frontend/src/domain/activeVisualGraph.ts:27-32 | Each capability, by what hangs below the Start: a missing input comes first, then a draft-only block, then one that needs a context. |
| `GraphReports.CompiledIff` | frontend/src/domain/activeVisualGraph.ts:98-126 | The compiler answers an operation if and only if the draft is valid with one ready graph that draws the rebalance of one named asset to 100 per cent at a supported Start; the operation is that one. |
| `GraphReports.OutcomeIff` | frontend/src/domain/activeVisualGraph.ts:98-106 | Why a draft is not compiled, and which Start is named. |
| `GraphCompiler.FragmentInvisible` | frontend/src/domain/activeVisualGraph.ts:98-126 | Adding a disconnected, well-typed fragment without a Start never changes the compile result. |
| `GraphCompiler.CompiledMeaningIff` | frontend/src/domain/activeVisualGraph.ts:110-125 | A compiled operation means what its graph draws if and only if nothing is chained after the rebalance: the compiler drops every further action. |
| `ChainedActions.SecondActionIsDropped` | frontend/src/domain/activeVisualGraph.ts:98-126 | A draft of seven blocks is valid, ready and compiles, and its second rebalance is dropped. |
| `GraphCompiler.FourBlockMeaning` | frontend/src/domain/activeVisualGraph.ts:98-126 | On a well-kept draft of exactly four blocks, compiling preserves schedule, asset and weight. |
| `Readdressing.ConditionRewrittenFresh` | frontend/src/components/SemanticProgramBuilderAdapter.tsx:451-456 | The nodes of a condition that readdressing rewrites get as many different ids as they are, all below the prefix. |
| `Readdressing.ValueRewrittenFresh` | frontend/src/components/SemanticProgramBuilderAdapter.tsx:458-467 | The same for values, scores and their terms. |
| `Readdressing.ConditionFreshIff` | frontend/src/components/SemanticProgramBuilderAdapter.tsx:451-467 | All ids of a copied condition are distinct and below the prefix if and only if the ids within its event-relative and clocked values are so and meet none of the new ones. |
| `Readdressing.ValueFreshIff` | frontend/src/components/SemanticProgramBuilderAdapter.tsx:458-467 | The same for copied values. |
| `Readdressing.ConditionFresh` | frontend/src/components/SemanticProgramBuilderAdapter.tsx:451-456 | A condition without event-relative and clocked values is always copied afresh. |
| `Readdressing.ValueFresh` | frontend/src/components/SemanticProgramBuilderAdapter.tsx:458-467 | The same for values. |
| `Readdressing.CopyRepeatsSources` | frontend/src/components/SemanticProgramBuilderAdapter.tsx:466 | A tree and its copy together have every id within an event-relative or clocked value twice. |
| `Readdressing.ClockedCopyIsNotFresh` | frontend/src/components/SemanticProgramBuilderAdapter.tsx:484-492 | Remembering the trigger value of an event on the weekly close, and making a state change depend on its condition, copy the id of the weekly source. |
| `Readdressing.ConditionKept` | frontend/src/components/SemanticProgramBuilderAdapter.tsx:451-456 | Readdressing changes the ids it rewrites and nothing else. |
| `Readdressing.ValueKept` | frontend/src/components/SemanticProgramBuilderAdapter.tsx:458-467 | The same for values. |
| `Readdressing.ConditionDetermined` | frontend/src/components/SemanticProgramBuilderAdapter.tsx:451-456 | Conditions equal up to the ids that are rewritten are readdressed alike. |
| `Readdressing.ValueDetermined` | frontend/src/components/SemanticProgramBuilderAdapter.tsx:458-467 | The same for values. |
| `Readdressing.SameCopyIff` | frontend/src/components/SemanticProgramBuilderAdapter.tsx:451-467 | Two trees have the same copy if and only if they are equal up to the ids that are rewritten. |
| `Readdressing.ReaddressTwice` | frontend/src/components/SemanticProgramBuilderAdapter.tsx:451-467 | Readdressing a readdressed tree forgets the earlier prefix; with the same prefix it changes nothing. |
| `Addresses.AddressOf` | frontend/src/components/SemanticProgramBuilderAdapter.tsx:451-467 | The id of every rewritten node, at any depth, is the prefix, the names and numbers of the steps that lead to it, and the word for its kind. |
| `FlowLayout.BuildIncoming` | frontend/src/components/SemanticProgramBuilderAdapter.tsx:100-105 | The incoming map lists each node's parents in edge order, and holds only nodes with parents. |
| `FlowLayout.DepthTable.Visit` | frontend/src/components/SemanticProgramBuilderAdapter.tsx:107-116 | The memoised recursion terminates on every graph, and on an acyclic one answers and records longest-path lengths from a parentless node. |
| `FlowLayout.DepthTable.VisitParents` | frontend/src/components/SemanticProgramBuilderAdapter.tsx:111-113 | The greatest depth over the parents, each visited with the node in progress, is one more than the greatest longest path among them. |
| `FlowLayout.PlaceNodes` | frontend/src/components/SemanticProgramBuilderAdapter.tsx:118-134 | Each node stands where its index among the nodes of its row puts it. |
| `FlowLayout.Project` | frontend/src/components/SemanticProgramBuilderAdapter.tsx:99-134 | Every node is drawn once, in centred rows; positions of two nodes are equal if and only if they are the same node; without cycles the row is the longest-path length. |
| `FlowLayout.EdgesPointDown` | frontend/src/components/SemanticProgramBuilderAdapter.tsx:107-130 | In an acyclic flow every edge leads at least one row down. |
| `FlowLayout.SpotsDistinct` | frontend/src/components/SemanticProgramBuilderAdapter.tsx:118-130 | Two nodes share a position if and only if they are the same node, on every graph. |
| `FlowLayout.RowsAreSpread` | frontend/src/components/SemanticProgramBuilderAdapter.tsx:118-130 | The nodes of a row stand from left to right in node order, 250 apart where there are more than two and 300 apart otherwise, around 480. |
| `FlowLayout.RowCentred` | frontend/src/components/SemanticProgramBuilderAdapter.tsx:127-130 | The k-th place from the left and from the right of a row mirror each other about 480. |
| `ProgramTree.FlattenAppend` | frontend/src/components/SemanticProgramBuilderAdapter.tsx:37-43 | Listing a concatenation lists the parts one after the other. |
| `ProgramTree.FlattenCounts` | frontend/src/components/SemanticProgramBuilderAdapter.tsx:37-43 | A listing names each statement as often as it occurs in the program: in both parts of a control, in an event, and as primary, override action or fallback. |
| `ProgramTree.FlattenExact` | frontend/src/components/SemanticProgramBuilderAdapter.tsx:37-43 | A listing holds exactly what occurs in the program, at any depth. |
| `ProgramTree.UsedExact` | frontend/src/components/SemanticProgramBuilderAdapter.tsx:160 | The used ids are those of the statements that occur. |
| `ProgramTree.NextId` | frontend/src/components/SemanticProgramBuilderAdapter.tsx:159-164 | No statement that occurs in the program has the id; it is the first free number from the count of used ids on, found within that count plus one probes. |
| `ProgramTree.CompileControlDraft` | frontend/src/components/SemanticProgramBuilderAdapter.tsx:292-312 | The answer exists if and only if the drawing is complete; the control takes the place of the first wrapped root and every other root keeps its order. |
| `ProgramTree.RequestedIff` | frontend/src/components/SemanticProgramBuilderAdapter.tsx:293-301 | A drawing is complete if and only if it has a condition, its THEN input names a root, and its ELSE input does too unless it is empty. |
| `ProgramTree.ControlAnswers` | frontend/src/components/SemanticProgramBuilderAdapter.tsx:304-309 | The control holds the root that THEN asks for and the one that ELSE asks for, each in its own branch, with the policy for an unknown condition and the clock that go with them. |
| `ProgramTree.ConservesIff` | frontend/src/components/SemanticProgramBuilderAdapter.tsx:292-312 | With distinct root ids every statement occurs as often as before and the control once more if and only if the two branches name different roots and an empty OTHERWISE name meets no unnamed root. |
| `ProgramTree.StatementBlocksConserve` | frontend/src/components/SemanticProgramBuilderAdapter.tsx:292-312 | With connections keyed by child and statement blocks in both inputs, nothing is ever lost or copied. |
| `ProgramTree.TwoSpellingsCopyRoot` | frontend/src/components/SemanticProgramBuilderAdapter.tsx:295-296 | A draft keyed by child whose OTHERWISE child is keyed like a root, without the statement prefix, copies that root. |
| `ProgramTree.DistinctAfterWrap` | frontend/src/components/SemanticProgramBuilderAdapter.tsx:292-312 | A conserving wrap keeps every statement single and identified by its id if and only if no statement of the program has the control's id. |
| `MoneyWeightedReturn.Xirr` | src/ruletrade/metrics.py:51-85 | There is no answer if and only if the flows lack a sign or every probe up to 2^19 has the sign of the probe at -0.999999; an answer is a rate of almost zero value or the middle of a sign-change bracket at most (2^19 + 1)/2^200 wide. |
| `MoneyWeightedReturn.Bisect` | src/ruletrade/metrics.py:72-85 | Bisection keeps a sign change in an interval that it halves every time. |
| `MoneyWeightedReturn.LastUpperEnd` | src/ruletrade/metrics.py:61-70 | The greatest upper end that the search tries is 524288. |
| `CashFlows.BuildFlows` | src/ruletrade/metrics.py:105-107 | The flows of a run are the negated capital, the negated contributions and the final value. |
| `CashFlows.NpvAtZero` | src/ruletrade/metrics.py:38-48 | At rate 0 the net present value of any flows is their sum. |
| `CashFlows.TotalOfRun` | src/ruletrade/metrics.py:102-112 | The sum of a run's flows is its investment profit. |
| `CashFlows.FutureValue` | src/ruletrade/metrics.py:38-48 | The present value, grown to the last day, is the final value less what every amount paid in would have grown to. |
| `CashFlows.NpvCrosses` | src/ruletrade/metrics.py:38-48 | Around a zero rate the net present value of a run falls from positive to negative. |
| `CashFlows.OwedByRate` | src/ruletrade/metrics.py:38-48 | When money was paid in before the last day, a greater rate makes it grow to strictly more. |
| `CashFlows.AnswerIsClose` | src/ruletrade/metrics.py:73-85 | An answer of the search has a value between -10^-8 and 10^-8 or lies within half the last bracket's width of the crossing, on either side. |
| `CashFlows.ZeroRateUniqueIff` | src/ruletrade/metrics.py:102-112 | A run has at most one rate of zero value if and only if money was paid in before the last day or the profit is not zero. |
| `CashFlows.ZeroRateSign` | src/ruletrade/metrics.py:102-112 | The zero rate is positive, or negative, exactly when the investment profit is. |
| `CashFlows.NoBracketIff` | src/ruletrade/metrics.py:61-70 | The search gives up if and only if the zero rate lies below -0.999999 or above 2^19. |
| `CashFlows.RunReturn` | src/ruletrade/metrics.py:51-85 | For a run with a zero rate the answer exists if and only if that rate is in range, and is then of almost zero value or within half the last bracket's width of it. |
| `Drawdown.DrawdownIsWorstLoss` | src/ruletrade/metrics.py:18-24 | The running-maximum form computes the least change between a day and a later one, and NaN only for a series without prices. |
| `Drawdown.PresentParts` | src/ruletrade/metrics.py:19 | Dropping missing prices acts on each price by itself and keeps their order. |
| `Drawdown.DrawdownRange` | src/ruletrade/metrics.py:18-24 | A drawdown is above -1 and at most 0, and is 0 if and only if the prices never fall. |
| `Drawdown.DrawdownScaleFree` | src/ruletrade/metrics.py:18-24 | Scaling all prices by a positive factor changes nothing. |

## Left out

Parts of the repository that are not modelled:

- React rendering, the Blockly and flow canvases, all network clients, FastAPI routing, LEAN runs and CSV loading.
- SHA-256: identity is stated on the canonical text, and the editor protocol takes the hash as a function.
- `annualized_sharpe`, CAGR and the rest of the metrics dictionary: library statistics and real roots.
- `_core_semantic_payload` and the V2 branch of `semantic_payload`: both only pass a dump to `_normalize_value`, which is modelled on every dump.
- The history operation that undo and redo replay: the protocol lets it be any operation, so that undoing is not claimed to restore the earlier strategy, which the code does not do.

What the models abstract from:

- Floating-point rounding, NaN and infinity in the metrics: the arithmetic is over exact reals.
- The power function of `xnpv` is a parameter with the laws of powers it needs (a positive daily growth, compounded); the year is a parameter of those laws and is 365 days in `RunReturn`.
- Strings are sequences of Unicode scalars: lone surrogates cannot be written, and name order is by code point where JavaScript compares UTF-16 units.
- Numbers other than integers are opaque JSON number tokens, so distinct spellings of one float are distinct numbers.
- Dictionaries have string keys; `str(key)` on other keys is not modelled.
- Decimals are finite, and exponents are unbounded: NaN, infinities, signals and exponent limits are not modelled.
- Symbol and currency normalisation covers ASCII letters and ASCII white space; the length, range and pattern checks of single fields are not modelled.
- The V1 document is a record with one field for each dictionary key (`V1Text` gives the dictionary of its payload), its registry is a parameter, and value matching and typing are one parameter function that answers None where the value does not match. Error kinds are not told apart.
- The authoring service is any function that checks the hash it is given and answers any strategy or an error. The merge is a parameter of the editor protocol, and RevisionMerge proves what the function used for it does.
- The server is taken to keep the content of an accepted save as it was sent; archiving is not modelled.
- Messages, reasons, labels, the operation's id suffix and the test panel's texts are not modelled.
- Block definitions and JavaScript's conversions of a field to a number or a string are parameters of the graph modules; message texts are not compared.
- The order of integer-like field names in JavaScript objects, and JSON text as the test of sameness in the merge: nodes are compared as ordered trees.
- The UI fields of flow nodes other than the id, the position and the two handles are not modelled.
- Prices are taken to be positive; a division by a zero price is not modelled.

Contracts that are stated under a condition of their own:

- RevisionMerge.MergeReconciles: asks that no record carries both a `semantic_id` and an `id`, as the types in `frontend/src/domain/canonicalV2.ts` have it, because RevisionMerge.TwoNamesLoseIdentity shows that a record with both can change its identity.
- RevisionMerge.Analyze: states the reconciliation under the same condition.
- RevisionMerge.StaleMergeKeepsIff: is about decided addresses under the same condition; RevisionMerge.UndecidedIsMergeable says what the others are.
- RevisionMerge.StaleMergeIsFreshIff: is about addresses decided for both merges, under the same condition.
- RevisionMerge.MergedListOrder: states the order under the same condition.
- Snapshots.SnapshotIsDeepEquality: is about trees without tied names, because Snapshots.TiedNamesBreakSnapshots shows that a tie can break it.
- EditorGuarantees.SavesReplaceTheirBase: says nothing of where the saved work was authored, because EditorRaces.UnseenWorkIsOverwritten shows that it can be elsewhere.
- FlowLayout.DepthTable.Visit: on a graph with cycles states only that the recursion ends and what it leaves unchanged, because the value then depends on the visiting order.
- CashFlows.ZeroRateUniqueIff: is about positive capital, contributions that are not withdrawals, and no payment after the last day.
- GraphCompiler.GraphsAreDisjointTrees: asks that blocks and connections are keyed uniquely and that a Start is nobody's child, as the draft's records have it.
- ProgramTree.ConservesIff: asks for distinct root ids.
- WeightSums.AcceptedIff: is about positive weights whose sum needs no more than 28 digits, as weights of at most 1 with up to 26 decimals have it.
- FlowLayout.RowsAreSpread: is about flows in which no node is listed twice.
