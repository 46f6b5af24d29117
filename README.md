# Quiz builder: editing and persistence logic in Dafny

This project models the logic behind a browser quiz builder. An author puts
together a list of typed blocks (heading, question, button, footer). The
author edits each question's options and saves the quiz to the browser's
local storage. A quiz can be published once it passes four validation rules.
The model covers the seven sources of that logic, one Dafny module each:

| module | file | models |
|---|---|---|
| `QuizTypes` | `quiz_types.dfy` | `types/quiz.ts`: blocks, quizzes, the editor state; the whitespace set of `trim()` |
| `QuizEditorHook` | `editor_state.dfy` | `hooks/useQuizEditor.ts`: the block-list editor (class `Editor`) |
| `QuizValidation` | `validation.dfy` | `hooks/useQuizValidation.ts`: the publish rules |
| `QuizStorageAdapter` | `storage.dfy` | `lib/quizStorage.ts`: the local-storage adapter (class `QuizStorage`) |
| `QuizManagerHook` | `manager.dfy` | `hooks/useQuizManager.ts`: the quiz list cache (class `QuizManager`) |
| `PropertiesPanel` | `properties_panel.dfy` | `components/PropertiesPanel.tsx`: option-list editing, as functions from old to new properties |
| `ConfirmationHook` | `confirmation.dfy` | `hooks/useConfirmation.ts`: the confirmation dialog (class `Confirmation`) |
| `QuizEditorComponent` | `quiz_editor.dfy` | `components/QuizEditor.tsx`: drag dispatch, save, the publish gate (class `QuizEditor`) |

`wrappers.dfy` holds `Option`, `Result` and `Outcome`.

**State and the style of the model.** Each React hook is a class. Its
methods apply one state transition synchronously. Each method's
postcondition gives the whole new state in terms of pure functions, and the
lemmas prove properties of those functions. The browser store is a
`map<string, Stored>` held by `QuizStorage`. Two constants describe how the
environment can fail:

- `disabled`: every storage access throws.
- `rejected`: the keys whose `setItem` throws, for example because the quota is full.

An exception is modelled as a `Fail`/`Err` result, and the steps after it
do not run.

**JSON.** JSON text is abstract. A stored text is either the serialisation
of a document (`Json(doc)`) or text that `JSON.parse` rejects (`Malformed`).
A parsed quiz object records, for each of its six fields, whether the field
is present with the expected type. That is all `isValidQuiz` inspects.
`Serialize` is the stringify/parse pair. Parsing what it produces gives back
the quiz, and `ValidIsSerialized` proves the converse.

**Environment values become parameters.** Fresh ids (`crypto.randomUUID()`)
and the clock (`new Date()`) are passed in as arguments. Timestamps are
integers. Where the code depends on an id being fresh, the method requires
that the id is not already in use.

**Behaviour of the code that the model keeps as written:**

- `deleteQuiz` swallows every failure. It uses raw storage calls, so it never raises `STORAGE_READ_ERROR` or `STORAGE_WRITE_ERROR`. If the index rewrite fails after the record was removed, the removal stays.
- `getAllQuizzes` runs `initialize` outside its own `try`. On disabled storage it therefore throws a raw error instead of returning a list.
- `getQuiz` turns a read failure into "no quiz".
- `initialize` swallows a failing write. Writes made before the failure stay in the store. The flag stays unset, so the next call seeds again.
- `saveQuiz` re-throws every failure. A failure after the record write leaves that write in place.
- An `updateBlock` or `updateQuiz` whose update carries an `id` does change the id, because it is a plain object spread.
- When a new quiz is loaded into the editor, the block selection is kept. The sync effect calls `setBlocks`, which keeps `selectedBlockId`.
- `createQuiz` on a store whose first-run flag is not set loses the new quiz from the listing. The reload runs `initialize`, which seeds again and overwrites the index with the two sample ids. The new record stays stored but is no longer indexed. This is why `QuizManager.CreateQuiz` promises that the cache holds the new quiz only when the flag is set.

The second sample's footer text is `"\U{00C2}\U{00A9} 2025 Quiz Builder"`:
the source literal holds a copyright sign preceded by U+00C2, and the model
keeps both characters.

## Model

| member | source | states |
|---|---|---|
| QuizEditorHook.NewBlock | hooks/useQuizEditor.ts:19-34 | a new block has the given id and type and empty content; a question gets single choice with options ["Option 1"], other types get no properties |
| QuizEditorHook.InsertAt | hooks/useQuizEditor.ts:37-39 | `splice(i, 0, x)` on a copy: one longer, `x` at `i`, earlier elements in place, later ones shifted by one |
| QuizEditorHook.RemoveAt | hooks/useQuizEditor.ts:76-77 | `splice(i, 1)` on a copy: one shorter, elements before `i` in place, later ones shifted back |
| QuizEditorHook.Merge | hooks/useQuizEditor.ts:58 | `{...block, ...updates}`: each field comes from the update when present there, else from the block |
| QuizEditorHook.UpdateMatching | hooks/useQuizEditor.ts:57-59 | same length; each block with the id is merged with the update, every other block is unchanged |
| QuizEditorHook.RemoveMatching | hooks/useQuizEditor.ts:68 | no kept block has the id; every block without the id is kept, and nothing else |
| QuizEditorHook.Moved | hooks/useQuizEditor.ts:74-81 | same length; the block from `from` is at `to`; removing it from both lists leaves the same list |
| QuizEditorHook.MergeIdempotent | hooks/useQuizEditor.ts:58 | merging the same update twice equals merging it once |
| QuizEditorHook.UpdateMatchingIdempotent | hooks/useQuizEditor.ts:53-63 | applying `updateBlock(id, u)` twice equals applying it once |
| QuizEditorHook.UpdateMatchingNoMatch | hooks/useQuizEditor.ts:57-59 | with no block carrying the id, the update leaves the list unchanged |
| QuizEditorHook.RemoveMatchingNoMatch | hooks/useQuizEditor.ts:68 | deleting an absent id leaves the list unchanged |
| QuizEditorHook.RemoveMatchingAppend | hooks/useQuizEditor.ts:68 | the filter distributes over concatenation, so the kept blocks stay in order |
| QuizEditorHook.RemoveMatchingCounts | hooks/useQuizEditor.ts:68 | each block with the id is dropped and every other block keeps its multiplicity |
| QuizEditorHook.InsertAtMultiset | hooks/useQuizEditor.ts:39 | an insertion adds exactly the new element to the multiset |
| QuizEditorHook.RemoveAtMultiset | hooks/useQuizEditor.ts:77 | a removal takes exactly the removed element out of the multiset |
| QuizEditorHook.MovedIsPermutation | hooks/useQuizEditor.ts:74-81 | a move is a permutation |
| QuizEditorHook.MovedBack | hooks/useQuizEditor.ts:74-81 | moving from `to` back to `from` restores the list |
| QuizEditorHook.Editor.constructor | hooks/useQuizEditor.ts:4-8 | the initial blocks, no selection |
| QuizEditorHook.Editor.SetBlocks | hooks/useQuizEditor.ts:10-15 | replaces the blocks only; the selection is kept |
| QuizEditorHook.Editor.AddBlock | hooks/useQuizEditor.ts:17-44 | inserts the new block at the index, or at the end without one; selects it; it is the only block with its id |
| QuizEditorHook.Editor.InsertBlock | hooks/useQuizEditor.ts:46-51 | exactly `AddBlock` with the index given |
| QuizEditorHook.Editor.UpdateBlock | hooks/useQuizEditor.ts:53-63 | blocks become `UpdateMatching`; the selection is unchanged |
| QuizEditorHook.Editor.DeleteBlock | hooks/useQuizEditor.ts:65-72 | blocks become `RemoveMatching`; the selection is cleared only when it was the deleted id |
| QuizEditorHook.Editor.MoveBlock | hooks/useQuizEditor.ts:74-81 | blocks become `Moved` and are a permutation of the old ones; the selection is unchanged |
| QuizEditorHook.Editor.SelectBlock | hooks/useQuizEditor.ts:83-85 | only the selection changes, to any id or none |
| QuizTypes.IsWhitespace | hooks/useQuizValidation.ts:10 | the characters `trim()` strips: ECMAScript white space and line terminators |
| QuizTypes.IsBlank | hooks/useQuizValidation.ts:10 | a missing or trimmed-empty text (`s.trim() === ""`): the string is empty or whitespace only |
| QuizValidation.AllBlank | hooks/useQuizValidation.ts:35 | `options.every(opt => !opt.trim())`: every option is blank, vacuously so for none |
| QuizValidation.HasQuestion | hooks/useQuizValidation.ts:14 | some block is a question (`blocks.some(b => b.type === "question")`) |
| QuizValidation.IsEmptyQuestion | hooks/useQuizValidation.ts:19-23 | a question block whose content is empty or whitespace only |
| QuizValidation.HasEmptyQuestion | hooks/useQuizValidation.ts:19-24 | the list of empty questions is non-empty: some block is an empty question |
| QuizValidation.LacksOptions | hooks/useQuizValidation.ts:28-36 | a single- or multi-choice question whose options are absent, empty or all blank; no properties, or type text or none, never qualifies |
| QuizValidation.HasQuestionWithoutOptions | hooks/useQuizValidation.ts:28-37 | the list of choice questions without options is non-empty |
| QuizValidation.ValidateQuiz | hooks/useQuizValidation.ts:4-45 | valid exactly when there are no errors; at most four errors |
| QuizValidation.ValidateQuizOrdered | hooks/useQuizValidation.ts:10-39 | every error is one of the four messages, and they come in rule order |
| QuizValidation.ValidateQuizReports | hooks/useQuizValidation.ts:10-39 | each message is present exactly when its rule is broken (blank title; no question; a question with blank content; a single- or multi-choice question whose options are absent, empty or all blank) |
| QuizValidation.ErrorsBounded | hooks/useQuizValidation.ts:10-39 | at most four errors, no message twice |
| QuizValidation.NoQuestionRulesOut | hooks/useQuizValidation.ts:14-39 | with no question block, the missing-question message is reported and neither the content nor the options message is |
| QuizValidation.BlankTitleNoQuestion | hooks/useQuizValidation.ts:10-17 | a blank title and no question give exactly the title and missing-question messages, in that order |
| QuizValidation.NonChoiceQuestionsNeedNoOptions | hooks/useQuizValidation.ts:28-39 | questions of type text or without a type never trigger the options message |
| QuizValidation.OnlyTitleOfQuizMatters | hooks/useQuizValidation.ts:10-39 | two quizzes with the same title validate alike: rules two to four read the `blocks` argument, never `quiz.blocks` |
| QuizValidation.OneNonBlankOptionSuffices | hooks/useQuizValidation.ts:33-35 | title "Quiz", one single-choice question "Q1" with options ["A", ""]: valid |
| QuizStorageAdapter.RecordKey | lib/quizStorage.ts:4 | a record key is the prefix followed by the id |
| QuizStorageAdapter.RecordKeysAreDistinct | lib/quizStorage.ts:3-5 | record keys never equal the index or flag key; different ids give different keys |
| QuizStorageAdapter.IsValidQuiz | lib/quizStorage.ts:113-126 | an object whose id, title, blocks, published, createdAt and updatedAt are present with their types; the blocks are not inspected |
| QuizStorageAdapter.AsQuiz | lib/quizStorage.ts:113 | the quiz a document passing the `quiz is Quiz` guard denotes, field for field |
| QuizStorageAdapter.Serialize | lib/quizStorage.ts:82-89 | stringifying a quiz gives a valid record that parses back to the same quiz |
| QuizStorageAdapter.ValidIsSerialized | lib/quizStorage.ts:113-126 | every record that passes `isValidQuiz` is the serialisation of the quiz it denotes |
| QuizStorageAdapter.Lookup | lib/quizStorage.ts:91-100 | `getItem`: the stored text when the key is present, else null |
| QuizStorageAdapter.SafeJSONParse | lib/quizStorage.ts:73-80 | well-formed text gives its document; absent or malformed text gives the fallback, never an exception |
| QuizStorageAdapter.ReadRecord | lib/quizStorage.ts:167-180 | a quiz exactly when the record key holds well-formed text that passes `isValidQuiz`, and then the stored text is that quiz's serialisation |
| QuizStorageAdapter.ReadIndex | lib/quizStorage.ts:136-139 | an absent or malformed index reads as []; a list document reads as its items; any other document is not an array |
| QuizStorageAdapter.FlagSet | lib/quizStorage.ts:53-54 | `isInitialized`'s read: the flag key holds `true` |
| QuizStorageAdapter.SampleQuizzes | lib/quizStorage.ts:7-49 | the two sample quizzes, field for field, with one load instant for their timestamps |
| QuizStorageAdapter.QuizIds | lib/quizStorage.ts:65 | the ids of the samples, in order |
| QuizStorageAdapter.SampleWrites | lib/quizStorage.ts:61-63 | one record write per sample, in order, each storing the sample's serialisation under its key |
| QuizStorageAdapter.SeedWrites | lib/quizStorage.ts:60-67 | the four writes of seeding: two sample records, then the index, then the flag |
| QuizStorageAdapter.WrittenBy | lib/quizStorage.ts:60-67 | every written key is present after a run of writes |
| QuizStorageAdapter.WrittenByKeys | lib/quizStorage.ts:60-67 | a run of writes touches no key it does not name |
| QuizStorageAdapter.WrittenByLast | lib/quizStorage.ts:60-67 | the last write to a key decides what it holds |
| QuizStorageAdapter.UnionStep | lib/quizStorage.ts:60-67 | one more accepted write extends the written entries |
| QuizStorageAdapter.AcceptedPrefix | lib/quizStorage.ts:59-70 | the writes before the first rejected one are accepted, and the next one is rejected |
| QuizStorageAdapter.AfterInitialize | lib/quizStorage.ts:57-71 | with the flag set nothing changes; otherwise the seed writes land in order up to the first that throws, and the rest are skipped |
| QuizStorageAdapter.SeedingStopsAt | lib/quizStorage.ts:57-71 | seeding that stops at write `i` leaves exactly the writes before `i` on top of the old entries |
| QuizStorageAdapter.InitializeIdempotent | lib/quizStorage.ts:57-71 | under unchanged storage conditions (the same keys rejected), a second `initialize` changes nothing, even after a first one that was cut short |
| QuizStorageAdapter.InitializeTouchesOnlySeedKeys | lib/quizStorage.ts:57-71 | seeding changes no key except the two sample records, the index and the flag |
| QuizStorageAdapter.SeedingWritesSamples | lib/quizStorage.ts:7-71 | on a first run where every write lands: the flag is set, the index is ["sample-1", "sample-2"], and each sample record reads back as that sample |
| QuizStorageAdapter.RecordAt | lib/quizStorage.ts:141-152 | one index entry contributes its record when that record is valid, otherwise nothing |
| QuizStorageAdapter.Collect | lib/quizStorage.ts:138-155 | the loop over the index: each id contributes its record when that record is valid, in index order |
| QuizStorageAdapter.CollectMembers | lib/quizStorage.ts:140-155 | a quiz is collected exactly when it is the valid record of some indexed id |
| QuizStorageAdapter.NewerFirst | lib/quizStorage.ts:157-160 | the comparator is positive exactly when the second quiz was updated later, and zero exactly on equal times |
| QuizStorageAdapter.InsertByRecency | lib/quizStorage.ts:157-160 | one step of the stable sort: the quiz moves past an element only when the comparator puts that element first |
| QuizStorageAdapter.SortByRecency | lib/quizStorage.ts:157-160 | `quizzes.sort(...)` as a stable insertion sort; SortByRecencyCorrect proves it a newest-first permutation |
| QuizStorageAdapter.InsertByRecencyMultiset | lib/quizStorage.ts:157-160 | one insertion step of the sort adds exactly the inserted quiz and loses nothing |
| QuizStorageAdapter.InsertByRecencyCorrect | lib/quizStorage.ts:157-160 | one insertion step of the sort keeps the list newest first and adds exactly one element |
| QuizStorageAdapter.SortByRecencyCorrect | lib/quizStorage.ts:157-160 | the sort yields `updatedAt` non-increasing and is a permutation |
| QuizStorageAdapter.ListedIds | lib/quizStorage.ts:134-140 | the ids the loop walks: the parsed index, or none when it is not an array |
| QuizStorageAdapter.AllQuizzes | lib/quizStorage.ts:128-165 | what `getAllQuizzes` returns after initialising: the collected valid records, sorted newest first |
| QuizStorageAdapter.AllQuizzesCorrect | lib/quizStorage.ts:128-165 | the listing is newest first and holds exactly the valid records of indexed ids; missing or invalid records are skipped |
| QuizStorageAdapter.NoIndexNoQuizzes | lib/quizStorage.ts:135-136 | without an index, nothing is listed |
| QuizStorageAdapter.FirstRunListsSamples | lib/quizStorage.ts:7-165 | on a first run where every write lands, the listing is exactly the two samples; they come in sample order because both share the one load instant |
| QuizStorageAdapter.AppendIfMissing | lib/quizStorage.ts:198-201 | the id ends up in the index, and the earlier entries keep their order at the front |
| QuizStorageAdapter.AppendIfMissingNoDuplicates | lib/quizStorage.ts:198-201 | an index without duplicates stays so; it grows by one exactly when the id was absent |
| QuizStorageAdapter.Without | lib/quizStorage.ts:219-221 | the id is gone; every other id stays, and nothing else is added |
| QuizStorageAdapter.WithoutAbsent | lib/quizStorage.ts:219-221 | filtering out an absent id leaves the index unchanged |
| QuizStorageAdapter.WithoutAppend | lib/quizStorage.ts:219-221 | the filter distributes over concatenation, so the other ids keep their order |
| QuizStorageAdapter.SaveQuizSpec | lib/quizStorage.ts:182-209 | an invalid quiz fails before any write; a rejected record write fails with the write error and changes nothing; no key but the record and the index ever changes |
| QuizStorageAdapter.SaveThenRead | lib/quizStorage.ts:167-193 | after a successful save of `q`, reading `q.id` gives `q` |
| QuizStorageAdapter.SaveIndexesOnce | lib/quizStorage.ts:194-201 | a successful save had a readable index; afterwards the index is the old one with the id appended if it was absent, with no duplicates if there were none |
| QuizStorageAdapter.DeleteQuizSpec | lib/quizStorage.ts:211-230 | on disabled storage nothing changes; otherwise the record key is gone and no key but the record and the index changes |
| QuizStorageAdapter.DeleteForgets | lib/quizStorage.ts:215-223 | after a delete the id reads as no quiz; a list index that could be rewritten is the old one without the id |
| QuizStorageAdapter.SaveKeepsWellKeyed | lib/quizStorage.ts:190-193 | saving keeps every valid record under the key of its own id |
| QuizStorageAdapter.DeleteKeepsWellKeyed | lib/quizStorage.ts:215 | deleting keeps every valid record under the key of its own id |
| QuizStorageAdapter.InitializeKeepsWellKeyed | lib/quizStorage.ts:61-63 | seeding keeps every valid record under the key of its own id |
| QuizStorageAdapter.SeedRecordsAreOwnIds | lib/quizStorage.ts:61-63 | a seeded record key belongs to sample-1 or sample-2 and holds that sample |
| QuizStorageAdapter.QuizStorage.constructor | lib/quizStorage.ts:51 | a store with the given entries and failure behaviour |
| QuizStorageAdapter.QuizStorage.IsInitialized | lib/quizStorage.ts:52-55 | throws on disabled storage; otherwise true exactly when the flag reads "true" |
| QuizStorageAdapter.QuizStorage.SafeGetItem | lib/quizStorage.ts:91-100 | a failing read is `STORAGE_READ_ERROR`; otherwise the stored text or null |
| QuizStorageAdapter.QuizStorage.SetItem | lib/quizStorage.ts:62-67 | a write lands exactly when storage is enabled and the key is not rejected |
| QuizStorageAdapter.QuizStorage.SafeSetItem | lib/quizStorage.ts:102-111 | a failing write is `STORAGE_WRITE_ERROR` and changes nothing |
| QuizStorageAdapter.QuizStorage.Initialize | lib/quizStorage.ts:52-71 | throws only on disabled storage; otherwise the entries become `AfterInitialize` of the old ones |
| QuizStorageAdapter.QuizStorage.WriteInOrder | lib/quizStorage.ts:60-67 | the seed writes land in order up to the first one that throws; the entries become the old ones plus exactly the writes that landed |
| QuizStorageAdapter.QuizStorage.GetQuiz | lib/quizStorage.ts:167-180 | none on disabled storage, else `ReadRecord` |
| QuizStorageAdapter.QuizStorage.GetAllQuizzes | lib/quizStorage.ts:128-165 | throws on disabled storage; otherwise seeds if needed and returns `AllQuizzes` of the seeded entries |
| QuizStorageAdapter.QuizStorage.SaveQuiz | lib/quizStorage.ts:182-209 | outcome and entries are those of `SaveQuizSpec` |
| QuizStorageAdapter.QuizStorage.DeleteQuiz | lib/quizStorage.ts:211-230 | entries are those of `DeleteQuizSpec`; the success notice is shown exactly when every step succeeded |
| QuizManagerHook.NewQuiz | hooks/useQuizManager.ts:20-28 | the new quiz has the given title or "New Quiz", no blocks, is unpublished, and both timestamps are the one instant `now` |
| QuizManagerHook.BlocksUpdate | hooks/useQuizManager.ts:50 | `{ blocks }`: an update carrying only the blocks |
| QuizManagerHook.PublishedUpdate | hooks/useQuizManager.ts:54-58 | `{ published: true }` and `{ published: false }`: an update carrying only the flag |
| QuizManagerHook.ApplyQuizUpdate | hooks/useQuizManager.ts:39-43 | each field present in the update is taken from it, each absent field keeps its stored value, and `updatedAt` is always the current time |
| QuizManagerHook.ApplyQuizUpdateIdempotent | hooks/useQuizManager.ts:39-43 | applying the same update twice is applying it once at the later time |
| QuizManagerHook.BlocksUpdateOnlyBlocks | hooks/useQuizManager.ts:49-51 | `saveQuizBlocks` changes the blocks and `updatedAt`, nothing else |
| QuizManagerHook.PublishedUpdateOnlyPublished | hooks/useQuizManager.ts:53-59 | publish and unpublish change `published` and `updatedAt`, nothing else |
| QuizManagerHook.PublishThenUnpublish | hooks/useQuizManager.ts:53-59 | unpublishing right after publishing restores everything but `updatedAt` |
| QuizManagerHook.SaveKeepsFlag | hooks/useQuizManager.ts:30 | a save does not touch the first-run flag |
| QuizManagerHook.DeleteKeepsFlag | hooks/useQuizManager.ts:62 | a delete does not touch the first-run flag |
| QuizManagerHook.InitializedStoreIsLeftAlone | hooks/useQuizManager.ts:15 | once the flag is set, the reload's seeding writes nothing |
| QuizManagerHook.SavedQuizIsListed | hooks/useQuizManager.ts:30-31 | a successfully saved quiz is in the reloaded list |
| QuizManagerHook.DeletedQuizIsNotListed | hooks/useQuizManager.ts:61-64 | with every record under its own id, no quiz with the deleted id is listed afterwards, whichever step of the delete failed |
| QuizManagerHook.UpdateQuizSpec | hooks/useQuizManager.ts:35-47 | no stored quiz (or disabled storage): no write; otherwise the save of the merged quiz |
| QuizManagerHook.UpdateIsReadBack | hooks/useQuizManager.ts:35-47 | an update that keeps the id and succeeds is read back under the same id and is listed |
| QuizManagerHook.QuizManager.constructor | hooks/useQuizManager.ts:6-7 | no quizzes cached, loading |
| QuizManagerHook.QuizManager.LoadQuizzes | hooks/useQuizManager.ts:13-18 | on success the cache is `getAllQuizzes()` (newest first) and loading is off; when the read throws, loading stays on and the cache is kept |
| QuizManagerHook.QuizManager.CreateQuiz | hooks/useQuizManager.ts:20-33 | the returned quiz is `NewQuiz`; a failed save propagates with no reload; after a success on an initialised store the cache contains the new quiz |
| QuizManagerHook.QuizManager.UpdateQuiz | hooks/useQuizManager.ts:35-47 | no stored quiz: no write, no reload; a failed save: no reload; otherwise the store is `UpdateQuizSpec` and the cache is reloaded |
| QuizManagerHook.QuizManager.SaveQuizBlocks | hooks/useQuizManager.ts:49-51 | `UpdateQuiz` with `{ blocks }` |
| QuizManagerHook.QuizManager.PublishQuiz | hooks/useQuizManager.ts:53-55 | `UpdateQuiz` with `{ published: true }` |
| QuizManagerHook.QuizManager.UnpublishQuiz | hooks/useQuizManager.ts:57-59 | `UpdateQuiz` with `{ published: false }` |
| QuizManagerHook.QuizManager.DeleteQuiz | hooks/useQuizManager.ts:61-64 | the store is `DeleteQuizSpec` followed by the reload; with every record under its own id on an initialised store, no cached quiz has the id |
| PropertiesPanel.PropertiesUpdate | components/PropertiesPanel.tsx:84-89 | `onUpdateBlock({ properties })`: an update that replaces only the properties |
| PropertiesPanel.OptionsOf | components/PropertiesPanel.tsx:83 | `selectedBlock?.properties?.options`, defaulting to `[]`: the options, or none when properties or options are absent |
| PropertiesPanel.QuestionTypeOf | components/PropertiesPanel.tsx:84-89 | the question type the handlers' spread of the old properties keeps |
| PropertiesPanel.ContentUpdate | components/PropertiesPanel.tsx:115-117 | the update changes only the block's content |
| PropertiesPanel.DefaultPropertiesUpdate | components/PropertiesPanel.tsx:24-33 | fires exactly for a selected question without properties, and gives it single choice with options ["Option 1"] |
| PropertiesPanel.DefaultPropertiesSettle | components/PropertiesPanel.tsx:24-33 | once applied, the effect does not fire again, and the defaulted question passes the options rule |
| PropertiesPanel.ContentLabel | components/PropertiesPanel.tsx:43-56 | every block type has a non-empty label |
| PropertiesPanel.ContentLabelsDistinct | components/PropertiesPanel.tsx:43-56 | different block types get different labels |
| PropertiesPanel.DropIndex | components/PropertiesPanel.tsx:69-71 | removing index `i` in range drops exactly that element, keeping the others in order; an index out of range keeps all |
| PropertiesPanel.RemoveOption | components/PropertiesPanel.tsx:58-80 | no update when options are absent; otherwise the question type is kept, option `i` is dropped, and an empty result becomes [""], so the list is never empty |
| PropertiesPanel.RemoveOptionPrompt | components/PropertiesPanel.tsx:61-67 | a prompt titled "Remove Option" exactly when options are present (an empty list included, since it is truthy) |
| PropertiesPanel.DecimalString | components/PropertiesPanel.tsx:63 | a non-empty string of decimal digits that denotes exactly `n`, with no leading zero |
| PropertiesPanel.AddOption | components/PropertiesPanel.tsx:82-90 | the question type is kept; the options are the old ones (absent counting as none) followed by one "" |
| PropertiesPanel.AddThenRemove | components/PropertiesPanel.tsx:58-90 | for a non-empty option list, removing the option just added restores the options there were |
| PropertiesPanel.UpdateOption | components/PropertiesPanel.tsx:92-101 | the question type is kept; only option `i` changes, to the new text |
| PropertiesPanel.UpdateOptionUndone | components/PropertiesPanel.tsx:92-101 | writing back the old text undoes an option edit |
| PropertiesPanel.ChangeQuestionType | components/PropertiesPanel.tsx:103-113 | text gets options []; single or multi keep the existing options, even an empty list, and get [""] only when options are absent |
| PropertiesPanel.ChangeQuestionTypeIdempotent | components/PropertiesPanel.tsx:103-113 | choosing the same type twice is choosing it once |
| PropertiesPanel.TextThenChoiceHasNoOptions | components/PropertiesPanel.tsx:103-113 | switching a question to text and back to a choice leaves options [], which the publish rules report |
| ConfirmationHook.Confirmation.constructor | hooks/useConfirmation.ts:12-17 | closed, empty texts, no action |
| ConfirmationHook.Confirmation.Show | hooks/useConfirmation.ts:19-32 | open, with the new title, message, action and kind; any pending action is replaced |
| ConfirmationHook.Confirmation.Hide | hooks/useConfirmation.ts:34-36 | closed, no action; title, message and kind are kept |
| ConfirmationHook.Confirmation.Confirm | hooks/useConfirmation.ts:38-41 | the pending action, if any, is handed back to run, and the dialog is hidden |
| QuizEditorComponent.TypeName | components/QuizEditor.tsx:84 | the `type` string of each block type, which names its palette item |
| QuizEditorComponent.ParseBlockType | components/QuizEditor.tsx:84 | a recognised `draggableId` names the block type it parses to |
| QuizEditorComponent.ParseTypeName | components/QuizEditor.tsx:84 | every block type's name parses back to that type |
| QuizEditorComponent.FromPalette | components/QuizEditor.tsx:83-84 | a drop across lists carries a block type name as its draggable id |
| QuizEditorComponent.DragEndAction | components/QuizEditor.tsx:80-89 | no destination: nothing; different lists: insert the named type at the drop index; same list: move from the source index to the drop index |
| QuizEditorComponent.FindBlock | components/QuizEditor.tsx:91-92 | finds a block exactly when one has the id, and then the first such block |
| QuizEditorComponent.FindInserted | components/QuizEditor.tsx:91-92 | after an insert with a fresh id, the lookup finds the new block |
| QuizEditorComponent.Toggled | components/QuizEditor.tsx:131-137 | the published quiz has `published` flipped, the captured title and blocks, the current time, and the quiz's own id and creation time |
| QuizEditorComponent.ToggleTwice | components/QuizEditor.tsx:131-137 | toggling twice with the same title and blocks changes only the time stamp |
| QuizEditorComponent.PublishPrompt | components/QuizEditor.tsx:124-129 | titled "Unpublish Quiz" for a published quiz, else "Publish Quiz" |
| QuizEditorComponent.DeleteBlockMessage | components/QuizEditor.tsx:170-176 | the delete prompt names the block's type, or `undefined` when no block has the id |
| QuizEditorComponent.QuizEditor.constructor | components/QuizEditor.tsx:25-59 | the quiz's title is pending, its contents count as saved, no banner, its blocks in a fresh editor |
| QuizEditorComponent.QuizEditor.HasUnsavedChanges | components/QuizEditor.tsx:72-78 | there are changes exactly when the blocks or the pending title differ from the last saved state |
| QuizEditorComponent.QuizEditor.SelectedBlock | components/QuizEditor.tsx:91-92 | the selected block, if any, is in the list and has the selected id |
| QuizEditorComponent.QuizEditor.SyncWithQuiz | components/QuizEditor.tsx:61-70 | a new quiz's blocks and title are loaded and count as saved, so there are no unsaved changes |
| QuizEditorComponent.QuizEditor.HandleDragEnd | components/QuizEditor.tsx:80-89 | performs `DragEndAction`: nothing, an insert that selects the new block, or a permutation-preserving move |
| QuizEditorComponent.QuizEditor.HandleSave | components/QuizEditor.tsx:94-111 | hands over the quiz with the pending title, current blocks and current time; records it as saved, leaving no unsaved changes |
| QuizEditorComponent.QuizEditor.HandlePublish | components/QuizEditor.tsx:113-150 | if validation with the pending title fails, the errors are shown and no confirmation opens; otherwise the toggle confirmation opens with the quiz as it is now |
| QuizEditorComponent.QuizEditor.HandleDeleteBlock | components/QuizEditor.tsx:170-177 | opens the "Delete Block" confirmation carrying the deletion |
| QuizEditorComponent.QuizEditor.HandleConfirm | components/QuizEditor.tsx:131-148 | a publish toggle returns `Toggled` and records it as saved; a deletion removes the block and clears the selection exactly when it was that block; with no action nothing happens; the dialog ends up hidden with its title, message and kind kept |
| QuizEditorComponent.QuizEditor.HandleUpdateQuiz | components/QuizEditor.tsx:152-156 | only a title in the update is taken, as the pending title |
| QuizEditorComponent.QuizEditor.CloseBanner | components/QuizEditor.tsx:179-181 | hides the validation banner and clears its errors |
| QuizEditorComponent.QuizEditor.UpdateSelectedBlock | components/QuizEditor.tsx:211-215 | the update reaches the selected block only when a non-empty id is selected |

## Left out

- Rendering, routing, toasts (`showToast`), console logging, timers and error boundaries are left out. They hold no state the logic reads.
- The server-side-rendering guards (`typeof window === "undefined"`) are left out. The model assumes a browser.
- JSON grammar is left out. So are top-level numbers and strings as stored documents, and the empty stored text "". The parse of an array of non-strings is not modelled either. The first-run flag is read as a parsed document (`true`); the source compares the raw text with `"true"`, so a text such as `" true"` that parses to `true` counts as set here but not in the source.
- `safeJSONStringify`'s "{}" fallback is left out. Stringifying a quiz or an id list never throws.
- Date parsing is left out. Timestamps are integers, and `isValidQuiz`'s "createdAt/updatedAt are strings" is "present with the timestamp type". An unparseable date (NaN in the comparator) is not modelled.
- QuizManagerHook.NewQuiz: `createdAt` and `updatedAt` are one instant `now`. `createQuiz` takes two `new Date()` readings, which can differ by the time between them.
- The two samples' timestamps are one instant `loadedAt`. The source takes four `new Date()` readings at module load, which differ only by the time between them. The newest-first order of the first listing rests on this. If a millisecond passes between sample 1's and sample 2's readings, the source lists sample-2 first, and `QuizStorageAdapter.FirstRunListsSamples` does not cover that case.
- QuizStorageAdapter.InitializeIdempotent: write failures are a fixed set of rejected keys for the whole life of the store. In the source, a `setItem` that fails for lack of quota may succeed later once space is freed, and a second `initialize` would then finish the seeding and change the store. The lemma holds only under unchanged storage conditions.
- `QuizEditorHook.Editor.AddBlock`, `QuizEditorHook.Editor.MoveBlock`, `QuizEditorComponent.QuizEditor.HandleDragEnd`: out-of-range and negative indices require in-range preconditions, so `splice` clamping is not modelled.
- `PropertiesPanel.UpdateOption`: it requires an index within the options. Writing past the end, which leaves holes in a JavaScript array, is not modelled.
- A `Partial` update that sets a field to an explicit `undefined` is left out. An update either carries a field or does not.
- `hasChanges` compares `JSON.stringify` texts. The model compares values, so a difference in key order alone is not modelled.
- React scheduling (`useEffect`, `useCallback`, batched `setState`) is left out. The mount-time `loadQuizzes` effect and the `hasChanges` effect are not modelled as separate steps. `HasUnsavedChanges` is the value that effect computes.
- `handleCancel` is left out. It only navigates or asks before navigating.
- `getContentLabel`'s "Content" default is left out. The closed set of block types makes it unreachable.
- An index array is modelled as a list of string ids; arrays holding other values are not modelled.
- Block contents in stored records are assumed well-formed. `isValidQuiz` does not inspect them, and neither does the model.
