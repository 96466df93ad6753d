# EduTask task list: a Dafny model

EduTask is a single-page school-assignment tracker. Its whole behaviour sits in
the `Index` page component. The component keeps four pieces of state:

- the list of tasks;
- the task open in the editor;
- the editor's text buffer;
- the active subject tab ('português', 'matemática' or 'tecnologia').

The list is mirrored, whole, into the browser's local storage under the key
`schoolTasks`. On first use the page seeds nine sample tasks. Saving a draft
marks the open task as a draft and stores the typed text in it. Submitting
removes the open task from the list for good. The grid shows only the tasks of
the active subject.

The model has five modules:

- `Options`: the `Option` type used for optional fields and for the storage
  key that may be missing.
- `JsString`: `String.prototype.trim` from section 22.1.3.32 of ECMA-262. It
  uses the WhiteSpace and LineTerminator code points of sections 12.2 and
  12.3. Unlike the standard's wording, which only says that leading and
  trailing white space is removed, the model finds the two cut points by index.
- `Seqs`: `Array.prototype.filter` over sequences. Its lemmas cover order
  (subsequence), exact multiplicities, membership, and the fact that the
  result is the only subsequence with those multiplicities.
- `Tasks`: the `Task` record, the nine-task seed, and the pure list
  transformations the handlers use. These are the `map` that saves a draft
  (`MarkDraft`), the `filter` that removes a submitted task (`Without`) and
  the `filter` behind a subject tab (`OfSubject`). The module also holds the
  lemmas that relate these three to each other.
- `IndexPage`: the storage as a class `Storage` with one field,
  `schoolTasks`, and the component as a class `Index` whose fields are the
  four state hooks. Each handler is a method that updates those fields (and
  the storage) step by step, as the component does. Three client methods,
  `SeedSession`, `DraftSession` and `SubmitSession`, drive the handlers
  end to end: seed then reload, open then edit then save a draft, open then
  edit then submit. Their asserts show that the contracts compose.

Three behaviours of the handlers are easy to misread; the model follows the
code:

- `saveDraft` does not check that the buffer trims to a non-empty string. Only
  the button is disabled then (`src/pages/Index.tsx:386`). `Index.SaveDraft`
  therefore saves blank text too.
- After `saveDraft`, the open task is rebuilt from the previous selection, not
  read back from the list (`src/pages/Index.tsx:143`). With a stale
  selection, whose id is no longer in the list, the list is stored unchanged
  and the selection still becomes a draft.
- The status `submitted` is declared but never assigned. A submitted task is
  removed instead.

## Model

| member | source | states |
|---|---|---|
| Options.Option.GetOr | src/pages/Index.tsx:171 | No contract: a definition that reproduces `task.content \|\| ''`, the content when present and the default otherwise |
| Tasks.WithDraft | src/pages/Index.tsx:139 | No contract: a definition that reproduces `{ ...task, content: taskContent, status: 'draft' }`, also used for the rebuilt selection at `:143` |
| Tasks.InitialTasks | src/pages/Index.tsx:23-99 | No contract: the `initialTasks` literal, character for character, as the three subject blocks below; its facts are the `InitialTasks…` lemmas |
| Tasks.PortuguesSeed | src/pages/Index.tsx:24-48 | No contract: the three 'português' tasks of the seed, ids "1" to "3" |
| Tasks.MatematicaSeed | src/pages/Index.tsx:49-73 | No contract: the three 'matemática' tasks of the seed, ids "4" to "6" |
| Tasks.TecnologiaSeed | src/pages/Index.tsx:74-98 | No contract: the three 'tecnologia' tasks of the seed, ids "7" to "9" |
| Tasks.MarkDraft | src/pages/Index.tsx:137-141 | The saved list has the same length; at each position a task with the open task's id holds the buffer as content with status draft, and every other task is unchanged |
| Tasks.MarkDraftAbsent | src/pages/Index.tsx:137-141 | Saving a draft under an id no task has leaves the list unchanged |
| Tasks.MarkDraftKeepsIds | src/pages/Index.tsx:137-141 | Saving a draft keeps each position's id and subject, and the list has unique ids after exactly when it had them before |
| Tasks.MarkDraftAt | src/pages/Index.tsx:137-141 | With unique ids, saving a draft on the task at position i changes position i alone, into that task with the draft |
| Tasks.MarkDraftSelected | src/pages/Index.tsx:137-143 | When the open task is an entry of the list, the selection rebuilt after saving is an entry of the saved list |
| Tasks.Without | src/pages/Index.tsx:156 | A task is kept exactly when it was in the list and its id differs from the submitted id, and each kept task occurs as often as before |
| Tasks.WithoutKeepsOrder | src/pages/Index.tsx:156 | The list after submitting is a subsequence of the list before, so the remaining tasks keep their relative order |
| Tasks.WithoutLength | src/pages/Index.tsx:156 | With unique ids, submitting keeps the ids unique and shortens the list by one when the id is present, and not at all when it is absent |
| Tasks.WithoutAbsent | src/pages/Index.tsx:156 | Submitting an id no task has leaves the list unchanged |
| Tasks.WithoutAt | src/pages/Index.tsx:156 | With unique ids, submitting the task at position i removes exactly position i and keeps the others in order |
| Tasks.FilterKeepsUniqueIds | src/pages/Index.tsx:156 | Filtering a list with unique ids yields a list with unique ids |
| Tasks.WithoutAfterMarkDraft | src/pages/Index.tsx:137-156 | Submitting after saving a draft leaves the same list as submitting alone, so the draft leaves no trace |
| Tasks.OfSubject | src/pages/Index.tsx:197 | A task is in a subject tab exactly when it is in the list and has that subject, and each occurs as often as in the list |
| Tasks.OfSubjectExact | src/pages/Index.tsx:197 | A subject tab is a subsequence of the list, and it is the only subsequence holding exactly that subject's tasks with their multiplicities |
| Tasks.OfSubjectAfterMarkDraft | src/pages/Index.tsx:197 | The tab after saving a draft is the tab before with the same draft saved in it |
| Tasks.OfSubjectAfterWithout | src/pages/Index.tsx:197 | The tab after submitting is the tab before without the submitted task |
| Tasks.SubjectTabsPartition | src/pages/Index.tsx:197 | The three tabs' lengths add up to the list's length, so every task shows under exactly one tab |
| Tasks.InitialTasksIds | src/pages/Index.tsx:23-99 | The seed holds nine tasks whose ids are "1" to "9", in order |
| Tasks.InitialTasksUniqueIds | src/pages/Index.tsx:23-99 | The seed's ids are unique |
| Tasks.InitialTasksPending | src/pages/Index.tsx:23-99 | Every seeded task is pending and has no content |
| Tasks.InitialTasksTabs | src/pages/Index.tsx:23-99 | Each subject tab of the seed holds three tasks: the first, middle and last three of the seed |
| Tasks.OfSubjectOfBlocks | src/pages/Index.tsx:23-99 | A list made of one block per subject, in tab order, shows each block whole under its own tab |
| Tasks.SeedDraftOnFour | src/pages/Index.tsx:137-141 | Saving "x=2" on seed task "4" turns that task alone into a draft holding "x=2" |
| Tasks.SeedSubmitSeven | src/pages/Index.tsx:156 | Submitting seed task "7" leaves the other eight tasks in order |
| JsString.IsWhiteSpace | src/pages/Index.tsx:154 | No contract: the WhiteSpace and LineTerminator code points that `trim` removes (TAB to CR, SPACE, NO-BREAK SPACE, ZERO WIDTH NO-BREAK SPACE, the other Zs characters, LINE SEPARATOR, PARAGRAPH SEPARATOR) |
| JsString.IsBlank | src/pages/Index.tsx:154 | `!taskContent.trim()` holds exactly when every character of the buffer is white space, the empty buffer included |
| JsString.LeadingEnd | src/pages/Index.tsx:154 | The index where the leading white space ends: everything before it is white space, and the character at it is not |
| JsString.TrailingStart | src/pages/Index.tsx:154 | The index where the trailing white space starts: everything from it on is white space, and the character before it is not |
| JsString.Trim | src/pages/Index.tsx:154 | The trimmed text is empty exactly when every character is white space; otherwise its first and last characters are not white space |
| JsString.TrimIsSlice | src/pages/Index.tsx:154 | The trimmed text is the slice of the input that starts at its first non-white-space character, and only white space lies outside that slice |
| Seqs.Filter | src/pages/Index.tsx:156 | The filtered list is no longer than the input |
| Seqs.FilterMembers | src/pages/Index.tsx:197 | An element is in the filtered list exactly when it is in the input and passes the test |
| Seqs.FilterMultiset | src/pages/Index.tsx:197 | A passing element occurs in the filtered list as often as in the input, and a failing one not at all |
| Seqs.FilterIsSubsequence | src/pages/Index.tsx:197 | The filtered list is a subsequence of the input |
| Seqs.FilterUnique | src/pages/Index.tsx:197 | Any subsequence with the filtered list's multiplicities is the filtered list |
| Seqs.FilterDropsOne | src/pages/Index.tsx:156 | When only the element at position i fails the test, filtering removes exactly position i |
| IndexPage.Storage.constructor | src/pages/Index.tsx:102 | The storage holds the given `schoolTasks` value, or nothing when the key is missing |
| IndexPage.Index.constructor | src/pages/Index.tsx:16-20 | The hooks start with an empty list, no open task, an empty buffer and the 'português' tab |
| IndexPage.Index.Load | src/pages/Index.tsx:101-110 | With a stored list, the page adopts it and the storage is unchanged; without one, the page takes the seed and stores it; either way storage and list agree |
| IndexPage.Index.SaveTasks | src/pages/Index.tsx:129-132 | The list becomes the given list, and storage holds that same list |
| IndexPage.Index.SaveDraft | src/pages/Index.tsx:134-143 | With no open task, nothing changes; otherwise the list becomes the draft-marked list and is stored, and the selection becomes the previous selection with the draft; length is kept, uniqueness of ids is kept both ways, and agreement with storage is kept |
| IndexPage.Index.SubmitTask | src/pages/Index.tsx:153-159 | With no open task or a blank buffer, nothing changes; otherwise the open task's id leaves the list, the list is stored, and the editor closes with an empty buffer; unique ids stay unique, and the list shrinks by one when the id was present |
| IndexPage.Index.OpenTask | src/pages/Index.tsx:169-172 | The task becomes the selection and the buffer holds its content, or "" when it has none; the list and storage are untouched |
| IndexPage.Index.CloseTask | src/pages/Index.tsx:174-177 | The selection and buffer are cleared; the list and storage are untouched |
| IndexPage.Index.EditContent | src/pages/Index.tsx:373 | The buffer holds the typed text, and nothing else changes |
| IndexPage.Index.SelectSubject | src/pages/Index.tsx:241 | The active tab becomes the chosen subject, and nothing else changes |
| IndexPage.Index.FilteredTasks | src/pages/Index.tsx:197 | The grid holds exactly the list's tasks of the active subject, each as often as in the list |
| IndexPage.Index.AllDone | src/pages/Index.tsx:308-318 | The condition of the "all done" message at `:308` (shown in the grid, when no task is open) holds exactly when no task of the list has the active subject |

## Left out

- The theme toggle and the theme read on mount (`src/pages/Index.tsx:112-127`): they change the document's class list and the `theme` key, and never touch the task state.
- The JSX markup, the subject icons and colours (`src/pages/Index.tsx:179-195`), and the character counter: presentation only.
- `formatDate` and `isOverdue` (`src/pages/Index.tsx:199-205`): they depend on JavaScript `Date` parsing, the pt-BR locale and the wall clock.
- The success banners and their timers (`src/pages/Index.tsx:145-150`, `161-166`): DOM side effects with no effect on the state.
- `JSON.stringify`, `JSON.parse` and `localStorage` itself: storage holds the task list as a value, so a corrupt or unparseable snapshot cannot be expressed.
- IndexPage.Index.Load: the `if (savedTasks)` test is modelled as "the key is present". The stored value the page writes is a JSON array and never the empty string, so the two agree for every value the page stores.
- The disabled state of the two buttons (`src/pages/Index.tsx:386`, `395`) is not modelled as a guard of `SaveDraft`: the handler does not check the buffer (see above). `SubmitTask` does check it.
- Strings are sequences of Unicode scalar values, while JavaScript strings are sequences of UTF-16 code units, so a lone surrogate cannot be represented. Neither the id comparisons nor the blank test depend on the difference.
- React's asynchronous, batched state updates: each handler is one sequential update of the fields, and each handler reads the state as it was when the handler began.
- Clicking a card (`src/pages/Index.tsx:262`) and the back button (`src/pages/Index.tsx:328`) are `OpenTask` and `CloseTask`; the render that switches between grid and editor is not modelled.
