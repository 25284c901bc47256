# Study With Me to-do list — a Dafny model of its state controller

The application is a React single-page to-do list. All of its logic lives in the
`App` component (`src/App.tsx`). The component keeps these pieces of state:

- an ordered list of to-do records (`id`, `period` label, `text`, `completed`, optional `author`);
- the two text fields of the entry form (`input` and `period`);
- the id of the record being edited, if any (`editingId`);
- the user profile (`name`, `isAnonymous`) with its dialog flag;
- the notification bar (`open`, `message`).

Event handlers change this state. A form submit validates the fields, then either
edits the pending record or appends a new one. Other handlers delete or toggle
records by id, clear the list after confirmation, and save the profile. A derived view
groups the records by period label for display.

The model has five modules, one per concern:

- `Wrappers` (`wrappers.dfy`): `Option`, standing for TypeScript's `null` and missing optional properties.
- `Text` (`text.dfy`): `String.prototype.trim`, written over the ECMAScript white-space and line-terminator code points. It is proved that `s.trim() === ''` holds exactly when every character of `s` is white space (`Blank`).
- `Todos` (`todos.dfy`): the `Todo` and `UserProfile` records and the display-name rule. It also holds the pure list transforms that the handlers pass to `setTodos`: the edit `map`, the toggle `map` and the delete `filter`. Lemmas cover identifier preservation, involution and no-op cases.
- `Grouping` (`grouping.dfy`): the `groupedTodos` reduce, as a left fold. Its result is a list of `(period, items)` groups in key-insertion order, or `None` when the reduce throws on an inherited property name. Otherwise it is proved to be a partition of the list that preserves order, with groups in first-occurrence order.
- `App` (`app.dfy`): the component as a class `TodoApp`. Each `useState` variable is a field. Each handler is a method with `modifies this`, and its `ensures` clauses give the whole new state in terms of the old one.

`Date.now()` is the `now` parameter of `HandleAddTodo`. `window.confirm` is the `confirmed`
parameter of `ClearAllTodos`. The outcome of `localStorage.getItem` followed by `JSON.parse`
is a parameter of `LoadSaved`: absent, unparsable, or a parsed value.

Four behaviours of the code are easy to miss:

- Validation rejects a task or period made only of white space, because the code compares `trim()` with `''`. It does not only reject empty strings.
- Deleting removes every record with the given id, and the notification is shown even when none matched. The list shrinks by exactly one only when ids are unique and the id is present (`DeleteUniqueDropsOne`).
- Rendering the grouped list throws a `TypeError` when a record's period is a name that a plain object inherits from `Object.prototype`, such as `"toString"` or `"constructor"`. Reading `groups[todo.period]` then yields a function or an object instead of `undefined`, and spreading it throws. `GroupTodos` returns `None` in that case (`GroupTodosOutcome`, `InheritedPeriodThrows`).
- The code does not check that a new identifier is unused. The model instead proves that ids stay unique when the supplied `now` is fresh (the conditional `ensures` of `HandleAddTodo`).

## Model

| member | source | states |
|---|---|---|
| `Todos.DisplayName` | src/App.tsx:126-131 | never empty; anonymous gives "익명 사용자" whatever the name; otherwise the name, or "이름 없음" when the name is empty |
| `Todos.AnonymousIgnoresName` | src/App.tsx:127-129 | with the anonymity flag set, changing the stored name does not change the display name |
| `Text.TrimStart` | src/App.tsx:134 | the leading-trim half of `trim()`: no longer than its input and not starting with white space |
| `Text.TrimEnd` | src/App.tsx:134 | the trailing-trim half of `trim()`: no longer than its input and not ending with white space |
| `Text.Trim` | src/App.tsx:117 | `String.prototype.trim`: no longer than its input, neither starting nor ending with white space |
| `Text.TrimEmptyIffBlank` | src/App.tsx:134 | `s.trim() === ''` holds exactly when every character is ECMAScript white space or a line terminator (both directions) |
| `Text.TrimStartIsLongestSuffix` | src/App.tsx:134 | leading trim yields a suffix that does not start with white space, and everything removed is white space |
| `Text.TrimEndIsLongestPrefix` | src/App.tsx:134 | trailing trim yields a prefix that does not end with white space, and everything removed is white space |
| `Text.TrimKeepsContent` | src/App.tsx:138 | a string with one non-white-space character does not trim to `''` |
| `Todos.EditMatching` | src/App.tsx:144-146 | length and order kept; records with the pending id get the new text and period and keep id, completion and author; all others unchanged |
| `Todos.EditKeepsIds` | src/App.tsx:144-146 | the edit keeps the identifier sequence, hence keeps ids unique |
| `Todos.EditAbsentIsIdentity` | src/App.tsx:143-146 | when no record has the pending id, the list is unchanged |
| `Todos.ToggleMatching` | src/App.tsx:176-178 | length and order kept; every field but `completed` kept; `completed` flips exactly on records with the id |
| `Todos.ToggleInvolution` | src/App.tsx:176-178 | toggling the same id twice restores the original list |
| `Todos.ToggleKeepsIds` | src/App.tsx:176-178 | toggling keeps the identifier sequence, hence keeps ids unique |
| `Todos.ToggleAbsentIsIdentity` | src/App.tsx:176-178 | toggling an absent id leaves the list unchanged |
| `Todos.Without` | src/App.tsx:165 | every remaining record comes from the list and has another id; the length drops by the number of records with the id |
| `Todos.WithoutKeepsOthers` | src/App.tsx:165 | every record with another id is kept as many times as the list has it |
| `Todos.WithoutKeepsOrder` | src/App.tsx:165 | the remaining records are a subsequence of the list, in the original order |
| `Todos.CountIdUnique` | src/App.tsx:165 | with unique ids, a present id matches exactly one record |
| `Todos.DeleteAbsentIsIdentity` | src/App.tsx:165 | deleting an absent id is a no-op |
| `Todos.DeleteUniqueDropsOne` | src/App.tsx:165 | with unique ids, deleting a present id shortens the list by exactly one |
| `Todos.DeleteKeepsUniqueIds` | src/App.tsx:165 | deleting keeps ids unique |
| `Todos.DeleteSummary` | src/App.tsx:165 | deleting keeps ids unique; with unique ids a present id shortens the list by one; an absent id is a no-op |
| `Todos.UniqueIdsAppend` | src/App.tsx:157 | appending keeps ids unique exactly when the new id is unused (both directions) |
| `App.NewTodo` | src/App.tsx:150-156 | the appended record has the given id, period and untrimmed text, is not completed, and has the current display name as its non-empty author |
| `Grouping.InPeriod` | src/App.tsx:186-189 | the records of one period: each is in the list with that period, as many times as in the list, in list order; empty exactly when the period does not occur |
| `Grouping.Lookup` | src/App.tsx:187 | `groups[k] \|\| []` on a key that is not inherited: a key that is not stored gives `[]` |
| `Grouping.AddToGroups` | src/App.tsx:187-188 | the reducer callback on a stored or absent key: the number of groups grows by at most one |
| `Grouping.GroupByPeriod` | src/App.tsx:186-189 | the reduce when it does not throw: at most as many groups as records |
| `Grouping.ReduceStep` | src/App.tsx:187-188 | one callback step: it fails exactly when the key is neither stored nor non-inherited, or when an earlier step failed; on success the record's period is a key and at most one group is added |
| `Grouping.GroupTodos` | src/App.tsx:186-189 | the reduce as the source runs it; a successful result has at most as many groups as records |
| `Grouping.GroupTodosOutcome` | src/App.tsx:186-189 | the reduce throws exactly when some record's period is an inherited `Object.prototype` name, and otherwise equals `GroupByPeriod` |
| `Grouping.InheritedPeriodThrows` | src/App.tsx:187-188 | a single record with period "toString" makes the reduce throw |
| `Grouping.AddToGroupsLookup` | src/App.tsx:187-188 | one reduce step appends the record under its own key and leaves every other key's items alone |
| `Grouping.AddToGroupsKeys` | src/App.tsx:188 | one reduce step keeps existing keys in place and adds a new key at the end |
| `Grouping.AddToGroupsSize` | src/App.tsx:188 | one reduce step adds exactly one item in all |
| `Grouping.LookupAt` | src/App.tsx:187 | with distinct keys, looking up a group's own key yields that group's items |
| `Grouping.GroupByPeriodIsPartition` | src/App.tsx:186-189 | keys are distinct; keys are exactly the periods that occur; the items under each key are exactly that period's records in order; group sizes sum to the list length |
| `Grouping.GroupItemsArePeriodRecords` | src/App.tsx:186-189 | every group holds exactly its period's records in original order and is not empty |
| `Grouping.RecordInOwnGroupOnly` | src/App.tsx:186-189 | a record of the list lies in a group exactly when the group's key is its period |
| `Grouping.GroupsInFirstOccurrenceOrder` | src/App.tsx:186-189 | groups come in the order in which their periods first occur in the list |
| `Grouping.GroupingExample` | src/App.tsx:186-189 | periods "1주차", "1주차", "2주차" give two groups, the first holding both "1주차" records in order |
| `App.TodoApp.constructor` | src/App.tsx:49-58 | the initial state: empty list and fields, no pending edit, hidden notification, closed dialog, named non-anonymous profile with empty name |
| `App.TodoApp.LoadSaved` | src/App.tsx:61-84 | a parsed entry replaces the list or profile; an unparsable to-do entry keeps the list and shows the load-error message; an unparsable profile keeps the profile |
| `App.TodoApp.GetDisplayName` | src/App.tsx:126-131 | the display-name rule on the current profile |
| `App.TodoApp.GroupedTodos` | src/App.tsx:186-189 | fails exactly when some period is an inherited `Object.prototype` name; otherwise has distinct keys, the list's periods as keys, each key's items its period's records, and sizes summing to the list length |
| `App.TodoApp.ClearAllTodos` | src/App.tsx:97-103 | confirmed: the list becomes empty and the cleared message shows; not confirmed: nothing changes |
| `App.TodoApp.HandleOpenProfileDialog` | src/App.tsx:106-108 | opens the dialog; nothing else changes |
| `App.TodoApp.HandleCloseProfileDialog` | src/App.tsx:111-113 | closes the dialog; nothing else changes |
| `App.TodoApp.SetAnonymous` | src/App.tsx:365-368 | sets only the anonymity flag of the profile |
| `App.TodoApp.SetName` | src/App.tsx:391-394 | sets only the name of the profile |
| `App.TodoApp.HandleSaveProfile` | src/App.tsx:116-123 | a non-anonymous profile with a blank name leaves the dialog as it was and asks for a name; otherwise the dialog closes with the saved message; the profile and the list are unchanged |
| `App.TodoApp.SetPeriod` | src/App.tsx:235 | sets only the period field |
| `App.TodoApp.SetInput` | src/App.tsx:244 | sets only the task field |
| `App.TodoApp.HandleAddTodo` | src/App.tsx:133-162 | a blank task, then a blank period, aborts with its message and changes nothing else (task checked first). Otherwise a pending edit rewrites the matching records and ends the edit, or the new record is appended to the old list. Both clear the two fields. Ids stay unique when `now` is fresh |
| `App.TodoApp.HandleDeleteTodo` | src/App.tsx:164-167 | the list becomes the records with other ids and the deleted message shows. Ids stay unique. An absent id changes nothing in the list. With unique ids, the list shrinks by one |
| `App.TodoApp.HandleEditTodo` | src/App.tsx:169-173 | loads the record's text and period into the fields and makes its id the pending edit; the list is not touched |
| `App.TodoApp.HandleToggleComplete` | src/App.tsx:175-179 | the list becomes its toggle at the id, ids stay unique, and nothing else changes |
| `App.TodoApp.HandleCloseSnackbar` | src/App.tsx:181-183 | hides the notification and keeps its message |

## Left out

- Rendering: the JSX tree, the MUI components, the submit button's label and the notification's auto-hide timer are presentation only.
- Persistence writes: writing the list and the profile to `localStorage` after every change, and removing the list entry in `clearAllTodos`, are browser I/O.
- Reads: `LoadSaved` takes what was read as a parameter. `JSON.parse` is library code, and it does not check the shape of what it returns, so a stored value of the wrong shape is not modelled. An empty stored string is falsy in the source and counts as `Absent`. Logging to the console is not modelled.
- The round trip of a list or profile through `JSON.stringify` and `JSON.parse` is library behaviour with no code here to model.
- Clock and dialog: `Date.now()` and `window.confirm` are parameters. The clock's values are not modelled, so nothing guarantees that a new id is fresh. The source does not guarantee it either.
- Numbers: identifiers are JavaScript numbers (doubles) and are modelled as unbounded integers.
- Render failure: `App.TodoApp.GroupedTodos` gives `None` when the reduce throws. What React does with that render error is not modelled.
- Group order: `Object.entries` lists integer-like keys such as `"1"` first, in ascending numeric order, and all other keys in insertion order. The model keeps all keys in insertion order, as the reduce builds them, so for integer-like period labels its order differs from the rendered order.
- React: re-rendering and state batching are not modelled. Each handler reads the state from when the event fired and its setters apply together, which is what each method does.
- `src/services/api.ts` is not part of this model. It holds an HTTP client configuration, interceptors that use browser storage and navigation, endpoint wrappers that nothing calls, and type declarations.
