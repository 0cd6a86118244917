# DevTeam dashboard: a verified model of its state and views

DevTeam is a single-page team-management dashboard. It has three collections, team
members, projects and tasks. They are held in one in-memory state object and
persisted as one JSON blob in browser storage under `devTeamData`. The first
load with nothing stored uses a built-in seed dataset.

This project models `app.js`, which holds all of the dashboard's logic:

- **Collections** (`collections.dfy`): the array operations the handlers use,
  made generic over a key function giving a record's `id`. `findIndex`/`find`
  by id is `IndexOf`. `Math.max(...ids, 0)` is `MaxKey`. `filter` by `!==` and
  by `===` are `RemoveId` and `WithId`. The file also defines id uniqueness.
- **Records** (`records.dfy`): the member, project and task records, the
  store, and the seed data.
- **Avatars** (`avatars.dfy`): the avatar derivation
  `split(' ') → first characters → join → toUpperCase → substring(0, 2)`. It is
  proved equal to an independent character scan (`WordStarts`), together with
  the `split`/`join` round trip.
- **Mutations** (`mutations.dfy`): the rules of the three save handlers.
  These are form validation with its alert text, id allocation (`max + 1`),
  appending a new record, and the spread-merge that replaces an edited one.
  They are written as functions on the collections, with the uniqueness of
  ids proved preserved.
- **AppState** (`store.dfy`): the state object as a class `Store`. Its three
  collections and the persisted blob are fields that the save and delete
  handlers update in place. Each method's `ensures` ties the new state to the
  Mutations and Collections functions.
- **Views** (`views.dfy`): what the four views display, as data.
  - Dashboard: counts and the five most recent tasks.
  - Project cards with progress.
  - Task rows with project and assignee names.
  - Member cards.
  - The status-class and priority-colour helpers, and the view dispatch with
    the global add button.
- **Scenarios** (`scenarios.dfy`): three walks through the store from the
  seed data.

Behaviours of `app.js` worth knowing, which the model keeps:

- **Ids are reused** (app.js:426, 444, 463). The next id is one past the
  current maximum, so deleting the record with the largest id and creating
  another hands out that id again (`Mutations.DeletedIdIsReused`).
- **Names are split on the single space character** (app.js:420).
  `split(' ')` does not split on tabs or other whitespace. Repeated spaces give
  empty tokens, and those contribute no initial.
- **Progress can round to 100% with a task still open** (app.js:173). With
  200 or more tasks in a project, 199 of 200 rounds to 100
  (`Views.RoundingExamples`). For a project with fewer than 200 tasks, 100%
  means every one of them is completed (`Views.ProgressFullOnlyIfDone`).
- **A malformed stored blob is not recovered** (app.js:28). `JSON.parse`
  throws on it, and nothing catches the exception. Parsing is outside the
  model (see Left out); `Store.Load` takes the already parsed value or its
  absence.
- **New projects have no deadline** (app.js:445). A project created through
  the form has no `deadline`; only seed projects carry one (app.js:16-18).

Some JavaScript semantics are made explicit:

- The save handlers test `if (id)` (app.js:422, 440, 459), so an id of 0,
  like `null`, means "create" (`IsEdit`).
- Editing an id that no record has makes `findIndex` return -1. The source
  then writes to the array's `-1` property, which is no element, so no record
  changes (outcome `Unmatched`).
- `!name` rejects only the empty string.
- `?.name || 'Unknown'` also falls back when the name found is empty.
- `Math.round((c / n) * 100)` (app.js:173) is modelled in exact rational
  arithmetic, rounding halves up; the floating-point difference is listed
  under Left out.

## Model

| member | source | states |
|---|---|---|
| Collections.IndexOf | app.js:423 | `findIndex` by id: the first index whose id matches; None exactly when no record has the id |
| Collections.MaxKey | app.js:426 | `Math.max(...ids, 0)`: at least 0, no id above it, and it is 0 or some record's id |
| Collections.RemoveId | app.js:403 | `filter(item => item.id !== id)`: keeps every record with another id and only those, never grows |
| Collections.WithId | app.js:171 | `filter(t => t.projectId === id)`: keeps every matching record and only those; order and copies are fixed by `WithIdAppend` |
| Collections.FiltersPartition | app.js:403 | the `!==` and `===` filters split a collection: their lengths add up to its length |
| Collections.RemoveAbsentId | app.js:403 | deleting an id no record carries leaves the collection as it is |
| Collections.RemoveIdIdempotent | app.js:403 | deleting the same id twice is deleting it once |
| Collections.RemoveIdAppend | app.js:403 | the delete filter keeps the order: it distributes over concatenation |
| Collections.WithIdAppend | app.js:171 | the project filter keeps order and every copy: it distributes over concatenation |
| Collections.RemoveIdShrinks | app.js:403 | the collection shrinks exactly when some record carries the id |
| Collections.RemoveUniqueId | app.js:403 | with unique ids, deleting a present id removes exactly one record |
| Collections.RemoveIdKeepsUnique | app.js:403 | deleting keeps ids unique |
| Avatars.Split | app.js:420 | `split(' ')`: at least one token, no token contains the separator |
| Avatars.JoinSplit | app.js:420 | `split` then `join` with the same separator gives the input back |
| Avatars.WordStarts | app.js:420 | the reference scan for initials yields no more characters than the name has |
| Avatars.WordStartsNoBlank | app.js:420 | no initial is a blank |
| Avatars.InitialsAreWordStarts | app.js:420 | first characters of the `split(' ')` tokens, empty tokens giving nothing, are exactly the non-blank characters that open the name or follow a blank |
| Avatars.WordStartsEmpty | app.js:420 | a name has no initials exactly when it holds only blanks |
| Avatars.UpperChar | app.js:420 | `toUpperCase` on one character: a lower-case ASCII letter becomes the capital at the same place in the alphabet, any other character is unchanged, and no lower-case letter remains |
| Avatars.Upper | app.js:420 | `toUpperCase`: same length, applied character by character |
| Avatars.Avatar | app.js:420 | the avatar has at most 2 characters, no blank and no lower-case letter, and is the first two upper-cased word initials of the name |
| Avatars.AvatarEmpty | app.js:420 | the avatar is empty exactly when the name holds only blanks |
| Avatars.AvatarOfTwoWords | app.js:10 | "Sarah Connor" gets "SC", as stored in the seed |
| Avatars.AvatarOfThreeWords | app.js:420 | "Harold James Finch" gets "HJ": only two initials are kept |
| Avatars.AvatarUpperCases | app.js:420 | "sameen shaw" gets "SS": initials are upper-cased |
| Mutations.TwoWordAvatar | app.js:10-13 | a name of two capitalised words gets their two capitals, the pattern of every seed avatar |
| Mutations.MemberFormError | app.js:418 | a member is rejected with "Name and Role are required" exactly when its name or role is empty |
| Mutations.ProjectFormError | app.js:438 | a project is rejected with "Project Name is required" exactly when its name is empty |
| Mutations.TaskFormError | app.js:457 | a task is rejected with "Task Title is required" exactly when its title is empty |
| Mutations.NextId | app.js:426 | the new id is at least 1, above every id in use, and one past the largest of them (1 if none is positive) |
| Mutations.CreateMember | app.js:426-427 | appends one member after the unchanged old ones: id max+1, above every other id, the form's fields and the avatar of its name |
| Mutations.UpdateMember | app.js:423-424 | only the member at the index changes: it keeps its id and takes the form's fields and a recomputed avatar |
| Mutations.CreateProject | app.js:444-445 | appends one project after the unchanged old ones: id max+1, the form's fields, and no deadline |
| Mutations.UpdateProject | app.js:441-442 | only the project at the index changes: it keeps its id and deadline and takes the form's fields |
| Mutations.CreateTask | app.js:463-464 | appends one task after the unchanged old ones: id max+1 and the form's fields |
| Mutations.UpdateTask | app.js:460-461 | only the task at the index changes: it keeps its id, and every other field comes from the form |
| Mutations.MemberSavesKeepUnique | app.js:422-428 | creating or editing a member keeps member ids unique |
| Mutations.ProjectSavesKeepUnique | app.js:440-446 | creating or editing a project keeps project ids unique |
| Mutations.TaskSavesKeepUnique | app.js:459-465 | creating or editing a task keeps task ids unique |
| Mutations.DeletedIdIsReused | app.js:426 | create, delete that record, create again: the second record gets the same id |
| AppState.Store.Load | app.js:28 | the state is the stored blob when there is one, the seed data otherwise; the seed data has unique ids in each collection, the base case of the uniqueness every save and delete preserves |
| AppState.Store.SaveState | app.js:30-33 | the stored blob becomes the whole current state |
| AppState.Store.SaveTeamMember | app.js:413-431 | a rejected form changes nothing. A create appends per `CreateMember`. An edit of a present id replaces per `UpdateMember`, and an unknown id changes nothing. Projects and tasks are untouched. Any accepted save persists, and unique ids stay unique |
| AppState.Store.SaveProject | app.js:433-448 | as for members, with `CreateProject`/`UpdateProject`; teams and tasks untouched |
| AppState.Store.SaveTask | app.js:450-467 | as for members, with `CreateTask`/`UpdateTask`; teams and projects untouched |
| AppState.Store.DeleteItem | app.js:399-404 | without confirmation nothing changes. With it, only the named collection is filtered by `RemoveId`, the other two (so also tasks pointing at a deleted record) are untouched, the state is persisted, and unique ids stay unique |
| Views.StatusClass | app.js:273-277 | Active, Completed and Done give status-completed; In Progress gives status-active; every other status gives status-pending |
| Views.StatusClassExamples | app.js:273-277 | the class of each status the dashboard uses, and of an unknown one |
| Views.PriorityColor | app.js:279-283 | High is #EF4444, Medium #F59E0B, any other priority #10B981 |
| Views.CompletedCount | app.js:172 | the completed tasks number at most all tasks; none exactly when no task is completed, all exactly when every task is; with `CompletedCountAppend` this is the length of the `=== 'Completed'` filter |
| Views.PendingCount | app.js:100 | the tasks not completed number at most all tasks, and all of them exactly when none is completed; with `PendingCountAppend` this is the length of the `!== 'Completed'` filter |
| Views.CompletedCountAppend | app.js:172 | the completed count distributes over concatenation |
| Views.PendingCountAppend | app.js:100 | the pending count distributes over concatenation |
| Views.PendingPlusCompleted | app.js:100 | pending and completed tasks add up to all tasks |
| Views.RoundedPercent | app.js:173 | the integer nearest to 100·c/n (within half a point), 0 when n is 0, at most 100 when c ≤ n |
| Views.FullProgress | app.js:173 | all tasks completed shows 100%; below 200 tasks, 100% means all completed |
| Views.NoProgress | app.js:173 | no task completed shows 0%; up to 200 tasks, 0% means none completed |
| Views.RoundingExamples | app.js:173 | 1 of 4 is 25%, no tasks is 0%, 199 of 200 shows 100%, 1 of 201 shows 0% |
| Views.Progress | app.js:171-173 | a project's progress is within 0..100, within half a point of 100 × (its completed tasks) / (its tasks) when it has tasks, and 0 when no task refers to it |
| Views.ProgressFull | app.js:171-173 | a project that has tasks, all of them completed, shows 100% |
| Views.ProgressFullOnlyIfDone | app.js:171-173 | a project with fewer than 200 tasks that shows 100% has every one of its tasks completed |
| Views.ProgressNone | app.js:171-173 | a project with no completed task shows 0%; for a project with at most 200 tasks, 0% means none of its tasks is completed |
| Views.LookupName | app.js:148-149 | `find(...)?.name \|\| fallback`: the fallback when no record has the id; otherwise the first match's name, or the fallback if that name is empty; never empty when the fallback is not |
| Views.LookupAfterRemove | app.js:148-149 | deleting the records of one id leaves the lookup of every other id unchanged |
| Views.Dashboard | app.js:98-158 | counts all projects and members; pending plus completed tasks is all tasks; the recent list has min(5, tasks) rows, the first tasks in stored order |
| Views.ProjectCards | app.js:167-199 | one card per project, in order, with the project's id, name, status, status class and description, and the progress of that project's tasks, within 0..100 |
| Views.TaskRows | app.js:205-239 | one row per task, in stored order, each showing its task |
| Views.MemberCards | app.js:248-268 | one card per member, in order, showing the stored avatar, not one recomputed from the name |
| Views.RenderView | app.js:59-94 | "dashboard" gets the title "Dashboard", the dashboard and no add button. The three other named views get their title and content and the add button. Any other name shows the dashboard with the add button and sets no title |
| Views.DeletedProjectShowsUnknown | app.js:222 | after a project is deleted, the rows of its tasks differ only in the project cell, which reads "Unknown"; every other task row is exactly as before |
| Views.DeletedMemberShowsUnassigned | app.js:223 | after a member is deleted, the rows of that member's tasks differ only in the assignee cell, which reads "Unassigned"; every other task row is exactly as before |
| Views.SeedPending | app.js:100 | the seed data shows 3 pending tasks |
| Views.SeedProgress | app.js:171-173 | in the seed data project 1 shows 50% and project 2 shows 0% |
| Scenarios.DeleteSeedMember | app.js:399-404 | deleting seed member 1 keeps all four tasks, and that member's two tasks show "Unassigned", one still "In Progress" |
| Scenarios.RejectUntitledTask | app.js:457 | an untitled task is rejected with its alert and the seed tasks are unchanged |
| Scenarios.CreateSeedProject | app.js:444-445 | a project created over the seed data gets id 4 and no deadline, and the dashboard counts 4 projects |

## Left out

- Markup, styling and the DOM: the views are modelled as the data each card or row shows, not as HTML strings; HTML is not escaped in the source and the model does not address injection.
- The modal (`openModal`, app.js:303-397): it only prefills form fields and wires the confirm button to a save handler; the values a save reads are the `MemberForm`, `ProjectForm` and `TaskForm` parameters.
- `parseInt` of the two task selects (app.js:452-453): the form carries the already parsed integers; a `NaN` from an empty select is not modelled.
- `JSON.parse`/`JSON.stringify` and browser storage: the stored blob is a `StoreData` value; a malformed blob, which throws in the source, is not modelled.
- `confirm`, `alert` and the toast (`showToast`, app.js:285-292): the confirmation is the `confirmed` parameter of `DeleteItem`, the alert is the `Rejected` message, and the toast and its timer are I/O.
- Navigation handlers and the re-render after a save or delete (app.js:48-57, 406-408, 469-473): they pick which view to render, which `RenderView` models for any view name.
- Avatars.UpperChar: upper-cases the ASCII letters only; `toUpperCase` also maps other Unicode letters, and can lengthen a string (e.g. "ß"), which is not modelled.
- Avatars.Avatar: a Dafny `char` is a whole Unicode scalar value, while `n[0]` and `substring(0, 2)` (app.js:420) index UTF-16 code units; for a name whose word starts with a character outside the Basic Multilingual Plane (an emoji, say) the source takes a lone surrogate half and the model the whole character.
- Views.RoundedPercent: computes round-half-up of 100·c/n exactly, while app.js:173 rounds the double `(c / n) * 100`, which can fall just below a half; for 23 of 40 the double is 57.49999999999999, so the source shows 57% and the model 58% (likewise 46 of 80, 29 of 200, 57 of 200). The two agree whenever 100·c/n is not within rounding error of a half.
- Avatars.WordStarts: its own contract bounds only the length; what it yields is stated by `InitialsAreWordStarts`, `WordStartsNoBlank` and `WordStartsEmpty`.
- Views.TaskRows: the project and assignee cells are stated through `LookupName`, whose contract gives the placeholder behaviour; the row itself is stated by construction.
- Views.FullProgress: the converse "100% only when all tasks are completed" is stated only below 200 tasks, because from 200 tasks on the source rounds 99.5% and above to 100%.
- Views.NoProgress: the converse "0% only when no task is completed" is stated only up to 200 tasks, because from 201 tasks on one completed task rounds to 0%.
- Loose versus strict equality in lookups: ids are always numbers here, so `==` and `===` agree and both are modelled as integer equality.
