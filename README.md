# School-management controllers: program composer and user associations

This project models, in Dafny, the two pieces of logic the school-management
application's controllers own. Everything around them is framework plumbing.

- **Program/period composer** (`ProgramController`). `store` filters the
  request and creates the program row. It then walks the submitted list of
  entries in order:
  - An entry whose `type` is exactly the string `period` becomes a period row.
    Its `ordr` is the period counter and its `program_id` is the new program's
    id; both overwrite whatever the entry carried.
  - Any other entry calls `attach` on the most recently created period with
    the entry's `id`. `attach` writes one pivot row per element of
    `(array) $id`: none for a null id, one per element for a list, and one for
    any other value. All rows of one call carry the same `ordr` and the
    program's id. The `ordr` comes from a second counter that is shared
    across the whole list and advances once per call, whatever number of rows
    the call wrote. Pivot orders therefore never decrease, but can skip
    values.
  - `Compose` is the functional specification of this loop. The loop method
    `ComposePeriods` is proved to write exactly its rows, one entry at a time
    (`ComposeEntry`). Lemmas prove the period orders contiguous, the counter
    shared, and each pivot row owned by the cursor.
  - `periods` lists a program's periods in order. It replaces each non-empty
    subject-id list with an id-to-name map taken from the subject table.
  - `update` sets an absent or empty `periods` field to an empty list.
- **User associations and input clean-up** (`UserController`, `Associations`,
  `GradeBook`):
  - A user is an `Account` object. It holds attributes and one set of linked
    ids per relation (`branches`, `programs`, `parents`, `childrens`), with
    `Sync`, `Attach` and `Detach` methods.
  - `store` drops falsy fields, converts the branch ids with `intval` in place,
    hashes a non-empty password, and syncs branches only when some were
    submitted.
  - `update` collapses the family-member list into a map keyed by PHP array
    key, which removes duplicates. The string `"5"` and the integer `5` are one
    key, `true` is key 1, null is key `""`, and an array id fails. It attaches the members to `parents` for a student and
    to `childrens` for anyone else. Then it hashes a non-empty password, writes
    the attributes, and replaces the branch and program sets.
  - `removeMember` finds the user by id, failing when there is none. It then
    detaches from the same role-selected relation.
  - `show` defaults `tab` to `account`. For a student it groups the grade rows
    by subject, ordered by grade.

Failures propagate as values of `Php.Error`. The framework turns PHP notices
and warnings into exceptions, such as an undefined index, the still-undefined
period cursor, or a `foreach` over a non-list. The controllers'
`catch (Exception $e)` clauses name a class in the controllers' own namespace
that is never imported, so they catch nothing.

Two points where the code differs from a transactional design:

- **Composition is not atomic.** The program row and every period and pivot row
  written before a failure stay in place. This is shown by
  `FailureKeepsEarlierRows` and by the concrete `NotAtomic`.
- **A duplicate family member fails the whole `update`.** If any submitted
  member is already linked, the request fails and nothing else is applied. The
  duplicate is not skipped.

`update` does not filter falsy fields, so an empty password is written exactly
as submitted (`UserController.UpdateData`).

Files: `php_values.dfy` (module `Php`), `program_controller.dfy`
(`ProgramController`), `associations.dfy` (`Associations`),
`user_controller.dfy` (`UserController`), `grade_book.dfy` (`GradeBook`).

## Model

| member | source | states |
|---|---|---|
| `Php.ArrayFilter` | app/Http/Controllers/ProgramController.php:58 | `array_filter` keeps a key exactly when its value is truthy (PHP's `empty` is false for it), with the value unchanged |
| `Php.IntValOfRendered` | app/Http/Controllers/UserController.php:102-104 | `intval` gives back every integer as PHP renders it as a string, so a submitted numeric branch id becomes that integer; `intval` of an integer is the integer |
| `ProgramController.Store` | app/Http/Controllers/ProgramController.php:56-90 | the filtered request becomes a new program row. When `periods` is filled, the period and pivot tables grow by exactly the rows `Compose` gives and the request fails with `Compose`'s failure. When `periods` is not filled, no period or pivot row is written. Rows written before a failure stay |
| `ProgramController.FailureIsFinal` | app/Http/Controllers/ProgramController.php:70-82 | once an entry fails, the rest of the list writes nothing more |
| `ProgramController.ComposeEntry` | app/Http/Controllers/ProgramController.php:72-81 | one pass of the loop writes exactly the rows and counter values `Step` gives for that entry. It keeps the cursor at the last period written, and the program table stays |
| `ProgramController.ComposePeriods` | app/Http/Controllers/ProgramController.php:66-82 | the loop appends exactly `Compose`'s period and pivot rows to the tables, returns its failure, and leaves the program table unchanged |
| `ProgramController.RowOrders` | app/Http/Controllers/ProgramController.php:68-80 | period row k has `ordr` k and the new program's id, whatever the entry submitted. Every pivot row carries the program's id and an `ordr` below the attachment counter. No pivot row's `ordr` is below an earlier one's. Every pivot row references one of the periods created in this request |
| `ProgramController.CountsMatchEntries` | app/Http/Controllers/ProgramController.php:68-80 | without a failure there is one period row per `period` entry. The attachment counter ends at the number of other entries: one counter for the whole list, never reset |
| `ProgramController.EntryAttaches` | app/Http/Controllers/ProgramController.php:78-79 | in a list that does not fail, each non-period entry has an `id` and a period entry before it, and its pivot rows follow those of the earlier entries |
| `ProgramController.PeriodRowOfEntry` | app/Http/Controllers/ProgramController.php:72-77 | the k-th period entry becomes period row k: the entry itself, with `ordr` = k and `program_id` = the program overwritten |
| `ProgramController.AttachmentOfEntry` | app/Http/Controllers/ProgramController.php:76-80 | the k-th element of `(array) $id` of a non-`period` entry becomes the pivot row at position k past the earlier entries' rows. The row points at the row of the nearest preceding `period` entry, and its `ordr` is the number of earlier non-period entries |
| `ProgramController.NullIdLeavesGap` | app/Http/Controllers/ProgramController.php:78-80 | a subject entry with a null id writes no pivot row but still advances the counter, so the next subject's row has `ordr` 1 |
| `ProgramController.LeadingSubjectFails` | app/Http/Controllers/ProgramController.php:70-80 | a list whose first entry is not a period fails with no current period and writes no period or pivot row |
| `ProgramController.FailureKeepsEarlierRows` | app/Http/Controllers/ProgramController.php:62-82 | a failure at entry p leaves exactly the rows of the entries before p: nothing is rolled back |
| `ProgramController.NotAtomic` | app/Http/Controllers/ProgramController.php:62-80 | a period followed by a subject entry without `id` fails the request, and the period row stays |
| `ProgramController.Periods` | app/Http/Controllers/ProgramController.php:141-157 | an unknown program is not found. Otherwise the list has the same length and order as the program's periods, with the same attributes. An empty subject list stays as it is. A non-empty one becomes a map from exactly the listed ids the subject table holds to their names |
| `ProgramController.UpdateData` | app/Http/Controllers/ProgramController.php:126-129 | the update data is the filtered request, with `periods` set to an empty list when absent or empty |
| `ProgramController.Update` | app/Http/Controllers/ProgramController.php:124-139 | a missing program is not found. Otherwise that program's attributes take the update data, and no other row changes |
| `Associations.Account.constructor` | app/Http/Controllers/UserController.php:111 | a created user has the given attributes and no links |
| `Associations.Account.Fill` | app/Http/Controllers/UserController.php:260 | the submitted attributes override the stored ones; the links stay |
| `Associations.Account.Sync` | app/Http/Controllers/UserController.php:262-264 | the relation holds exactly the given ids; other relations and the attributes stay |
| `Associations.Account.Attach` | app/Http/Controllers/UserController.php:246-253 | attaching succeeds exactly when no given id is linked yet, and then adds them all; on failure nothing changes; other relations stay |
| `Associations.Account.Detach` | app/Http/Controllers/UserController.php:279-282 | the id is no longer linked, whether or not it was; nothing else changes |
| `UserController.FamilyRelation` | app/Http/Controllers/UserController.php:247-250 | a student's family relation is `parents`, and anyone else's is `childrens` |
| `UserController.StoreData` | app/Http/Controllers/UserController.php:97-108 | `store` keeps exactly the filled fields, unchanged, except that a filled password is replaced by its hash |
| `UserController.IntegerizeBranches` | app/Http/Controllers/UserController.php:99-105 | each branch id is replaced, at the same position, by its `intval` |
| `UserController.Store` | app/Http/Controllers/UserController.php:95-121 | a filled branch field that is not a list fails before any user is created. Otherwise a new user gets the store data. Its branches are the `intval`s of the submitted ids when some were submitted, and none otherwise; its other relations are empty |
| `Php.NumericKeysCollapse` | app/Http/Controllers/UserController.php:243 | an integer and its decimal string are the same array key |
| `UserController.CollectMembers` | app/Http/Controllers/UserController.php:238-244 | the loop filling `$users` computes `Collect`: each id stored under its array key in member order, failing at the first member without a usable key |
| `UserController.CollectFailureIsFinal` | app/Http/Controllers/UserController.php:242-244 | once a member fails, the rest of the list does not change the outcome |
| `UserController.CollectFails` | app/Http/Controllers/UserController.php:242-244 | the loop succeeds exactly when every member has an `id` that is a valid array key. On failure, the error is that of the first member without one |
| `UserController.CollectKeys` | app/Http/Controllers/UserController.php:242-244 | after a successful loop, every member's array key is in the map |
| `UserController.CollectSize` | app/Http/Controllers/UserController.php:242-244 | the map has no more entries than there are members |
| `UserController.CollectLastWins` | app/Http/Controllers/UserController.php:242-244 | every entry of the map holds the id of the last member with that array key |
| `UserController.NumericStringIdsCollapse` | app/Http/Controllers/UserController.php:242-244 | members with ids `"5"` and `5` collapse into one entry, holding the later id |
| `UserController.SubmittedIds` | app/Http/Controllers/UserController.php:219-220 | an unset relation field gives the empty set; a list gives exactly its items |
| `UserController.UpdateData` | app/Http/Controllers/UserController.php:224-257 | `update` keeps every submitted field, falsy ones included. A submitted picture is named by the stored file. The password is hashed only when it is not empty; otherwise it stays as submitted |
| `UserController.JoinFamily` | app/Http/Controllers/UserController.php:236-254 | with family members submitted, it fails with the collecting loop's failure, or when a collected id is already linked. Otherwise the role's family relation gains exactly the collected ids, one per array key. The other relations and the attributes stay |
| `UserController.Update` | app/Http/Controllers/UserController.php:215-273 | a family failure leaves the user untouched. Otherwise the attributes take the update data, and the branch and program sets equal the submitted ones (empty when absent). The role's family relation gains the collected ids, and the other family relation stays |
| `UserController.RemoveMember` | app/Http/Controllers/UserController.php:275-285 | an unknown user id fails as not found. Otherwise the member leaves that user's role-selected family relation (`parents` for a student, `childrens` otherwise). Its other relations, its attributes and every other user stay |
| `UserController.Show` | app/Http/Controllers/UserController.php:129-186 | `tab` is `account` unless it was set, and every other field stays. Only a student's page carries the grade table of their rows |
| `GradeBook.Insert` | app/Http/Controllers/UserController.php:178 | inserting into rows sorted by grade keeps them sorted and adds exactly the one row |
| `GradeBook.SortByGrade` | app/Http/Controllers/UserController.php:178 | `sortBy('grade_id')` returns the rows sorted by grade, as a permutation of the input |
| `GradeBook.GroupIsFilter` | app/Http/Controllers/UserController.php:178 | the one-pass `groupBy('subject_id')` has a group for exactly the subjects present, each holding that subject's rows in their order |
| `GradeBook.StudentGradesPartition` | app/Http/Controllers/UserController.php:172-178 | the grade table partitions the rows: each group is non-empty, sorted by grade and of its own subject only, every row's subject has a group, and each row appears in its subject's group exactly as often as it was fetched |

## Left out

- Views, redirects, flash messages, pagination and `User::search`: these are rendering and query plumbing.
- The lookup tables built in the constructors, `config('settings.permissions')`, `UserRepository`, and the `users_subjects` pivot query in `show` are lookups passed through to the view. The subject table that `periods` reads is a parameter.
- `$teacher_subjects` is computed and never used.
- The `isRole`/`isTeacher`/`isStudent` implementations: the role is an enum fixed on the account, and only `isStudent` affects the modelled code.
- `json_decode`: the decoded `periods` and `family_members` lists are parameters. Invalid JSON and list items that are not objects are not modelled.
- `bcrypt`: it is the opaque `hash` parameter. Its salt and randomness are not modelled.
- The profile-picture upload and file move are filesystem I/O. The stored file name is a parameter.
- Eloquent's mass assignment (`$fillable`) is not modelled: `create` and `update` store every field handed to them.
- `Program::getPeriods` is not part of this model. `periods` receives each program's stored periods as a map from program id to list.
- Row ids are positions in the model's tables, in place of auto-increment keys.
- The pivot tables are not modelled as shared between rows. `parents` of a student and `childrens` of a parent are one table seen from both ends; the model keeps each account's own side.
- Array keys: integer strings beyond `PHP_INT_MAX` and float ids are not modelled; floats are not among the model's values.
- The database's coercion of a string id such as `"3"` to the integer `3` is not modelled. Outside the family map, ids are compared as submitted.
- `attach` of a list element that is itself an array uses the element's key as the id and adds the array as extra pivot columns. The extra columns are not modelled.
- Route-model binding of `User $user` in `show`, `edit`, `update` and `destroy` (and of the program in `edit` and `destroy`) runs before the controller. A missing row there is the framework's 404, not controller logic.
- `UserController.RemoveMember`: the route parameter of `removeMember` is taken as an integer key of the user table.
- A scalar submitted as a branch or program field in `update` is taken as a one-element list. Eloquent's handling of such input is not modelled.
- `Associations.Account.Attach`: failure on an already-linked id assumes a unique key on the pivot table. The schema is not part of this model; the message at UserController.php:252 shows the authors expected that failure.
- Transactions, concurrency and the `catch (Exception $e)` branches: the code has no transaction, and the catch clauses never match.
- `Php.IntValOfRendered`: `intval` is modelled for white space, sign and decimal digits. Exponent and float notation, hexadecimal-looking strings and the saturation at `PHP_INT_MAX` are not.
- `GradeBook.SortByGrade`: rows with equal `grade_id` keep their fetched order. PHP 7's sort is not stable, so the source leaves their order unspecified; only sortedness and permutation are claimed.
- `GradeBook.StudentGradesPartition`: the order of the groups, which follows the first appearance of each subject, is not modelled, because the table is a map.
