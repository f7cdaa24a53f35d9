# Staging2Live synchronizer and file inventory, modelled in Dafny

Staging2Live copies changes from a WordPress staging site to the production site. This
project models its core:

- **The synchronizer** (`STL_Synchronizer`). `sync_files` applies file changes. It copies
  added and modified files from staging, creating the target directory first when it is
  missing. It also deletes removed files. It records one success or error message per
  requested path.
- **Database sync.** `sync_db` looks up each requested (table, id) pair in the change
  list. The change list comes in three shapes: post-type groups, then content groups, then
  a flat list per table. The first match wins. `process_db_change` then applies that change
  to the production table (`wp_` prefix) from the staging table (`wp_staging_` prefix). It
  inserts, updates or deletes rows keyed by the table's first primary-key column and records
  one message.
- **The file inventory** (`STL_File_Handling`). `list_files` and `scan_directory` walk the WordPress
  root. They skip the pseudo-entries `.` and `..`, hidden names (except `.htaccess`) and
  directories whose name starts with `cache`, and record a relative path and a content hash
  for each file. `get_relative_path` produces that path. `insert_files_into_database` adds
  each record to the file-hash table unless a row with its path already exists.

Files:

- `wrappers.dfy`: Option and Result.
- `file_handling.dfy`: `str_replace`, the relative path, the exclusion test, the scan as
  functions with its soundness and completeness, the insert-if-absent pass, and the class
  `FileHandler` whose methods are proved against those functions.
- `change_lists.dfy`: the three change-list shapes and the lookup, as functions. It is
  proved equal to a first-match search over one flat candidate list, and the nested loops of
  `sync_db` are proved equal to those functions.
- `database.dfy`: tables, rows, `get_primary_key`, `get_table_columns`, the staging-row
  fetch, the row effect of the INSERT, UPDATE and DELETE statements, and the two
  query-building loops.
- `sync_spec.dfy`: one step of `sync_files`, `process_db_change` and one step of
  `sync_db` as functions of the state before them, folded over the request lists, with
  their properties.
- `synchronizer.dfy`: the class `Synchronizer`, whose methods `SyncFiles`, `SyncDb` and
  `ProcessDbChange` mirror the PHP control flow and are proved equal to those functions.

Environment calls become arguments:

- Outcomes of `wp_mkdir_p`, `copy`, `unlink`, the synchronizer's INSERT, UPDATE and
  DELETE queries (when the query text itself is well formed), and the file-hash table's
  COUNT and INSERT are oracle functions. The synchronizer's read queries have no oracle:
  they always succeed. They are indexed by the position of the request or record.
- `sha256` is a function the scanner is given.
- What the comparers' `get_changes()` return is a method argument.

Where the code and its comments suggest different behaviour, the model follows the code:

- The staging root is the `staging/` directory below the production root (line 75), so
  the model has one file tree and reads a staging file at `staging/` + its path. A request
  list can therefore delete a staging file before another request copies it.
- The `$actual_table` values computed inside the search loops (lines 207-212 and
  249-254) are never used. `process_db_change` is called with the requested table, so
  only its own `attachment_meta` to `postmeta` renaming takes effect. A request for
  `posts` that matched an `attachments` section therefore works on `wp_posts`.
- An UPDATE whose SET list is empty is malformed SQL, so the model treats it as a failed update.
- A delete whose query runs is a success even when no row matched.

## Model

| member | source | states |
|---|---|---|
| FileHandling.FileHandler.constructor | includes/class-STL_File_Handling.php:10-23 | the base directory is the home path with backslashes turned into slashes and holds no backslash; the inventory starts empty |
| FileHandling.FileHandler.ListFiles | includes/class-STL_File_Handling.php:28-38 | a base that is not a directory yields the invalid-directory error and leaves the inventory alone; otherwise the scan's records are appended after the earlier ones and the whole inventory is returned |
| FileHandling.FileHandler.ScanDirectory | includes/class-STL_File_Handling.php:45-80 | the recursive walk appends exactly the records of the listing, in traversal order |
| FileHandling.ScanSound | includes/class-STL_File_Handling.php:45-80 | every record comes from a regular file reached through directories none of which is excluded, with the relative path of that file and the hash of its contents |
| FileHandling.ScanEntrySound | includes/class-STL_File_Handling.php:49-78 | a record contributed by one listing item comes from a file that is that item or lies below it through non-excluded items |
| FileHandling.ScanComplete | includes/class-STL_File_Handling.php:45-80 | every file reached through non-excluded directories, and not excluded itself, is recorded |
| FileHandling.ExclusionExamples | includes/class-STL_File_Handling.php:51-56 | `.htaccess` is kept, other dot names are skipped, a directory named `cache…` is skipped but a file named `cache…` is kept, the dot entries are skipped |
| FileHandling.RelativePathHasNoBackslash | includes/class-STL_File_Handling.php:89-97 | the relative path never contains a backslash, whatever the base directory |
| FileHandling.RelativePathStripsBase | includes/class-STL_File_Handling.php:89-97 | below a normalised base, a path `base/rest` whose rest does not contain `base/` again becomes the normalised rest |
| FileHandling.ReplaceCharRemovesIt | includes/class-STL_File_Handling.php:92 | replacing a character by a different one leaves none of it |
| FileHandling.ReplaceAllWithoutOccurrence | includes/class-STL_File_Handling.php:95 | `str_replace` returns a subject with no occurrence of the search string unchanged |
| FileHandling.ReplaceAll | includes/class-STL_File_Handling.php:92-95 | PHP `str_replace` with one search string: non-overlapping occurrences replaced left to right; an empty search string changes nothing (definition; properties in the lemmas below) |
| FileHandling.Normalize | includes/class-STL_File_Handling.php:21 | every backslash becomes a slash (definition; ReplaceCharRemovesIt states the effect) |
| FileHandling.RelativePath | includes/class-STL_File_Handling.php:89-97 | normalise, then delete every occurrence of `base/` (definition; RelativePathHasNoBackslash, RelativePathStripsBase and RelativePathCollision state the effect) |
| FileHandling.RelativePathCollision | includes/class-STL_File_Handling.php:95 | two different paths, `/w/x/w/y` and `/w/xy` under base `/w`, both get the relative path `xy`, because every occurrence of the base is deleted |
| FileHandling.Skipped | includes/class-STL_File_Handling.php:54 | the skip test: dot entries, names starting with `.` other than `.htaccess`, directories whose name starts with `cache` (definition; ExclusionExamples states cases) |
| FileHandling.Scan | includes/class-STL_File_Handling.php:45-80 | the records one listing contributes, in order (definition; ScanSound, ScanComplete and ScanCount state the effect) |
| FileHandling.ScanEntry | includes/class-STL_File_Handling.php:58-78 | the records one item contributes: one for an included file, its subtree's for an included directory, none otherwise (definition) |
| FileHandling.ScanCount | includes/class-STL_File_Handling.php:62-73 | the scan yields exactly one record per included file, counted by a separate recursion over the tree |
| FileHandling.CountPath | includes/class-STL_File_Handling.php:113-118 | the COUNT of rows with a path (definition) |
| FileHandling.InsertAbsent | includes/class-STL_File_Handling.php:110-131 | the table after the pass, with each record's COUNT and INSERT outcome from the oracle (definition; InsertAbsentCounts, InsertAbsentExtends and FailedCountDuplicates state the effect) |
| FileHandling.FailedCountDuplicates | includes/class-STL_File_Handling.php:113-121 | a failed COUNT is read as zero, so a path that already has a row gets a second one |
| FileHandling.FileHandler.InsertFilesIntoDatabase | includes/class-STL_File_Handling.php:102-133 | the loop of COUNT checks and inserts, with each query's outcome from the oracle, leaves the table as the insert-if-absent pass over the inventory |
| FileHandling.InsertAbsentCounts | includes/class-STL_File_Handling.php:110-131 | when every COUNT succeeds, a path that had rows keeps exactly that many; a path without rows has one row if some record with it is inserted successfully and none otherwise, even when the inventory names it twice |
| FileHandling.InsertAbsentExtends | includes/class-STL_File_Handling.php:110-131 | existing rows keep their place and hash; every added row is a record of the inventory |
| ChangeLists.ChangeTypeOf | includes/class-stl-synchronizer.php:344-434 | the labels `added`, `modified` and `deleted`, and only those, read as the three known types; any other label is kept as an unknown type |
| ChangeLists.SectionMatches | includes/class-stl-synchronizer.php:202-204 | a section matches under its own name, `attachments` and `child_posts` for `posts`, `attachment_meta` for `postmeta` (definition) |
| ChangeLists.FirstInSections | includes/class-stl-synchronizer.php:242-263 | the first record with the id in the first matching section that holds one (definition; SectionSearchIsFlatSearch states the effect) |
| ChangeLists.FirstInGroups | includes/class-stl-synchronizer.php:240-266 | the same over a list of groups (definition; GroupSearchIsFlatSearch) |
| ChangeLists.FirstInPostTypes | includes/class-stl-synchronizer.php:196-225 | the same over post types and their groups (definition; PostTypeSearchIsFlatSearch) |
| ChangeLists.Locate | includes/class-stl-synchronizer.php:191-292 | post-type groups, then content groups, then the flat list of the table (definition; LocateIsFirstCandidate states the effect) |
| ChangeLists.FirstWithId | includes/class-stl-synchronizer.php:279-284 | a record is found exactly when one has the id, and it is the first such record |
| ChangeLists.SectionSearchIsFlatSearch | includes/class-stl-synchronizer.php:242-263 | the search over a group's sections is the first-match search over the records of the matching sections, in order |
| ChangeLists.GroupSearchIsFlatSearch | includes/class-stl-synchronizer.php:240-266 | the search over groups is the first-match search over all their matching records, in order |
| ChangeLists.PostTypeSearchIsFlatSearch | includes/class-stl-synchronizer.php:196-225 | the search over post types and their groups is the first-match search over all their matching records, in order |
| ChangeLists.LocateIsFirstCandidate | includes/class-stl-synchronizer.php:191-292 | the lookup reports the first of the three shapes that holds the id; it finds a record exactly when the concatenated candidate list does, and that record is the list's first with the id |
| ChangeLists.PostTypeMatchPreempts | includes/class-stl-synchronizer.php:228-232 | a match in the post-type groups decides the lookup whatever the other shapes hold |
| ChangeLists.ContentMatchPreempts | includes/class-stl-synchronizer.php:269-273 | failing the post-type groups, a match in the content groups decides the lookup whatever the flat lists hold |
| ChangeLists.AttachmentAliasExample | includes/class-stl-synchronizer.php:202-203 | a `posts` request finds a record filed under an `attachments` section |
| ChangeLists.SearchSection | includes/class-stl-synchronizer.php:215-223 | the innermost loop returns the first record with the id |
| ChangeLists.SearchSections | includes/class-stl-synchronizer.php:200-226 | the section loop equals the section search function |
| ChangeLists.SearchGroups | includes/class-stl-synchronizer.php:240-266 | the group loop equals the group search function |
| ChangeLists.SearchPostTypes | includes/class-stl-synchronizer.php:196-227 | the post-type loop equals the post-type search function |
| ChangeLists.LocateChange | includes/class-stl-synchronizer.php:191-292 | the three searches in their order equal the lookup function |
| Database.GetPrimaryKey | includes/class-stl-synchronizer.php:482-492 | nothing exactly when the table is missing or has no primary key; otherwise its first key column |
| Database.GetTableColumns | includes/class-stl-synchronizer.php:500-513 | every column SHOW COLUMNS reports for the table, in order; none for a missing table |
| Database.SelectRow | includes/class-stl-synchronizer.php:350 | a row is returned only if it is in the table and carries the id in the key column, and nothing only if no row does |
| Database.FetchRow | includes/class-stl-synchronizer.php:385 | the staging row with the id in the key column, nothing for a missing table; the same lookup as at line 350 (definition over SelectRow) |
| Database.InsertedRow | includes/class-stl-synchronizer.php:357-372 | the inserted row holds exactly the listed columns that the staging row sets to a non-NULL value, with their staging values |
| Database.UpdateRows | includes/class-stl-synchronizer.php:406-408 | rows carrying the id get the SET columns overwritten; other rows are untouched; the row count is kept |
| Database.DeleteRows | includes/class-stl-synchronizer.php:421 | the rows left are exactly those that do not carry the id, each as many times as before |
| Database.DeleteRowsIdempotent | includes/class-stl-synchronizer.php:421 | deleting twice is deleting once |
| Database.UpdateKeepsKeys | includes/class-stl-synchronizer.php:396-400 | a SET list without the key column never changes a row's key |
| Database.BuildInsertRow | includes/class-stl-synchronizer.php:357-368 | the column loop builds the inserted row |
| Database.BuildUpdateSets | includes/class-stl-synchronizer.php:392-400 | the SET loop takes every staging column but the primary key |
| SyncSpec.ParentDir | includes/class-stl-synchronizer.php:124 | the directory part is a prefix of the path that ends just before a `/`, with no `/` after it; the root when the path has none |
| SyncSpec.DirAndAncestors | includes/class-stl-synchronizer.php:125-130 | what `wp_mkdir_p` creates: the directory and all above it (definition) |
| SyncSpec.FileStep | includes/class-stl-synchronizer.php:111-157 | one iteration of the file loop, reading the staging copy below `staging/` (definition; FileStepOutcomes and FileStepFrame state the effect) |
| SyncSpec.SyncFilesSpec | includes/class-stl-synchronizer.php:103-164 | the steps in request order from an empty ledger (definition) |
| SyncSpec.FileStepOutcomes | includes/class-stl-synchronizer.php:111-157 | a path missing from the change list is an error that touches nothing; for added or modified paths, a failed directory creation is an error with no copy, a successful copy gives the path the contents of its staging copy and a success, and anything else leaves the files alone; a failed unlink is an error that touches nothing; deleting a path production lacks is a success |
| SyncSpec.FileStepFrame | includes/class-stl-synchronizer.php:111-157 | one step changes production only at the requested path, keeps every directory, and adds exactly that path to the results' keys |
| SyncSpec.SyncFilesFrame | includes/class-stl-synchronizer.php:103-164 | a path that was not requested is unchanged by a whole run |
| SyncSpec.SyncFilesKeepsDirs | includes/class-stl-synchronizer.php:103-164 | a run never removes a directory |
| SyncSpec.SyncFilesLedgerKeys | includes/class-stl-synchronizer.php:103-164 | every requested path, and nothing else, has a success or error entry |
| SyncSpec.DeleteTwice | includes/class-stl-synchronizer.php:141-152 | a deletion requested twice succeeds both times, the second as already deleted, and the file is gone |
| SyncSpec.ModifiedFileEndToEnd | includes/class-stl-synchronizer.php:121-139 | a modified file in an existing directory is copied and reported as the only success |
| SyncSpec.StagingDeletedBeforeCopy | includes/class-stl-synchronizer.php:117-139 | deleting `staging/a.txt` and then adding `a.txt` in one request list deletes the staging copy and then fails the copy |
| SyncSpec.ActualTable | includes/class-stl-synchronizer.php:327-331 | `attachment_meta` is renamed to `postmeta`, every other table kept (definition) |
| SyncSpec.Truthy | includes/class-stl-synchronizer.php:339 | the PHP truth of a key name: `""` and `"0"` are false (definition) |
| SyncSpec.ApplyRowChange | includes/class-stl-synchronizer.php:324-438 | process_db_change on the database and messages (definition; the lemmas below state its effect) |
| SyncSpec.ApplyRowChangeAppendsOne | includes/class-stl-synchronizer.php:324-438 | each row operation appends exactly one message and keeps the earlier ones; the result is true exactly when it went to the success list |
| SyncSpec.ApplyRowChangeFrame | includes/class-stl-synchronizer.php:324-438 | a failed operation changes no table; a successful one changes only the rows of the production table it names, never the set of tables or a schema |
| SyncSpec.AttachmentMetaIsPostmeta | includes/class-stl-synchronizer.php:327-331 | an `attachment_meta` request behaves exactly as a `postmeta` request, messages included |
| SyncSpec.MissingPrimaryKey | includes/class-stl-synchronizer.php:336-342 | a missing or false primary key records the key error and changes nothing |
| SyncSpec.UnknownChangeType | includes/class-stl-synchronizer.php:432-434 | with a found key, any other change type records the unknown-type error for the renamed table and changes nothing |
| SyncSpec.AddedInsertsStagingColumns | includes/class-stl-synchronizer.php:345-381 | a successful insert appends one row holding exactly the non-NULL staging columns of the staging row with the id, keeping the earlier rows; a missing staging row is the not-found error |
| SyncSpec.ModifiedSetsNonKeyColumns | includes/class-stl-synchronizer.php:383-417 | a successful update keeps the row count and every key, sets each non-key staging column on the rows with the id, and leaves other rows as they were |
| SyncSpec.DeletedRemovesKeyRows | includes/class-stl-synchronizer.php:419-430 | a delete whose query runs succeeds whether or not the row existed and leaves exactly the rows without the id, each as many times as before |
| SyncSpec.DeleteTwiceSameDb | includes/class-stl-synchronizer.php:419-430 | deleting the same row twice leaves the database as deleting it once |
| SyncSpec.DbStep | includes/class-stl-synchronizer.php:182-300 | one iteration of the request loop (definition; RejectedRequest and the two DecidesStep lemmas state its effect) |
| SyncSpec.SyncDbSpec | includes/class-stl-synchronizer.php:182-300 | the steps in request order from an empty ledger (definition) |
| SyncSpec.RejectedRequest | includes/class-stl-synchronizer.php:182-300 | a request missing its table or id appends exactly the invalid-data error; a pair found nowhere appends exactly the not-found error with its id and table; neither changes the database |
| SyncSpec.PostTypeMatchDecidesStep | includes/class-stl-synchronizer.php:228-232 | a pair found in the post-type groups is processed with that record, whatever the other shapes hold and whether or not processing succeeds |
| SyncSpec.ContentMatchDecidesStep | includes/class-stl-synchronizer.php:269-273 | failing the post-type groups, a pair found in the content groups is processed with that record, whatever the flat lists hold |
| SyncSpec.SyncDbOneMessagePerRequest | includes/class-stl-synchronizer.php:172-300 | a run ends with exactly one message per request |
| SyncSpec.SyncDbKeepsTables | includes/class-stl-synchronizer.php:172-300 | no table appears or disappears |
| SyncSpec.SyncDbFrame | includes/class-stl-synchronizer.php:172-300 | a table no request names, after renaming and with the production prefix, keeps its schema and rows |
| Synchronizer.Synchronizer.constructor | includes/class-stl-synchronizer.php:73-84 | the file tree (staging subtree included) and the database start as given; nothing is cleared or replaced yet |
| Synchronizer.Synchronizer.SyncFiles | includes/class-stl-synchronizer.php:103-164 | the loop leaves the file tree and the results as the fold of the file step, each copy reading `staging/` + its path; every requested path and nothing else has an entry; unrequested paths are unchanged; the file-change transient is cleared |
| Synchronizer.Synchronizer.SyncDb | includes/class-stl-synchronizer.php:172-313 | the loop leaves the database and results as the fold of the request step; one message per request; the database-change transient is cleared and the URL replacement runs once |
| Synchronizer.Synchronizer.ProcessDbChange | includes/class-stl-synchronizer.php:324-438 | the branches of the method leave the database, the messages and the result as the row operation does |

## Left out

- The AJAX handler, nonce and capability checks, the singleton, hook registration and translation of messages: these are WordPress glue. Messages are kinds with their id and table, not translated text.
- SQL text and escaping: queries are modelled by their effect on rows. `$wpdb->prepare` turning NULL into an empty string when a modified row is copied is not modelled, and NULL values are copied as NULL.
- Database constraints such as a duplicate primary key on insert, and any other reason for the synchronizer's INSERT, UPDATE or DELETE to fail, are the query oracle's outcome only.
- The synchronizer's read queries always succeed and have no oracle:
  - `SHOW KEYS` (line 485): a failure would give the primary-key error of lines 339-341.
  - `SHOW COLUMNS` (line 504): a failure would leave the INSERT with no column list.
  - The staging `get_row` (lines 350 and 385): a failure would give the "Could not find entry" error of lines 352-354 and 387-389.
- SQL key comparison in `WHERE key = %s` (lines 350, 385, 407) and in `$wpdb->delete` (line 421) is exact string equality in HasKey. MySQL's own matching is not modelled: on an integer key it converts the string, so `05` matches `5`, and a case-insensitive collation ignores case.
- Database.InsertedRow: a production column the INSERT does not list is missing from the new row. It stands for that column's default value.
- FileHandling.FileHandler.InsertFilesIntoDatabase: paths are compared with exact string equality, not under the file-hash table's SQL collation, so a case-insensitive collation that would see two paths as one is not modelled.
- PHP's loose `==` between a change record's id and the requested id: ids are compared as strings.
- A flat change list under a table literally named `post_type_groups` or `content_groups`: the model keeps the three shapes apart.
- Real filesystem behaviour: symbolic links, `realpath` resolution, permissions and other processes. Paths are relative to the site root. A directory at a requested path counts as existing for deletion, and `unlink` of it fails.
- ParentDir: for a path ending in `/` it returns the part before that slash, not PHP's `dirname` of the trimmed path. Paths are taken as canonical: no repeated or trailing `/`, and no `.` or `..` parts. `dirname` collapses repeated slashes, but ParentDir does not, so `a//b` and `a/b` are different files in the model.
- The sha256 algorithm: it is an unconstrained function.
- `copy_files_to_staging` and the construction of the file-hash table's name: they are outside the synchronizer core.
- `get_option` and `get_home_path`: the constructor receives the resolved home path.
- The URL replacer's own behaviour: the replacement is counted, not modelled.
- Concurrency and time: every operation runs alone.
- RelativePathStripsBase: it does not cover a path in which `base/` occurs again after the base prefix. `str_replace` deletes every occurrence, so such a path loses inner parts too; RelativePathCollision shows two paths that end up with the same relative path.
- FileHandling.InsertAbsentCounts: it assumes every COUNT succeeds. FailedCountDuplicates shows that a failed COUNT, read as zero, leads to a second row for the same path.
