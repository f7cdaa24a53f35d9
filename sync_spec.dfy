/**
 * What one synchronisation does, as functions of the state before it
 * (includes/class-stl-synchronizer.php): the per-file step of sync_files, the row
 * operation of process_db_change and the per-request step of sync_db, each folded over
 * its request list, with their properties.
 *
 * Filesystem and database calls that can fail (directory creation, copy, unlink, the
 * INSERT/UPDATE/DELETE queries) take their outcome from an oracle argument, one value
 * per requested item.
 */
module SyncSpec {
  import opened Wrappers
  import opened ChangeLists
  import opened Database
  import FileHandling

  // ---------------------------------------------------------------------------
  // Files
  // ---------------------------------------------------------------------------

  /** The message kinds sync_files records. */
  datatype FileMsg =
    | NotInChangeList
    | DirectoryNotCreated
    | CopyFailed
    | FileCopied
    | DeleteFailed
    | FileDeleted
    | AlreadyDeleted
    | UnknownFileChangeType

  /** The file results: both halves are keyed by the requested path. */
  datatype FileLedger = FileLedger(success: map<string, FileMsg>, error: map<string, FileMsg>)

  /** The production site's files, by path relative to its root, and its existing
      directories ("" is the root itself). The staging site is the subtree below
      StagingRoot of the same tree. */
  datatype Fs = Fs(files: map<string, FileHandling.Bytes>, dirs: set<string>)

  /** Where the staging copy of a path lives, relative to the production root. */
  const StagingRoot := "staging/"

  /** Whether wp_mkdir_p, copy and unlink succeed for one requested file. */
  datatype FileIo = FileIo(mkdirOk: bool, copyOk: bool, unlinkOk: bool)

  datatype FilesState = FilesState(fs: Fs, ledger: FileLedger)

  /** dirname of a path below the root: the part before the last '/', or the root. */
  function ParentDir(path: string): (d: string)
    ensures d <= path
    ensures path != "" ==> |d| < |path|
    ensures d != "" ==> path[|d|] == '/'
    ensures forall i :: |d| < i < |path| ==> path[i] != '/'
    decreases |path|
  {
    if path == "" then ""
    else if path[|path| - 1] == '/' then path[..|path| - 1]
    else ParentDir(path[..|path| - 1])
  }

  /** What wp_mkdir_p creates: the directory and every directory above it. */
  function DirAndAncestors(d: string): set<string>
    decreases |d|
  {
    if d == "" then {""} else {d} + DirAndAncestors(ParentDir(d))
  }

  /** One iteration of the loop of sync_files (lines 111-157). */
  function FileStep(fs: Fs, changes: map<string, ChangeType>,
                    ledger: FileLedger, file: string, io: FileIo): FilesState
  {
    if file !in changes then
      FilesState(fs, ledger.(error := ledger.error[file := NotInChangeList]))
    else match changes[file]
      case Deleted =>
        if file in fs.files || file in fs.dirs then
          if io.unlinkOk && file in fs.files then
            FilesState(fs.(files := fs.files - {file}), ledger.(success := ledger.success[file := FileDeleted]))
          else
            FilesState(fs, ledger.(error := ledger.error[file := DeleteFailed]))
        else
          FilesState(fs, ledger.(success := ledger.success[file := AlreadyDeleted]))
      case OtherType(_) =>
        FilesState(fs, ledger.(error := ledger.error[file := UnknownFileChangeType]))
      case _ =>
        var dir := ParentDir(file);
        if dir !in fs.dirs && !io.mkdirOk then
          FilesState(fs, ledger.(error := ledger.error[file := DirectoryNotCreated]))
        else
          var made := if dir in fs.dirs then fs else fs.(dirs := fs.dirs + DirAndAncestors(dir));
          if io.copyOk && StagingRoot + file in fs.files then
            FilesState(made.(files := made.files[file := made.files[StagingRoot + file]]), ledger.(success := ledger.success[file := FileCopied]))
          else
            FilesState(made, ledger.(error := ledger.error[file := CopyFailed]))
  }

  /** sync_files over a request list: the steps in order, from an empty ledger. */
  function SyncFilesSpec(fs: Fs, changes: map<string, ChangeType>,
                         files: seq<string>, io: nat -> FileIo): FilesState
    decreases |files|
  {
    if files == [] then FilesState(fs, FileLedger(map[], map[]))
    else
      var before := SyncFilesSpec(fs, changes, files[..|files| - 1], io);
      FileStep(before.fs, changes, before.ledger, files[|files| - 1], io(|files| - 1))
  }

  /** The outcomes of one file request. A path missing from the change list is an error and
      touches nothing; for an added or modified path a failed directory creation is an
      error with no copy, a successful copy gives production the staging contents, a failed
      copy is an error; a failed unlink is an error that touches nothing; deleting a path
      production does not have is a success. */
  lemma FileStepOutcomes(fs: Fs, changes: map<string, ChangeType>,
                         ledger: FileLedger, file: string, io: FileIo)
    ensures var st := FileStep(fs, changes, ledger, file, io);
            file !in changes ==> st.fs == fs && st.ledger.error == ledger.error[file := NotInChangeList]
                                 && st.ledger.success == ledger.success
    ensures var st := FileStep(fs, changes, ledger, file, io);
            file in changes && (changes[file] == Added || changes[file] == Modified) ==>
              && (ParentDir(file) !in fs.dirs && !io.mkdirOk ==>
                    st.fs == fs && st.ledger.error == ledger.error[file := DirectoryNotCreated])
              && ((ParentDir(file) in fs.dirs || io.mkdirOk) && io.copyOk && StagingRoot + file in fs.files ==>
                    st.fs.files == fs.files[file := fs.files[StagingRoot + file]]
                    && st.ledger.success == ledger.success[file := FileCopied] && st.ledger.error == ledger.error)
              && (!((ParentDir(file) in fs.dirs || io.mkdirOk) && io.copyOk && StagingRoot + file in fs.files) ==>
                    st.fs.files == fs.files && st.ledger.success == ledger.success)
              && ((ParentDir(file) in fs.dirs || io.mkdirOk) && !(io.copyOk && StagingRoot + file in fs.files) ==>
                    st.ledger.error == ledger.error[file := CopyFailed])
    ensures var st := FileStep(fs, changes, ledger, file, io);
            file in changes && changes[file] == Deleted && (file in fs.files || file in fs.dirs)
            && !(io.unlinkOk && file in fs.files) ==>
              st.fs == fs && st.ledger.error == ledger.error[file := DeleteFailed]
              && st.ledger.success == ledger.success
    ensures var st := FileStep(fs, changes, ledger, file, io);
            file in changes && changes[file] == Deleted && file !in fs.files && file !in fs.dirs ==>
              st.fs == fs && st.ledger.success == ledger.success[file := AlreadyDeleted]
              && st.ledger.error == ledger.error
  {
  }

  /** One step changes production only at the requested path, and never removes a directory. */
  lemma FileStepFrame(fs: Fs, changes: map<string, ChangeType>,
                      ledger: FileLedger, file: string, io: FileIo, p: string)
    requires p != file
    ensures var after := FileStep(fs, changes, ledger, file, io).fs;
            (p in after.files <==> p in fs.files) && (p in fs.files ==> after.files[p] == fs.files[p])
    ensures fs.dirs <= FileStep(fs, changes, ledger, file, io).fs.dirs
    ensures var l := FileStep(fs, changes, ledger, file, io).ledger;
            l.success.Keys + l.error.Keys == ledger.success.Keys + ledger.error.Keys + {file}
  {
  }

  /** A whole run leaves every path that was not requested as it was, and keeps every
      existing directory. */
  lemma {:induction false} SyncFilesFrame(fs: Fs, changes: map<string, ChangeType>,
                                          files: seq<string>, io: nat -> FileIo, p: string)
    requires p !in files
    ensures var after := SyncFilesSpec(fs, changes, files, io).fs;
            (p in after.files <==> p in fs.files) && (p in fs.files ==> after.files[p] == fs.files[p])
    decreases |files|
  {
    if files != [] {
      var init := files[..|files| - 1];
      assert forall k :: 0 <= k < |init| ==> init[k] == files[k];
      SyncFilesFrame(fs, changes, init, io, p);
      var before := SyncFilesSpec(fs, changes, init, io);
      FileStepFrame(before.fs, changes, before.ledger, files[|files| - 1], io(|files| - 1), p);
    }
  }

  /** A whole run never removes a directory. */
  lemma {:induction false} SyncFilesKeepsDirs(fs: Fs, changes: map<string, ChangeType>,
                                              files: seq<string>, io: nat -> FileIo)
    ensures fs.dirs <= SyncFilesSpec(fs, changes, files, io).fs.dirs
    decreases |files|
  {
    if files != [] {
      var init := files[..|files| - 1];
      SyncFilesKeepsDirs(fs, changes, init, io);
      var before := SyncFilesSpec(fs, changes, init, io);
      var last := files[|files| - 1];
      FileStepFrame(before.fs, changes, before.ledger, last, io(|files| - 1), last + "#");
    }
  }

  /** Every requested path, and nothing else, has an entry in the results. */
  lemma {:induction false} SyncFilesLedgerKeys(fs: Fs, changes: map<string, ChangeType>,
                                               files: seq<string>, io: nat -> FileIo)
    ensures var l := SyncFilesSpec(fs, changes, files, io).ledger;
            l.success.Keys + l.error.Keys == set f | f in files
    decreases |files|
  {
    if files != [] {
      var init := files[..|files| - 1];
      SyncFilesLedgerKeys(fs, changes, init, io);
      var before := SyncFilesSpec(fs, changes, init, io);
      var last := files[|files| - 1];
      FileStepFrame(before.fs, changes, before.ledger, last, io(|files| - 1), last + "#");
      assert files == init + [last];
      assert (set f | f in files) == (set f | f in init) + {last};
    }
  }

  /** Requesting the same deletion twice succeeds both times, the second time as "already
      deleted", leaving the file absent and everything else as it was. */
  lemma DeleteTwice(fs: Fs, changes: map<string, ChangeType>,
                    f: string, io: nat -> FileIo)
    requires f in changes && changes[f] == Deleted && f !in fs.dirs
    requires f in fs.files ==> io(0).unlinkOk
    ensures var once := SyncFilesSpec(fs, changes, [f], io);
            once.fs == fs.(files := fs.files - {f}) && once.ledger.error == map[]
            && once.ledger.success == map[f := if f in fs.files then FileDeleted else AlreadyDeleted]
    ensures var twice := SyncFilesSpec(fs, changes, [f, f], io);
            twice.fs == fs.(files := fs.files - {f}) && twice.ledger.error == map[]
            && twice.ledger.success == map[f := AlreadyDeleted]
  {
  }

  /** One modified file, copied into the existing root directory: production holds the
      staging contents and the results hold one success and no error. */
  lemma ModifiedFileEndToEnd(fs: Fs, x: FileHandling.Bytes, io: nat -> FileIo)
    requires "" in fs.dirs && io(0).copyOk
    requires "staging/a.txt" in fs.files && fs.files["staging/a.txt"] == x
    ensures var st := SyncFilesSpec(fs, map["a.txt" := Modified], ["a.txt"], io);
            st.fs.files == fs.files["a.txt" := x]
            && st.ledger == FileLedger(map["a.txt" := FileCopied], map[])
  {
    assert ["a.txt"][..0] == [];
    assert StagingRoot + "a.txt" == "staging/a.txt";
    assert ParentDir("a.txt") == "";
  }

  /** The staging tree lies inside the production tree, so a request list can remove a
      staging file before the request that copies it: the copy then fails. */
  lemma StagingDeletedBeforeCopy(fs: Fs, x: FileHandling.Bytes, io: nat -> FileIo)
    requires "" in fs.dirs && "staging" in fs.dirs && "staging/a.txt" !in fs.dirs
    requires "staging/a.txt" in fs.files && fs.files["staging/a.txt"] == x
    requires io(0).unlinkOk && io(1).copyOk
    ensures var st := SyncFilesSpec(fs, map["staging/a.txt" := Deleted, "a.txt" := Added], ["staging/a.txt", "a.txt"], io);
            && "staging/a.txt" !in st.fs.files
            && st.ledger.success == map["staging/a.txt" := FileDeleted]
            && st.ledger.error == map["a.txt" := CopyFailed]
  {
    var changes := map["staging/a.txt" := Deleted, "a.txt" := Added];
    var files := ["staging/a.txt", "a.txt"];
    assert files[..1] == ["staging/a.txt"] && files[..1][..0] == [];
    assert StagingRoot + "a.txt" == "staging/a.txt";
    assert ParentDir("a.txt") == "";
  }

  // ---------------------------------------------------------------------------
  // Database rows
  // ---------------------------------------------------------------------------

  /** The message kinds sync_db and process_db_change record. */
  datatype DbMsg =
    | InvalidTableData
    | EntryNotFound(id: Id, table: string)
    | PrimaryKeyNotFound(table: string)
    | StagingRowNotFound(id: Id, table: string)
    | InsertFailed(id: Id, table: string)
    | RowInserted(id: Id, table: string)
    | UpdateFailed(id: Id, table: string)
    | RowUpdated(id: Id, table: string)
    | DeleteRowFailed(id: Id, table: string)
    | RowDeleted(id: Id, table: string)
    | UnknownRowChangeType(id: Id, table: string)

  /** The database results: both halves are appended lists. */
  datatype DbLedger = DbLedger(success: seq<DbMsg>, error: seq<DbMsg>)

  function Succeed(ledger: DbLedger, m: DbMsg): DbLedger {
    ledger.(success := ledger.success + [m])
  }

  function Fail(ledger: DbLedger, m: DbMsg): DbLedger {
    ledger.(error := ledger.error + [m])
  }

  function EntryCount(ledger: DbLedger): nat {
    |ledger.success| + |ledger.error|
  }

  /** The table process_db_change works on: only "attachment_meta" is renamed. */
  function ActualTable(table: string): string {
    if table == "attachment_meta" then "postmeta" else table
  }

  /** PHP truthiness of a string: "" and "0" are false. */
  predicate Truthy(s: string) {
    s != "" && s != "0"
  }

  datatype RowOutcome = RowOutcome(db: Db, ledger: DbLedger, ok: bool)

  /** process_db_change (lines 324-438) for a change of the given kind; `queryOk` says
      whether the INSERT, UPDATE or DELETE query succeeds. */
  function ApplyRowChange(db: Db, table: string, id: Id, kind: ChangeType, ledger: DbLedger, queryOk: bool): RowOutcome {
    var actual := ActualTable(table);
    var production := ProductionPrefix + actual;
    var staging := StagingPrefix + actual;
    var key := GetPrimaryKey(db, production);
    if key.None? || !Truthy(key.value) then
      RowOutcome(db, Fail(ledger, PrimaryKeyNotFound(actual)), false)
    else
      var pk := key.value;
      var target := db[production];
      match kind
      case Added =>
        var columns := GetTableColumns(db, staging);
        var row := FetchRow(db, staging, pk, id);
        if row.None? then RowOutcome(db, Fail(ledger, StagingRowNotFound(id, actual)), false)
        else if !queryOk then RowOutcome(db, Fail(ledger, InsertFailed(id, actual)), false)
        else RowOutcome(db[production := target.(rows := target.rows + [InsertedRow(columns, row.value)])],
                        Succeed(ledger, RowInserted(id, actual)), true)
      case Modified =>
        var row := FetchRow(db, staging, pk, id);
        if row.None? then RowOutcome(db, Fail(ledger, StagingRowNotFound(id, actual)), false)
        else
          var sets := row.value - {pk};
          // An empty SET list makes the UPDATE statement malformed, so the query fails.
          if sets == map[] || !queryOk then RowOutcome(db, Fail(ledger, UpdateFailed(id, actual)), false)
          else RowOutcome(db[production := target.(rows := UpdateRows(target.rows, pk, id, sets))],
                          Succeed(ledger, RowUpdated(id, actual)), true)
      case Deleted =>
        if !queryOk then RowOutcome(db, Fail(ledger, DeleteRowFailed(id, actual)), false)
        else RowOutcome(db[production := target.(rows := DeleteRows(target.rows, pk, id))],
                        Succeed(ledger, RowDeleted(id, actual)), true)
      case OtherType(_) =>
        RowOutcome(db, Fail(ledger, UnknownRowChangeType(id, actual)), false)
  }

  /** Every row operation appends exactly one message, keeps the earlier ones, and reports
      success exactly when that message went to the success list. */
  lemma ApplyRowChangeAppendsOne(db: Db, table: string, id: Id, kind: ChangeType, ledger: DbLedger, queryOk: bool)
    ensures var o := ApplyRowChange(db, table, id, kind, ledger, queryOk);
            && EntryCount(o.ledger) == EntryCount(ledger) + 1
            && ledger.success <= o.ledger.success && ledger.error <= o.ledger.error
            && (o.ok <==> |o.ledger.success| == |ledger.success| + 1)
  {
  }

  /** A failed row operation changes no table; a successful one changes only the rows of
      the production table it names, never the schema, and every other table stays. */
  lemma ApplyRowChangeFrame(db: Db, table: string, id: Id, kind: ChangeType, ledger: DbLedger, queryOk: bool)
    ensures var o := ApplyRowChange(db, table, id, kind, ledger, queryOk);
            !o.ok ==> o.db == db
    ensures var o := ApplyRowChange(db, table, id, kind, ledger, queryOk);
            var production := ProductionPrefix + ActualTable(table);
            && o.db.Keys == db.Keys
            && (forall t :: t in db && t != production ==> o.db[t] == db[t])
            && (production in db ==> o.db[production].keys == db[production].keys
                                     && o.db[production].columns == db[production].columns)
  {
  }

  /** A request for attachment_meta is a request for postmeta, messages included. */
  lemma AttachmentMetaIsPostmeta(db: Db, id: Id, kind: ChangeType, ledger: DbLedger, queryOk: bool)
    ensures ApplyRowChange(db, "attachment_meta", id, kind, ledger, queryOk)
         == ApplyRowChange(db, "postmeta", id, kind, ledger, queryOk)
  {
  }

  /** A missing (or PHP-false, "" or "0") primary key is an error that changes nothing. */
  lemma MissingPrimaryKey(db: Db, table: string, id: Id, kind: ChangeType, ledger: DbLedger, queryOk: bool)
    requires var key := GetPrimaryKey(db, ProductionPrefix + ActualTable(table)); key.None? || !Truthy(key.value)
    ensures ApplyRowChange(db, table, id, kind, ledger, queryOk)
         == RowOutcome(db, Fail(ledger, PrimaryKeyNotFound(ActualTable(table))), false)
  {
  }

  /** A change type other than added, modified or deleted is an error that changes
      nothing, once the primary key has been found. */
  lemma UnknownChangeType(db: Db, table: string, id: Id, text: string, ledger: DbLedger, queryOk: bool)
    requires var key := GetPrimaryKey(db, ProductionPrefix + ActualTable(table)); key.Some? && Truthy(key.value)
    ensures ApplyRowChange(db, table, id, OtherType(text), ledger, queryOk)
         == RowOutcome(db, Fail(ledger, UnknownRowChangeType(id, ActualTable(table))), false)
  {
  }

  /** A successful insert appends one row holding exactly the staging columns that the
      staging row sets to a non-NULL value; the rows already there stay. A missing staging
      row is an error. */
  lemma AddedInsertsStagingColumns(db: Db, table: string, id: Id, ledger: DbLedger, queryOk: bool)
    ensures var o := ApplyRowChange(db, table, id, Added, ledger, queryOk);
            var production := ProductionPrefix + ActualTable(table);
            var staging := StagingPrefix + ActualTable(table);
            var key := GetPrimaryKey(db, production);
            o.ok ==>
              && key.Some? && production in db
              && FetchRow(db, staging, key.value, id).Some?
              && var source := FetchRow(db, staging, key.value, id).value;
                 var rows := o.db[production].rows;
                 && HasKey(source, key.value, id)
                 && |rows| == |db[production].rows| + 1
                 && rows[..|db[production].rows|] == db[production].rows
                 && (forall c :: c in rows[|rows| - 1] <==>
                       c in GetTableColumns(db, staging) && c in source && source[c] != Null)
                 && (forall c :: c in rows[|rows| - 1] ==> rows[|rows| - 1][c] == source[c])
    ensures var o := ApplyRowChange(db, table, id, Added, ledger, queryOk);
            var key := GetPrimaryKey(db, ProductionPrefix + ActualTable(table));
            key.Some? && Truthy(key.value) && FetchRow(db, StagingPrefix + ActualTable(table), key.value, id).None? ==>
              !o.ok && o.ledger == Fail(ledger, StagingRowNotFound(id, ActualTable(table)))
  {
  }

  /** A successful update sets every non-key column of the rows carrying the id to the
      staging value and leaves every row's key column, and every other row, as it was. */
  lemma ModifiedSetsNonKeyColumns(db: Db, table: string, id: Id, ledger: DbLedger, queryOk: bool, k: nat)
    ensures var o := ApplyRowChange(db, table, id, Modified, ledger, queryOk);
            var production := ProductionPrefix + ActualTable(table);
            var staging := StagingPrefix + ActualTable(table);
            var key := GetPrimaryKey(db, production);
            o.ok && production in db && k < |db[production].rows| ==>
              && key.Some? && FetchRow(db, staging, key.value, id).Some?
              && var pk := key.value;
                 var source := FetchRow(db, staging, pk, id).value;
                 var before := db[production].rows[k];
                 var after := o.db[production].rows[k];
                 && |o.db[production].rows| == |db[production].rows|
                 && ((pk in after) == (pk in before)) && (pk in before ==> after[pk] == before[pk])
                 && (HasKey(before, pk, id) ==> forall c :: c in source && c != pk ==> c in after && after[c] == source[c])
                 && (forall c :: c in after && c !in source ==> c in before && after[c] == before[c])
                 && (!HasKey(before, pk, id) ==> after == before)
  {
  }

  /** A delete (whose query runs) always reports success, whether or not such a row
      existed, and leaves exactly the rows that do not carry the id. */
  lemma DeletedRemovesKeyRows(db: Db, table: string, id: Id, ledger: DbLedger)
    ensures var o := ApplyRowChange(db, table, id, Deleted, ledger, true);
            var production := ProductionPrefix + ActualTable(table);
            var key := GetPrimaryKey(db, production);
            key.Some? && Truthy(key.value) ==>
              && o.ok && o.ledger == Succeed(ledger, RowDeleted(id, ActualTable(table)))
              && (forall row :: row in o.db[production].rows <==>
                    row in db[production].rows && !HasKey(row, key.value, id))
              && (forall row :: multiset(o.db[production].rows)[row] ==
                    if HasKey(row, key.value, id) then 0 else multiset(db[production].rows)[row])
  {
  }

  /** Deleting the same row twice leaves the database as deleting it once. */
  lemma DeleteTwiceSameDb(db: Db, table: string, id: Id, l1: DbLedger, l2: DbLedger)
    ensures var once := ApplyRowChange(db, table, id, Deleted, l1, true);
            ApplyRowChange(once.db, table, id, Deleted, l2, true).db == once.db
  {
    var production := ProductionPrefix + ActualTable(table);
    var key := GetPrimaryKey(db, production);
    if key.Some? && Truthy(key.value) {
      DeleteRowsIdempotent(db[production].rows, key.value, id);
      var once := ApplyRowChange(db, table, id, Deleted, l1, true);
      assert once.db[production] == db[production].(rows := DeleteRows(db[production].rows, key.value, id));
    }
  }

  // ---------------------------------------------------------------------------
  // sync_db
  // ---------------------------------------------------------------------------

  /** One requested pair; either part may be missing. */
  datatype Request = Request(table: Option<string>, id: Option<Id>)

  datatype DbState = DbState(db: Db, ledger: DbLedger)

  /** One iteration of the loop of sync_db (lines 182-300). */
  function DbStep(st: DbState, changes: DbChanges, req: Request, queryOk: bool): DbState {
    if req.table.None? || req.id.None? then DbState(st.db, Fail(st.ledger, InvalidTableData))
    else
      var table := req.table.value;
      var id := req.id.value;
      match Locate(changes, table, id)
      case NotFound => DbState(st.db, Fail(st.ledger, EntryNotFound(id, table)))
      case Found(_, change) =>
        var o := ApplyRowChange(st.db, table, id, change.kind, st.ledger, queryOk);
        DbState(o.db, o.ledger)
  }

  /** sync_db over a request list, from an empty ledger. */
  function SyncDbSpec(db: Db, changes: DbChanges, requests: seq<Request>, io: nat -> bool): DbState
    decreases |requests|
  {
    if requests == [] then DbState(db, DbLedger([], []))
    else
      var before := SyncDbSpec(db, changes, requests[..|requests| - 1], io);
      DbStep(before, changes, requests[|requests| - 1], io(|requests| - 1))
  }

  /** A malformed request, or a pair no shape holds, appends one error and changes nothing. */
  lemma RejectedRequest(st: DbState, changes: DbChanges, req: Request, queryOk: bool)
    ensures req.table.None? || req.id.None? ==>
              DbStep(st, changes, req, queryOk) == DbState(st.db, Fail(st.ledger, InvalidTableData))
    ensures req.table.Some? && req.id.Some? && Locate(changes, req.table.value, req.id.value).NotFound? ==>
              DbStep(st, changes, req, queryOk)
              == DbState(st.db, Fail(st.ledger, EntryNotFound(req.id.value, req.table.value)))
  {
  }

  /** A pair found in the post-type groups is processed with that record, whatever the
      content groups and the flat lists hold and whether or not processing succeeds. */
  lemma PostTypeMatchDecidesStep(st: DbState, c1: DbChanges, c2: DbChanges, table: string, id: Id, queryOk: bool)
    requires c1.postTypeGroups == c2.postTypeGroups
    requires FirstInPostTypes(c1.postTypeGroups, table, id).Some?
    ensures DbStep(st, c1, Request(Some(table), Some(id)), queryOk) == DbStep(st, c2, Request(Some(table), Some(id)), queryOk)
    ensures var change := FirstInPostTypes(c1.postTypeGroups, table, id).value;
            var o := ApplyRowChange(st.db, table, id, change.kind, st.ledger, queryOk);
            DbStep(st, c1, Request(Some(table), Some(id)), queryOk) == DbState(o.db, o.ledger)
  {
    PostTypeMatchPreempts(c1, c2, table, id);
  }

  /** Failing the post-type groups, a pair found in the content groups is processed with
      that record, whatever the flat lists hold. */
  lemma ContentMatchDecidesStep(st: DbState, c1: DbChanges, c2: DbChanges, table: string, id: Id, queryOk: bool)
    requires c1.postTypeGroups == c2.postTypeGroups && c1.contentGroups == c2.contentGroups
    requires FirstInPostTypes(c1.postTypeGroups, table, id).None?
    requires FirstInGroups(c1.contentGroups, table, id).Some?
    ensures DbStep(st, c1, Request(Some(table), Some(id)), queryOk) == DbStep(st, c2, Request(Some(table), Some(id)), queryOk)
    ensures var change := FirstInGroups(c1.contentGroups, table, id).value;
            var o := ApplyRowChange(st.db, table, id, change.kind, st.ledger, queryOk);
            DbStep(st, c1, Request(Some(table), Some(id)), queryOk) == DbState(o.db, o.ledger)
  {
    ContentMatchPreempts(c1, c2, table, id);
  }

  /** Each request appends exactly one message, so a run ends with one per request. */
  lemma {:induction false} SyncDbOneMessagePerRequest(db: Db, changes: DbChanges, requests: seq<Request>, io: nat -> bool)
    ensures EntryCount(SyncDbSpec(db, changes, requests, io).ledger) == |requests|
    decreases |requests|
  {
    if requests != [] {
      var init := requests[..|requests| - 1];
      SyncDbOneMessagePerRequest(db, changes, init, io);
      var before := SyncDbSpec(db, changes, init, io);
      var req := requests[|requests| - 1];
      if req.table.Some? && req.id.Some? {
        var l := Locate(changes, req.table.value, req.id.value);
        if l.Found? {
          ApplyRowChangeAppendsOne(before.db, req.table.value, req.id.value, l.change.kind, before.ledger, io(|requests| - 1));
        }
      }
    }
  }

  /** No table appears or disappears during a run. */
  lemma {:induction false} SyncDbKeepsTables(db: Db, changes: DbChanges, requests: seq<Request>, io: nat -> bool)
    ensures SyncDbSpec(db, changes, requests, io).db.Keys == db.Keys
    decreases |requests|
  {
    if requests != [] {
      var init := requests[..|requests| - 1];
      SyncDbKeepsTables(db, changes, init, io);
      var before := SyncDbSpec(db, changes, init, io);
      var req := requests[|requests| - 1];
      if req.table.Some? && req.id.Some? {
        var l := Locate(changes, req.table.value, req.id.value);
        if l.Found? {
          ApplyRowChangeFrame(before.db, req.table.value, req.id.value, l.change.kind, before.ledger, io(|requests| - 1));
        }
      }
    }
  }

  /** The production table a request can write to. */
  function TargetOf(req: Request): Option<string> {
    if req.table.Some? then Some(ProductionPrefix + ActualTable(req.table.value)) else None
  }

  /** A table that no request names (after the attachment_meta renaming and with the
      production prefix) keeps its schema and its rows. */
  lemma {:induction false} SyncDbFrame(db: Db, changes: DbChanges, requests: seq<Request>, io: nat -> bool, t: string)
    requires forall k :: 0 <= k < |requests| ==> TargetOf(requests[k]) != Some(t)
    ensures t in db ==> t in SyncDbSpec(db, changes, requests, io).db && SyncDbSpec(db, changes, requests, io).db[t] == db[t]
    decreases |requests|
  {
    if requests != [] {
      var init := requests[..|requests| - 1];
      assert forall k :: 0 <= k < |init| ==> init[k] == requests[k];
      SyncDbFrame(db, changes, init, io, t);
      var before := SyncDbSpec(db, changes, init, io);
      var req := requests[|requests| - 1];
      if req.table.Some? && req.id.Some? {
        var l := Locate(changes, req.table.value, req.id.value);
        if l.Found? {
          ApplyRowChangeFrame(before.db, req.table.value, req.id.value, l.change.kind, before.ledger, io(|requests| - 1));
        }
      }
    }
  }
}

