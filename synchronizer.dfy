/**
 * STL_Synchronizer (includes/class-stl-synchronizer.php) as an object over the state it
 * changes: the site's files and directories, the database, the transients it clears and
 * the number of times it has run the staging-URL replacement. The staging site is the
 * subtree below StagingRoot of the same file tree, as its root is set in the constructor
 * (line 75). The change lists the comparers report, and the outcome of every filesystem
 * call and query, are arguments of the methods.
 */
module Synchronizer {
  import opened Wrappers
  import opened ChangeLists
  import opened Database
  import opened SyncSpec
  import FileHandling

  class Synchronizer {
    /** Every file below the production root, the staging subtree included. */
    var productionFiles: map<string, FileHandling.Bytes>
    var productionDirs: set<string>
    var db: Db
    /** Names of the transients deleted so far, in order. */
    var clearedTransients: seq<string>
    /** How many times the staging URL has been replaced in the production database. */
    var urlReplacements: nat

    constructor (production: Fs, database: Db)
      ensures productionFiles == production.files && productionDirs == production.dirs
      ensures db == database
      ensures clearedTransients == [] && urlReplacements == 0
    {
      productionFiles := production.files;
      productionDirs := production.dirs;
      db := database;
      clearedTransients := [];
      urlReplacements := 0;
    }

    /** sync_files: copies added and modified files from staging, removes deleted ones and
        records one result per requested path; then clears the file-change cache. */
    method SyncFiles(files: seq<string>, fileChanges: map<string, ChangeType>, io: nat -> FileIo)
      returns (results: FileLedger)
      modifies this`productionFiles, this`productionDirs, this`clearedTransients
      ensures FilesState(Fs(productionFiles, productionDirs), results)
           == SyncFilesSpec(Fs(old(productionFiles), old(productionDirs)), fileChanges, files, io)
      ensures results.success.Keys + results.error.Keys == set f | f in files
      ensures forall p :: p !in files ==>
                (p in productionFiles <==> p in old(productionFiles))
                && (p in old(productionFiles) ==> productionFiles[p] == old(productionFiles)[p])
      ensures old(productionDirs) <= productionDirs
      ensures clearedTransients == old(clearedTransients) + ["stl_file_changes"]
    {
      ghost var start := Fs(productionFiles, productionDirs);
      results := FileLedger(map[], map[]);
      var i := 0;
      while i < |files|
        invariant 0 <= i <= |files|
        invariant FilesState(Fs(productionFiles, productionDirs), results)
               == SyncFilesSpec(start, fileChanges, files[..i], io)
        invariant clearedTransients == old(clearedTransients)
      {
        var file := files[i];
        var outcome := io(i);
        assert files[..i + 1][..i] == files[..i];
        if file !in fileChanges {
          results := results.(error := results.error[file := NotInChangeList]);
        } else {
          var changeType := fileChanges[file];
          if changeType == Added || changeType == Modified {
            var dir := ParentDir(file);
            var ready := true;
            if dir !in productionDirs {
              if outcome.mkdirOk {
                productionDirs := productionDirs + DirAndAncestors(dir);
              } else {
                results := results.(error := results.error[file := DirectoryNotCreated]);
                ready := false;
              }
            }
            if ready {
              var stagingPath := StagingRoot + file;
              if outcome.copyOk && stagingPath in productionFiles {
                productionFiles := productionFiles[file := productionFiles[stagingPath]];
                results := results.(success := results.success[file := FileCopied]);
              } else {
                results := results.(error := results.error[file := CopyFailed]);
              }
            }
          } else if changeType == Deleted {
            if file in productionFiles || file in productionDirs {
              if outcome.unlinkOk && file in productionFiles {
                productionFiles := productionFiles - {file};
                results := results.(success := results.success[file := FileDeleted]);
              } else {
                results := results.(error := results.error[file := DeleteFailed]);
              }
            } else {
              results := results.(success := results.success[file := AlreadyDeleted]);
            }
          } else {
            results := results.(error := results.error[file := UnknownFileChangeType]);
          }
        }
        i := i + 1;
      }
      assert files[..i] == files;
      clearedTransients := clearedTransients + ["stl_file_changes"];
      SyncFilesLedgerKeys(start, fileChanges, files, io);
      forall p | p !in files
        ensures (p in productionFiles <==> p in start.files)
                && (p in start.files ==> productionFiles[p] == start.files[p])
      {
        SyncFilesFrame(start, fileChanges, files, io, p);
      }
      SyncFilesKeepsDirs(start, fileChanges, files, io);
    }

    /** sync_db: looks every requested pair up in the change lists and applies the change it
        finds; then clears the database-change cache and replaces the staging URL in the
        production database. */
    method SyncDb(requests: seq<Request>, dbChanges: DbChanges, io: nat -> bool) returns (results: DbLedger)
      modifies this`db, this`clearedTransients, this`urlReplacements
      ensures DbState(db, results) == SyncDbSpec(old(db), dbChanges, requests, io)
      ensures EntryCount(results) == |requests|
      ensures db.Keys == old(db).Keys
      ensures clearedTransients == old(clearedTransients) + ["stl_db_changes"]
      ensures urlReplacements == old(urlReplacements) + 1
    {
      ghost var start := db;
      results := DbLedger([], []);
      var i := 0;
      while i < |requests|
        invariant 0 <= i <= |requests|
        invariant DbState(db, results) == SyncDbSpec(start, dbChanges, requests[..i], io)
        invariant clearedTransients == old(clearedTransients) && urlReplacements == old(urlReplacements)
      {
        var request := requests[i];
        assert requests[..i + 1][..i] == requests[..i];
        if request.table.None? || request.id.None? {
          results := Fail(results, InvalidTableData);
        } else {
          var table := request.table.value;
          var id := request.id.value;
          var lookup := LocateChange(dbChanges, table, id);
          match lookup
          case Found(_, change) =>
            var ok;
            ok, results := ProcessDbChange(table, id, change, results, io(i));
          case NotFound =>
            results := Fail(results, EntryNotFound(id, table));
        }
        i := i + 1;
      }
      assert requests[..i] == requests;
      SyncDbOneMessagePerRequest(start, dbChanges, requests, io);
      SyncDbKeepsTables(start, dbChanges, requests, io);
      clearedTransients := clearedTransients + ["stl_db_changes"];
      urlReplacements := urlReplacements + 1;
    }

    /** process_db_change: applies one change of a production table from the staging table
        and records one message; the result says whether it was a success. */
    method ProcessDbChange(table: string, id: Id, change: ChangeRecord, results: DbLedger, queryOk: bool)
      returns (ok: bool, updated: DbLedger)
      modifies this`db
      ensures RowOutcome(db, updated, ok) == ApplyRowChange(old(db), table, id, change.kind, results, queryOk)
    {
      var actualTable := table;
      if table == "attachment_meta" {
        actualTable := "postmeta";
      }
      var productionTable := ProductionPrefix + actualTable;
      var stagingTable := StagingPrefix + actualTable;
      var primaryKey := GetPrimaryKey(db, productionTable);
      if primaryKey.None? || !Truthy(primaryKey.value) {
        return false, Fail(results, PrimaryKeyNotFound(actualTable));
      }
      var pk := primaryKey.value;
      match change.kind
      case Added =>
        var columns := GetTableColumns(db, stagingTable);
        var stagingRow := FetchRow(db, stagingTable, pk, id);
        if stagingRow.None? {
          return false, Fail(results, StagingRowNotFound(id, actualTable));
        }
        var row := BuildInsertRow(columns, stagingRow.value);
        if !queryOk {
          return false, Fail(results, InsertFailed(id, actualTable));
        }
        var target := db[productionTable];
        db := db[productionTable := target.(rows := target.rows + [row])];
        return true, Succeed(results, RowInserted(id, actualTable));
      case Modified =>
        var stagingRow := FetchRow(db, stagingTable, pk, id);
        if stagingRow.None? {
          return false, Fail(results, StagingRowNotFound(id, actualTable));
        }
        var sets := BuildUpdateSets(stagingRow.value, pk);
        if sets == map[] || !queryOk {
          return false, Fail(results, UpdateFailed(id, actualTable));
        }
        var target := db[productionTable];
        db := db[productionTable := target.(rows := UpdateRows(target.rows, pk, id, sets))];
        return true, Succeed(results, RowUpdated(id, actualTable));
      case Deleted =>
        if !queryOk {
          return false, Fail(results, DeleteRowFailed(id, actualTable));
        }
        var target := db[productionTable];
        db := db[productionTable := target.(rows := DeleteRows(target.rows, pk, id))];
        return true, Succeed(results, RowDeleted(id, actualTable));
      case OtherType(_) =>
        return false, Fail(results, UnknownRowChangeType(id, actualTable));
    }
  }
}
