/**
 * The file inventory of Staging2Live (includes/class-STL_File_Handling.php): a recursive
 * scan of the WordPress root that records, for every file that is not excluded, its path
 * relative to the root and its content hash, and the insert-if-absent copy of that list
 * into the file-hash table.
 *
 * The filesystem is an abstract tree of directory listings; sha256 is the function
 * `hash`, given to the scanner when it is built and otherwise unconstrained.
 */
module FileHandling {
  import opened Wrappers

  type Bytes = seq<bv8>
  type Digest = string

  /** One item of a directory listing, in the order the directory iterator yields them. */
  datatype Entry =
    | Dot(name: string)                       // the "." and ".." pseudo-entries
    | File(name: string, contents: Bytes)
    | Dir(name: string, children: seq<Entry>)
    | Special(name: string)                   // neither a regular file nor a directory

  /** What the base directory path denotes. */
  datatype Root = NotADirectory | Directory(listing: seq<Entry>)

  /** One element of the inventory, and also one row of the file-hash table. */
  datatype FileRecord = FileRecord(filePath: string, hash: Digest)

  datatype ScanError = InvalidDirectory

  // ---------------------------------------------------------------------------
  // str_replace and the relative path
  // ---------------------------------------------------------------------------

  /** PHP's str_replace with one search string: every non-overlapping occurrence,
      found from left to right, is replaced; an empty search string changes nothing. */
  function ReplaceAll(s: string, search: string, replacement: string): string
    decreases |s|
  {
    if |search| == 0 || |s| < |search| then s
    else if s[..|search|] == search then replacement + ReplaceAll(s[|search|..], search, replacement)
    else [s[0]] + ReplaceAll(s[1..], search, replacement)
  }

  /** Backslashes become slashes (class-STL_File_Handling.php lines 21 and 92). */
  function Normalize(s: string): string {
    ReplaceAll(s, "\\", "/")
  }

  /** get_relative_path: normalise, then delete every occurrence of `directory + "/"`. */
  function RelativePath(directory: string, filePath: string): string {
    ReplaceAll(Normalize(filePath), directory + "/", "")
  }

  ghost predicate OccursAt(pattern: string, s: string, i: nat) {
    i + |pattern| <= |s| && s[i..i + |pattern|] == pattern
  }

  ghost predicate Occurs(pattern: string, s: string) {
    exists i: nat :: OccursAt(pattern, s, i)
  }

  /** Replacing a character by a different one leaves none of it behind. */
  lemma {:induction false} ReplaceCharRemovesIt(s: string, c: char, d: char)
    requires c != d
    ensures c !in ReplaceAll(s, [c], [d])
    decreases |s|
  {
    if |s| >= 1 {
      ReplaceCharRemovesIt(s[1..], c, d);
    }
  }

  /** Deleting occurrences only removes characters: whatever is left was in the input. */
  lemma {:induction false} DeletionKeepsOnlyInputChars(s: string, search: string, ch: char)
    requires ch in ReplaceAll(s, search, "")
    ensures ch in s
    decreases |s|
  {
    if |search| == 0 || |s| < |search| {
    } else if s[..|search|] == search {
      DeletionKeepsOnlyInputChars(s[|search|..], search, ch);
    } else {
      if ch != s[0] {
        DeletionKeepsOnlyInputChars(s[1..], search, ch);
      }
    }
  }

  /** A string in which the search string does not occur is returned unchanged. */
  lemma {:induction false} ReplaceAllWithoutOccurrence(s: string, search: string, replacement: string)
    requires |search| > 0 && !Occurs(search, s)
    ensures ReplaceAll(s, search, replacement) == s
    decreases |s|
  {
    if |s| >= |search| {
      assert !OccursAt(search, s, 0);
      assert s[0..|search|] == s[..|search|];
      if Occurs(search, s[1..]) {
        var i: nat :| OccursAt(search, s[1..], i);
        assert s[1..][i..i + |search|] == s[i + 1..i + 1 + |search|];
        assert OccursAt(search, s, i + 1);
      }
      ReplaceAllWithoutOccurrence(s[1..], search, replacement);
    }
  }

  lemma NoCharNoOccurrence(s: string, c: char)
    requires c !in s
    ensures !Occurs([c], s)
  {
    forall i: nat ensures !OccursAt([c], s, i) {
      if i < |s| {
        assert s[i..i + 1] == [s[i]];
      }
    }
  }

  /** Replacing a single character distributes over concatenation (no match can straddle). */
  lemma {:induction false} ReplaceCharDistributes(a: string, b: string, c: char, replacement: string)
    ensures ReplaceAll(a + b, [c], replacement) == ReplaceAll(a, [c], replacement) + ReplaceAll(b, [c], replacement)
    decreases |a|
  {
    if |a| > 0 {
      assert (a + b)[1..] == a[1..] + b;
      assert (a + b)[..1] == a[..1];
      ReplaceCharDistributes(a[1..], b, c, replacement);
    } else {
      assert a + b == b;
    }
  }

  /** The result of get_relative_path never contains a backslash. The base directory need
      not be normalised for this: deleting text cannot bring a backslash back. */
  lemma RelativePathHasNoBackslash(directory: string, filePath: string)
    ensures '\\' !in RelativePath(directory, filePath)
  {
    ReplaceCharRemovesIt(filePath, '\\', '/');
    if '\\' in RelativePath(directory, filePath) {
      DeletionKeepsOnlyInputChars(Normalize(filePath), directory + "/", '\\');
    }
  }

  /** For a path `directory + "/" + rest` below a normalised base directory, where the base
      prefix does not occur again in the rest, get_relative_path yields the normalised rest. */
  lemma RelativePathStripsBase(directory: string, rest: string)
    requires '\\' !in directory
    requires !Occurs(directory + "/", Normalize(rest))
    ensures RelativePath(directory, directory + "/" + rest) == Normalize(rest)
  {
    var base := directory + "/";
    NoCharNoOccurrence(base, '\\');
    ReplaceAllWithoutOccurrence(base, "\\", "/");
    ReplaceCharDistributes(base, rest, '\\', "/");
    assert directory + "/" + rest == base + rest;
    assert Normalize(base + rest) == base + Normalize(rest);
    var n := base + Normalize(rest);
    assert n[..|base|] == base;
    assert n[|base|..] == Normalize(rest);
    ReplaceAllWithoutOccurrence(Normalize(rest), base, "");
  }

  // ---------------------------------------------------------------------------
  // Exclusion and the traversal it gives
  // ---------------------------------------------------------------------------

  predicate StartsWith(s: string, prefix: string) {
    |prefix| <= |s| && s[..|prefix|] == prefix
  }

  /** The skip test of scan_directory: the dot pseudo-entries; any name starting with '.'
      except exactly ".htaccess"; a directory (never a file) whose name starts with "cache". */
  predicate Skipped(e: Entry) {
    || e.Dot?
    || (|e.name| > 0 && e.name[0] == '.' && e.name != ".htaccess")
    || (e.Dir? && StartsWith(e.name, "cache"))
  }

  /** The records that scanning the directory at `path` appends, in traversal order. */
  function Scan(directory: string, path: string, listing: seq<Entry>, hash: Bytes -> Digest): seq<FileRecord>
    decreases listing
  {
    if listing == [] then []
    else ScanEntry(directory, path, listing[0], hash) + Scan(directory, path, listing[1..], hash)
  }

  /** The records one listing item contributes: one for a file, those of its subtree for a
      directory, none for anything skipped or for an item that is neither. */
  function ScanEntry(directory: string, path: string, e: Entry, hash: Bytes -> Digest): seq<FileRecord>
    decreases e
  {
    if Skipped(e) then []
    else match e
      case File(name, contents) => [FileRecord(RelativePath(directory, path + "/" + name), hash(contents))]
      case Dir(name, children) => Scan(directory, path + "/" + name, children, hash)
      case _ => []
  }

  lemma {:induction false} ScanAppend(directory: string, path: string, a: seq<Entry>, b: seq<Entry>, hash: Bytes -> Digest)
    ensures Scan(directory, path, a + b, hash) == Scan(directory, path, a, hash) + Scan(directory, path, b, hash)
    decreases |a|
  {
    if a == [] {
      assert a + b == b;
    } else {
      assert (a + b)[0] == a[0];
      assert (a + b)[1..] == a[1..] + b;
      ScanAppend(directory, path, a[1..], b, hash);
    }
  }

  /** A sequence of listing items leading from a listing down to one file: each item but the
      last is a directory holding the next. */
  ghost predicate Links(listing: seq<Entry>, c: seq<Entry>)
    decreases c
  {
    |c| > 0 && c[0] in listing && (|c| == 1 || (c[0].Dir? && Links(c[0].children, c[1..])))
  }

  ghost predicate IsChain(listing: seq<Entry>, c: seq<Entry>) {
    |c| > 0 && c[|c| - 1].File? && Links(listing, c)
  }

  /** No item on the way is excluded. */
  ghost predicate Included(c: seq<Entry>) {
    forall k :: 0 <= k < |c| ==> !Skipped(c[k])
  }

  function ChainPath(path: string, c: seq<Entry>): string
    decreases c
  {
    if c == [] then path else ChainPath(path + "/" + c[0].name, c[1..])
  }

  /** The record the file at the end of a chain should give. */
  function ChainRecord(directory: string, path: string, c: seq<Entry>, hash: Bytes -> Digest): FileRecord
    requires |c| > 0 && c[|c| - 1].File?
  {
    FileRecord(RelativePath(directory, ChainPath(path, c)), hash(c[|c| - 1].contents))
  }

  /** Soundness of the scan: every record comes from a file (never a directory) reached
      through directories none of which is excluded, and carries the hash of its contents. */
  lemma {:induction false} ScanSound(directory: string, path: string, listing: seq<Entry>, hash: Bytes -> Digest, rec: FileRecord)
    requires rec in Scan(directory, path, listing, hash)
    ensures exists c :: IsChain(listing, c) && Included(c) && rec == ChainRecord(directory, path, c, hash)
    decreases listing
  {
    if rec in ScanEntry(directory, path, listing[0], hash) {
      var c := ScanEntrySound(directory, path, listing[0], hash, rec);
      assert Links(listing, c);
    } else {
      ScanSound(directory, path, listing[1..], hash, rec);
      var c :| IsChain(listing[1..], c) && Included(c) && rec == ChainRecord(directory, path, c, hash);
      assert Links(listing, c);
    }
  }

  lemma {:induction false} ScanEntrySound(directory: string, path: string, e: Entry, hash: Bytes -> Digest, rec: FileRecord)
    returns (c: seq<Entry>)
    requires rec in ScanEntry(directory, path, e, hash)
    ensures IsChain([e], c) && Included(c) && rec == ChainRecord(directory, path, c, hash)
    decreases e
  {
    match e
    case File(name, contents) =>
      c := [e];
      assert ChainPath(path, c) == ChainPath(path + "/" + name, []);
    case Dir(name, children) =>
      ScanSound(directory, path + "/" + name, children, hash, rec);
      var rest :| IsChain(children, rest) && Included(rest) && rec == ChainRecord(directory, path + "/" + name, rest, hash);
      c := [e] + rest;
      assert c[1..] == rest;
      assert ChainPath(path, c) == ChainPath(path + "/" + name, rest);
      assert Included(c) by {
        forall k | 0 <= k < |c| ensures !Skipped(c[k]) {
          if k > 0 { assert c[k] == rest[k - 1]; }
        }
      }
  }

  lemma {:induction false} InScanOfMember(directory: string, path: string, listing: seq<Entry>, hash: Bytes -> Digest, e: Entry, rec: FileRecord)
    requires e in listing && rec in ScanEntry(directory, path, e, hash)
    ensures rec in Scan(directory, path, listing, hash)
    decreases listing
  {
    if listing[0] != e {
      InScanOfMember(directory, path, listing[1..], hash, e, rec);
    }
  }

  /** Completeness of the scan: every file reached through non-excluded directories, and not
      excluded itself, yields its record. */
  lemma {:induction false} ScanComplete(directory: string, path: string, listing: seq<Entry>, hash: Bytes -> Digest, c: seq<Entry>)
    requires IsChain(listing, c) && Included(c)
    ensures ChainRecord(directory, path, c, hash) in Scan(directory, path, listing, hash)
    decreases c
  {
    var e := c[0];
    assert !Skipped(e);
    if |c| == 1 {
      assert ChainPath(path, c) == ChainPath(path + "/" + e.name, []);
      assert ScanEntry(directory, path, e, hash) == [ChainRecord(directory, path, c, hash)];
    } else {
      var rest := c[1..];
      assert Included(rest) by {
        forall k | 0 <= k < |rest| ensures !Skipped(rest[k]) {
          assert rest[k] == c[k + 1];
        }
      }
      assert rest[|rest| - 1] == c[|c| - 1];
      ScanComplete(directory, path + "/" + e.name, e.children, hash, rest);
      assert ChainPath(path, c) == ChainPath(path + "/" + e.name, rest);
    }
    InScanOfMember(directory, path, listing, hash, e, ChainRecord(directory, path, c, hash));
  }

  /** The number of files a listing holds that are not excluded and lie below no excluded
      directory, counted item by item. */
  function IncludedFiles(listing: seq<Entry>): nat
    decreases listing
  {
    if listing == [] then 0 else IncludedFilesOf(listing[0]) + IncludedFiles(listing[1..])
  }

  function IncludedFilesOf(e: Entry): nat
    decreases e
  {
    if Skipped(e) then 0
    else if e.File? then 1
    else if e.Dir? then IncludedFiles(e.children)
    else 0
  }

  /** Exactly one record per included file: the scan is as long as the count, so two files
      with the same contents (or the same name in different places) give two records. */
  lemma {:induction false} ScanCount(directory: string, path: string, listing: seq<Entry>, hash: Bytes -> Digest)
    ensures |Scan(directory, path, listing, hash)| == IncludedFiles(listing)
    decreases listing
  {
    if listing != [] {
      ScanEntryCount(directory, path, listing[0], hash);
      ScanCount(directory, path, listing[1..], hash);
    }
  }

  lemma {:induction false} ScanEntryCount(directory: string, path: string, e: Entry, hash: Bytes -> Digest)
    ensures |ScanEntry(directory, path, e, hash)| == IncludedFilesOf(e)
    decreases e
  {
    if !Skipped(e) && e.Dir? {
      ScanCount(directory, path + "/" + e.name, e.children, hash);
    }
  }

  /** get_relative_path deletes every occurrence of `base/`, not only the leading one, so
      two different files can get the same relative path. */
  lemma RelativePathCollision()
    ensures RelativePath("/w", "/w/x/w/y") == "xy"
    ensures RelativePath("/w", "/w/xy") == "xy"
  {
    NoCharNoOccurrence("/w/x/w/y", '\\');
    NoCharNoOccurrence("/w/xy", '\\');
    ReplaceAllWithoutOccurrence("/w/x/w/y", "\\", "/");
    ReplaceAllWithoutOccurrence("/w/xy", "\\", "/");
    assert "/w" + "/" == "/w/";
    DeleteInnerBase();
    DeleteLeadingBase();
  }

  lemma DeleteInnerBase()
    ensures ReplaceAll("/w/x/w/y", "/w/", "") == "xy"
  {
    var s := "/w/x/w/y";
    assert s[..3] == "/w/" && s[3..] == "x/w/y";
    var t := "x/w/y";
    assert t[..3] != "/w/" && t[1..] == "/w/y";
    var u := "/w/y";
    assert u[..3] == "/w/" && u[3..] == "y";
    assert ReplaceAll("y", "/w/", "") == "y";
    assert ReplaceAll(u, "/w/", "") == "y";
    assert ReplaceAll(t, "/w/", "") == "x" + "y";
  }

  lemma DeleteLeadingBase()
    ensures ReplaceAll("/w/xy", "/w/", "") == "xy"
  {
    var s := "/w/xy";
    assert s[..3] == "/w/" && s[3..] == "xy";
    assert ReplaceAll("xy", "/w/", "") == "xy";
  }

  /** Exclusion cases: `.htaccess` kept, `.env` skipped, a `cache-tmp` directory skipped,
      a `cache.log` file kept, the dot entries skipped. */
  lemma ExclusionExamples(b: Bytes, children: seq<Entry>)
    ensures !Skipped(File(".htaccess", b)) && Skipped(File(".env", b))
    ensures Skipped(Dir("cache-tmp", children)) && !Skipped(File("cache.log", b))
    ensures Skipped(Dot(".")) && Skipped(Dot(".."))
  {
    assert StartsWith("cache-tmp", "cache");
  }

  // ---------------------------------------------------------------------------
  // The file-hash table
  // ---------------------------------------------------------------------------

  /** COUNT(*) of the rows with the given file_path. */
  function CountPath(table: seq<FileRecord>, p: string): nat
    decreases |table|
  {
    if table == [] then 0
    else CountPath(table[..|table| - 1], p) + (if table[|table| - 1].filePath == p then 1 else 0)
  }

  /** Whether the COUNT query and the INSERT for one record succeed. A failed COUNT
      yields null, which `0 == $existing_file` takes for zero; a failed INSERT adds
      nothing and is not reported. */
  datatype HashDbIo = HashDbIo(countOk: bool, insertOk: bool)

  /** Some record with the path is inserted successfully, if it gets that far. */
  ghost predicate Stored(files: seq<FileRecord>, io: nat -> HashDbIo, p: string) {
    exists k :: 0 <= k < |files| && files[k].filePath == p && io(k).insertOk
  }

  /** The table after the pass: each record, in order, is inserted when the COUNT of rows
      with its path is zero (or fails) and the INSERT succeeds. */
  function InsertAbsent(table: seq<FileRecord>, files: seq<FileRecord>, io: nat -> HashDbIo): seq<FileRecord>
    decreases |files|
  {
    if files == [] then table
    else
      var before := InsertAbsent(table, files[..|files| - 1], io);
      var f := files[|files| - 1];
      var outcome := io(|files| - 1);
      var existing := if outcome.countOk then CountPath(before, f.filePath) else 0;
      if existing == 0 && outcome.insertOk then before + [f] else before
  }

  lemma CountPathSnoc(table: seq<FileRecord>, f: FileRecord, p: string)
    ensures CountPath(table + [f], p) == CountPath(table, p) + (if f.filePath == p then 1 else 0)
  {
    assert (table + [f])[..|table|] == table;
  }

  lemma StoredSnoc(files: seq<FileRecord>, io: nat -> HashDbIo, p: string)
    requires files != []
    ensures Stored(files, io, p)
        <==> Stored(files[..|files| - 1], io, p) || (files[|files| - 1].filePath == p && io(|files| - 1).insertOk)
  {
    var init := files[..|files| - 1];
    if Stored(init, io, p) {
      var k :| 0 <= k < |init| && init[k].filePath == p && io(k).insertOk;
      assert files[k] == init[k];
    }
    if Stored(files, io, p) {
      var k :| 0 <= k < |files| && files[k].filePath == p && io(k).insertOk;
      if k < |init| {
        assert init[k] == files[k];
      }
    }
  }

  /** Exact row counts after the insertion pass, when every COUNT query succeeds: a path
      that had rows keeps exactly those, a path that had none gets one row if some record
      with it is inserted successfully, and none otherwise. In particular no path gains a
      second row, even when the list holds it twice. */
  lemma {:induction false} InsertAbsentCounts(table: seq<FileRecord>, files: seq<FileRecord>, io: nat -> HashDbIo, p: string)
    requires forall k :: 0 <= k < |files| ==> io(k).countOk
    ensures CountPath(InsertAbsent(table, files, io), p)
         == if CountPath(table, p) > 0 then CountPath(table, p)
            else if Stored(files, io, p) then 1 else 0
    decreases |files|
  {
    if files != [] {
      var init := files[..|files| - 1];
      var n := |files| - 1;
      var f := files[n];
      assert forall k :: 0 <= k < |init| ==> io(k).countOk;
      InsertAbsentCounts(table, init, io, p);
      StoredSnoc(files, io, p);
      var before := InsertAbsent(table, init, io);
      if CountPath(before, f.filePath) == 0 && io(n).insertOk {
        CountPathSnoc(before, f, p);
        if f.filePath == p {
          InsertAbsentCounts(table, init, io, f.filePath);
        }
      }
    }
  }

  /** A failed COUNT lets a path that already has a row get a second one. */
  lemma FailedCountDuplicates(r: FileRecord, io: nat -> HashDbIo)
    requires io(0) == HashDbIo(false, true)
    ensures CountPath(InsertAbsent([r], [r], io), r.filePath) == 2
  {
    assert [r][..0] == [];
    assert InsertAbsent([r], [], io) == [r];
    assert InsertAbsent([r], [r], io) == [r] + [r];
    assert CountPath([r], r.filePath) == 1 by {
      CountPathSnoc([], r, r.filePath);
      assert [] + [r] == [r];
    }
    CountPathSnoc([r], r, r.filePath);
  }

  /** The rows the table had keep their place and their hash; the rows added are records
      of the list. */
  lemma {:induction false} InsertAbsentExtends(table: seq<FileRecord>, files: seq<FileRecord>, io: nat -> HashDbIo)
    ensures |table| <= |InsertAbsent(table, files, io)|
    ensures InsertAbsent(table, files, io)[..|table|] == table
    ensures forall k :: |table| <= k < |InsertAbsent(table, files, io)| ==> InsertAbsent(table, files, io)[k] in files
    decreases |files|
  {
    if files != [] {
      var init := files[..|files| - 1];
      InsertAbsentExtends(table, init, io);
      var before := InsertAbsent(table, init, io);
      forall r | r in init ensures r in files {
        var k :| 0 <= k < |init| && init[k] == r;
        assert files[k] == r;
      }
    }
  }

  // ---------------------------------------------------------------------------
  // The scanner object
  // ---------------------------------------------------------------------------

  class FileHandler {
    /** The base directory (the WordPress root), normalised to forward slashes. */
    var directory: string
    /** The inventory built so far; scanning only ever appends to it. */
    var files: seq<FileRecord>
    /** The rows of the file-hash table. */
    var hashTable: seq<FileRecord>
    /** sha256 of a file's contents. */
    const hash: Bytes -> Digest

    /** `homePath` is the resolved home path; the table holds its current rows. */
    constructor (homePath: string, hash: Bytes -> Digest, table: seq<FileRecord>)
      ensures directory == Normalize(homePath) && '\\' !in directory
      ensures files == [] && hashTable == table && this.hash == hash
    {
      directory := Normalize(homePath);
      files := [];
      hashTable := table;
      this.hash := hash;
      ReplaceCharRemovesIt(homePath, '\\', '/');
    }

    /** list_files: an error, leaving the inventory alone, when the base is not a directory;
        otherwise the records of the whole tree are appended after the earlier ones (so a
        second call lists every file again) and the whole inventory is returned. */
    method ListFiles(root: Root) returns (r: Result<seq<FileRecord>, ScanError>)
      modifies this`files
      ensures root.NotADirectory? ==> r == Err(InvalidDirectory) && files == old(files)
      ensures root.Directory? ==>
                files == old(files) + Scan(directory, directory, root.listing, hash) && r == Ok(files)
    {
      if root.NotADirectory? {
        return Err(InvalidDirectory);
      }
      ScanDirectory(directory, root.listing);
      return Ok(files);
    }

    /** scan_directory: walks one listing, appending a record per included file and
        recursing into each included directory. */
    method ScanDirectory(path: string, listing: seq<Entry>)
      modifies this`files
      ensures files == old(files) + Scan(directory, path, listing, hash)
      decreases listing
    {
      var i := 0;
      while i < |listing|
        invariant 0 <= i <= |listing|
        invariant files == old(files) + Scan(directory, path, listing[..i], hash)
      {
        var item := listing[i];
        ghost var before := files;
        if !Skipped(item) {
          var filePath := path + "/" + item.name;
          var relativePath := RelativePath(directory, filePath);
          if item.File? {
            files := files + [FileRecord(relativePath, hash(item.contents))];
          }
          if item.Dir? {
            ScanDirectory(filePath, item.children);
          }
        }
        assert files == before + ScanEntry(directory, path, item, hash);
        assert listing[..i + 1] == listing[..i] + [item];
        ScanAppend(directory, path, listing[..i], [item], hash);
        i := i + 1;
      }
      assert listing[..i] == listing;
    }

    /** insert_files_into_database: for each record in order, a row is inserted when no row
        with its path exists yet; `io` gives the outcome of each record's two queries. */
    method InsertFilesIntoDatabase(io: nat -> HashDbIo)
      modifies this`hashTable
      ensures hashTable == InsertAbsent(old(hashTable), files, io)
    {
      var i := 0;
      while i < |files|
        invariant 0 <= i <= |files|
        invariant hashTable == InsertAbsent(old(hashTable), files[..i], io)
      {
        var file := files[i];
        var outcome := io(i);
        var existing := if outcome.countOk then CountPath(hashTable, file.filePath) else 0;
        if existing == 0 {
          if outcome.insertOk {
            hashTable := hashTable + [FileRecord(file.filePath, file.hash)];
          }
        }
        assert files[..i + 1][..i] == files[..i];
        i := i + 1;
      }
      assert files[..i] == files;
    }
  }
}
