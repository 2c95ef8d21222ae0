/** The comparison of the files on disk with the active records of the catalog. */
module Reconciliation {
  import opened Ordering
  import opened Sequences
  import opened Text
  import opened Wrappers

  datatype FileKind = RagDocument | StructuredTable

  datatype Record = Record(
    path: string, contentHash: string, scope: string, kind: FileKind, chunkCount: int, relationExists: bool,
    columns: seq<string>, runtimeColumns: seq<string>, rowCount: Option<int>, runtimeRowCount: Option<int>)

  /** A file below the dataset root; `supported` says that its extension is one the system reads. */
  datatype SourceFile = SourceFile(path: string, hash: string, supported: bool)

  datatype Code =
    | ActiveDatasetRootMissing | FilesystemSourceMissingInDb | ContentHashMismatch | PermissionScopeMismatch
    | RagDocumentMissingChunks | StructuredRuntimeRelationMissing | StructuredColumnsMismatch
    | StructuredRowCountMismatch | DbActiveSourceMissingFromFilesystem

  datatype Mismatch = Mismatch(code: Code, path: string)

  datatype Status = Current | FullRebuildRequired | Failed

  datatype Report = Report(status: Status, mismatches: seq<Mismatch>, files: nat, records: nat)

  /** `path.split("/", 1)[0]` */
  function TopLevel(path: string): string {
    if path == "" || path[0] == '/' then "" else [path[0]] + TopLevel(path[1..])
  }

  function ScopeOf(topLevel: string): Option<string> {
    if topLevel == "Employee Guidelines" then Some("employee_guidelines")
    else if topLevel == "File Server" then Some("file_server")
    else if topLevel == "Finance" then Some("finance")
    else if topLevel == "HR" then Some("hr")
    else None
  }

  function Scannable(f: SourceFile): bool {
    f.supported && ScopeOf(TopLevel(f.path)).Some?
  }

  /** The files that take part, in the order of the directory scan. */
  function Scan(files: seq<SourceFile>): seq<SourceFile> {
    Keep(files, Scannable)
  }

  function Paths(files: seq<SourceFile>): seq<string> {
    seq(|files|, i requires 0 <= i < |files| => files[i].path)
  }

  /** `{record.relative_path: record}`: a later record replaces an earlier one. */
  function ByPath(records: seq<Record>): map<string, Record> {
    if records == [] then map[]
    else ByPath(records[..|records| - 1])[records[|records| - 1].path := records[|records| - 1]]
  }

  /*** The clauses, one by one ***/

  /** The clause that a code reports, for a file with the given hash and the record of its path. */
  predicate Violates(code: Code, path: string, hash: string, r: Record) {
    match code
    case ContentHashMismatch => r.contentHash != hash
    case PermissionScopeMismatch => ScopeOf(TopLevel(path)).Some? && r.scope != ScopeOf(TopLevel(path)).value
    case RagDocumentMissingChunks => r.kind.RagDocument? && r.chunkCount <= 0
    case StructuredRuntimeRelationMissing => r.kind.StructuredTable? && !r.relationExists
    case StructuredColumnsMismatch => r.kind.StructuredTable? && multiset(r.columns) != multiset(r.runtimeColumns)
    case StructuredRowCountMismatch =>
      r.kind.StructuredTable? && r.rowCount.Some? && r.runtimeRowCount.Some? && r.rowCount != r.runtimeRowCount
    case _ => false
  }

  predicate Agrees(path: string, hash: string, r: Record) {
    && r.contentHash == hash
    && (ScopeOf(TopLevel(path)).Some? ==> r.scope == ScopeOf(TopLevel(path)).value)
    && (r.kind.RagDocument? ==> r.chunkCount > 0)
    && (r.kind.StructuredTable? ==>
          && r.relationExists
          && multiset(r.columns) == multiset(r.runtimeColumns)
          && (r.rowCount.Some? && r.runtimeRowCount.Some? ==> r.rowCount == r.runtimeRowCount))
  }

  /** What the report has to contain, and nothing else. */
  ghost predicate Expected(m: Mismatch, files: seq<SourceFile>, records: map<string, Record>) {
    || (m.code.FilesystemSourceMissingInDb? && m.path in Paths(files) && m.path !in records)
    || (m.code.DbActiveSourceMissingFromFilesystem? && m.path in records && m.path !in Paths(files))
    || (m.path in records && exists f :: f in files && f.path == m.path && Violates(m.code, m.path, f.hash, records[m.path]))
  }

  method CheckFile(path: string, hash: string, r: Record) returns (found: seq<Mismatch>)
    ensures forall m: Mismatch :: m in found <==> m.path == path && Violates(m.code, path, hash, r)
    ensures found == [] <==> Agrees(path, hash, r)
  {
    found := [];
    if r.contentHash != hash {
      found := found + [Mismatch(ContentHashMismatch, path)];
    }
    var scope := ScopeOf(TopLevel(path));
    if scope.Some? && r.scope != scope.value {
      found := found + [Mismatch(PermissionScopeMismatch, path)];
    }
    if r.kind.RagDocument? && r.chunkCount <= 0 {
      found := found + [Mismatch(RagDocumentMissingChunks, path)];
    }
    if r.kind.StructuredTable? {
      var tables := CheckTable(path, r);
      found := found + tables;
    }
  }

  function SameColumns(a: seq<string>, b: seq<string>): (same: bool)
    ensures same <==> multiset(a) == multiset(b)
  {
    SortComparesMultisets(a, b);
    Sort(a) == Sort(b)
  }

  method CheckTable(path: string, r: Record) returns (found: seq<Mismatch>)
    requires r.kind.StructuredTable?
    ensures forall m: Mismatch :: m in found <==>
      && m.path == path
      && (m.code.StructuredRuntimeRelationMissing? || m.code.StructuredColumnsMismatch? || m.code.StructuredRowCountMismatch?)
      && Violates(m.code, path, "", r)
    ensures found == [] <==>
      && r.relationExists
      && multiset(r.columns) == multiset(r.runtimeColumns)
      && (r.rowCount.Some? && r.runtimeRowCount.Some? ==> r.rowCount == r.runtimeRowCount)
  {
    found := [];
    if !r.relationExists {
      found := found + [Mismatch(StructuredRuntimeRelationMissing, path)];
    }
    if !SameColumns(r.columns, r.runtimeColumns) {
      found := found + [Mismatch(StructuredColumnsMismatch, path)];
    }
    if r.rowCount.Some? && r.runtimeRowCount.Some? && r.rowCount != r.runtimeRowCount {
      found := found + [Mismatch(StructuredRowCountMismatch, path)];
    }
  }

  ghost predicate InSync(files: seq<SourceFile>, records: map<string, Record>) {
    && ToSet(Paths(files)) == records.Keys
    && forall f | f in files :: f.path in records && Agrees(f.path, f.hash, records[f.path])
  }

  /** The loop over the scanned files. */
  method CheckFiles(files: seq<SourceFile>, records: map<string, Record>) returns (found: seq<Mismatch>)
    ensures forall m: Mismatch :: m in found <==> !m.code.DbActiveSourceMissingFromFilesystem? && Expected(m, files, records)
    ensures found == [] <==> forall f | f in files :: f.path in records && Agrees(f.path, f.hash, records[f.path])
  {
    found := [];
    for i := 0 to |files|
      invariant forall m: Mismatch :: m in found <==> !m.code.DbActiveSourceMissingFromFilesystem? && Expected(m, files[..i], records)
      invariant found == [] <==> forall f | f in files[..i] :: f.path in records && Agrees(f.path, f.hash, records[f.path])
    {
      var f := files[i];
      ExpectedNext(files, i, records);
      assert files[..i + 1] == files[..i] + [f];
      if f.path !in records {
        found := found + [Mismatch(FilesystemSourceMissingInDb, f.path)];
        continue;
      }
      var more := CheckFile(f.path, f.hash, records[f.path]);
      found := found + more;
    }
    assert files[..|files|] == files;
  }

  lemma ExpectedNext(files: seq<SourceFile>, i: nat, records: map<string, Record>)
    requires i < |files|
    ensures forall m: Mismatch | !m.code.DbActiveSourceMissingFromFilesystem? ::
      Expected(m, files[..i + 1], records) <==>
        || Expected(m, files[..i], records)
        || (m.path == files[i].path &&
              if m.path in records then Violates(m.code, m.path, files[i].hash, records[m.path])
              else m.code.FilesystemSourceMissingInDb?)
  {
    assert files[..i + 1] == files[..i] + [files[i]];
    assert Paths(files[..i + 1]) == Paths(files[..i]) + [files[i].path];
  }

  /** The loop over the recorded paths that no file has. */
  method CheckOrphans(orphans: set<string>) returns (found: seq<Mismatch>)
    ensures forall m: Mismatch :: m in found <==> m.code.DbActiveSourceMissingFromFilesystem? && m.path in orphans
    ensures |found| == |orphans|
  {
    found := [];
    var rest := orphans;
    while rest != {}
      invariant rest <= orphans
      invariant forall m: Mismatch :: m in found <==> m.code.DbActiveSourceMissingFromFilesystem? && m.path in orphans - rest
      invariant |found| + |rest| == |orphans|
    {
      var p :| p in rest;
      rest := rest - {p};
      found := found + [Mismatch(DbActiveSourceMissingFromFilesystem, p)];
    }
  }

  lemma FilesCovered(files: seq<SourceFile>, records: map<string, Record>)
    ensures InSync(files, records) <==>
      && records.Keys - ToSet(Paths(files)) == {}
      && forall f | f in files :: f.path in records && Agrees(f.path, f.hash, records[f.path])
  {
    var paths := ToSet(Paths(files));
    if forall f | f in files :: f.path in records {
      forall p | p in Paths(files)
        ensures p in records
      {
        var i :| 0 <= i < |files| && Paths(files)[i] == p;
        assert files[i] in files;
      }
      assert paths <= records.Keys;
    }
    if records.Keys - paths == {} {
      forall p | p in records.Keys
        ensures p in paths
      {
        assert p !in records.Keys - paths;
      }
    }
  }

  method Compare(files: seq<SourceFile>, records: map<string, Record>) returns (mismatches: seq<Mismatch>)
    ensures mismatches == [] <==> InSync(files, records)
    ensures forall m: Mismatch :: m in mismatches <==> Expected(m, files, records)
  {
    var found := CheckFiles(files, records);
    var orphans := CheckOrphans(records.Keys - ToSet(Paths(files)));
    mismatches := found + orphans;
    FilesCovered(files, records);
    assert mismatches == [] <==> found == [] && orphans == [];
    assert orphans == [] <==> records.Keys - ToSet(Paths(files)) == {};
  }

  /**
   With a dataset root the report is `current` exactly when files and records are in sync, and it
   lists a mismatch exactly when the clause of its code is violated at its path. A directory
   listing names each file once.
   */
  method RunReconciliation(rootExists: bool, listing: seq<SourceFile>, active: seq<Record>) returns (report: Report)
    requires Distinct(Paths(listing))
    ensures !rootExists ==> report == Report(Failed, [Mismatch(ActiveDatasetRootMissing, "active_dataset")], 0, 0)
    ensures rootExists ==> (report.status.Current? <==> InSync(Scan(listing), ByPath(active)))
    ensures rootExists ==> (report.status.Current? || report.status.FullRebuildRequired?)
    ensures rootExists ==> forall m: Mismatch :: m in report.mismatches <==> Expected(m, Scan(listing), ByPath(active))
    ensures rootExists ==> report.files == |Scan(listing)| && report.records == |ByPath(active)|
  {
    if !rootExists {
      return Report(Failed, [Mismatch(ActiveDatasetRootMissing, "active_dataset")], 0, 0);
    }
    var files, records := Scan(listing), ByPath(active);
    var mismatches := Compare(files, records);
    report := Report(if mismatches == [] then Current else FullRebuildRequired, mismatches, |files|, |records|);
  }

  /*** Folders, scopes and records ***/

  /** The first folder of a path: all of it up to the first slash. */
  lemma {:induction false} TopLevelIsExact(path: string)
    ensures '/' !in TopLevel(path)
    ensures path == TopLevel(path) || exists rest :: path == TopLevel(path) + "/" + rest
  {
    if path != "" && path[0] != '/' {
      TopLevelIsExact(path[1..]);
      assert path == [path[0]] + path[1..];
      if path[1..] != TopLevel(path[1..]) {
        var rest :| path[1..] == TopLevel(path[1..]) + "/" + rest;
        assert path == TopLevel(path) + "/" + rest;
      }
    } else if path != "" {
      assert path == "" + "/" + path[1..];
    }
  }

  /** A folder's name in small letters with underscores for blanks. */
  function FolderKey(folder: string): string {
    seq(|folder|, i requires 0 <= i < |folder| => if folder[i] == ' ' then '_' else LowerChar(folder[i]))
  }

  /** Four folders have a scope, and it is their name in small letters. */
  lemma ScopesAreFolderKeys(folder: string)
    ensures ScopeOf(folder).Some? <==>
      folder == "Employee Guidelines" || folder == "File Server" || folder == "Finance" || folder == "HR"
    ensures ScopeOf(folder).Some? ==> ScopeOf(folder).value == FolderKey(folder)
  {
  }

  /** The scan keeps the readable files in folders with a scope, in the order of the listing. */
  lemma {:induction false} ScanIsExact(files: seq<SourceFile>)
    ensures Scan(files) ==
      Select(files, (i: nat) => i < |files| && files[i].supported && ScopeOf(TopLevel(files[i].path)).Some?)
  {
    KeepIsSelect(files, Scannable,
      (i: nat) => i < |files| && files[i].supported && ScopeOf(TopLevel(files[i].path)).Some?);
  }

  /** Record i is the last one of its path. */
  ghost predicate LastRecord(records: seq<Record>, i: nat) {
    i < |records| && forall j: nat | i < j < |records| :: records[j].path != records[i].path
  }

  lemma {:induction false} LastRecordCounts(records: seq<Record>, i: nat)
    requires LastRecord(records, i)
    ensures records[i].path in ByPath(records) && ByPath(records)[records[i].path] == records[i]
  {
    var n := |records| - 1;
    if i < n {
      var front := records[..n];
      assert front[i] == records[i] && records[n].path != records[i].path;
      LastRecordCounts(front, i);
    }
  }

  lemma {:induction false} PathHasRecord(records: seq<Record>, p: string) returns (i: nat)
    requires p in ByPath(records)
    ensures LastRecord(records, i) && records[i].path == p
  {
    var n := |records| - 1;
    if records[n].path == p {
      i := n;
    } else {
      i := PathHasRecord(records[..n], p);
    }
  }

  /** Of the records with one path the last counts. */
  lemma RecordsByPath(records: seq<Record>)
    ensures forall i: nat | LastRecord(records, i) ::
      records[i].path in ByPath(records) && ByPath(records)[records[i].path] == records[i]
    ensures forall p | p in ByPath(records) :: exists i: nat :: LastRecord(records, i) && records[i].path == p
  {
    forall i: nat | LastRecord(records, i)
      ensures records[i].path in ByPath(records) && ByPath(records)[records[i].path] == records[i]
    {
      LastRecordCounts(records, i);
    }
    forall p | p in ByPath(records)
      ensures exists i: nat :: LastRecord(records, i) && records[i].path == p
    {
      var i := PathHasRecord(records, p);
    }
  }
}
