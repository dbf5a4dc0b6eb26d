/**
 What the write API addresses, the `files` row and the S3 key each resource is kept under,
 and the issue listing.
 */
module Resources {
  import opened Common
  import opened Ordering

  /** A UUID in its canonical text form has this length. */
  const UUID_LENGTH := 36

  predicate IsDigit(c: char) {
    '0' <= c <= '9'
  }

  /** The pattern ^\d{4}$. */
  predicate IsIssueId(id: string) {
    |id| == 4 && IsDigit(id[0]) && IsDigit(id[1]) && IsDigit(id[2]) && IsDigit(id[3])
  }

  /** An issue id is four decimal digits. */
  lemma {:induction false} IssueIdIff(id: string)
    ensures IsIssueId(id) <==> |id| == 4 && forall i :: 0 <= i < |id| ==> '0' <= id[i] <= '9'
  {
  }

  datatype Resource =
    | Issue(project: string, id: string)
    | Attachment(project: string, id: string, name: string)
    | ProjectJson(project: string)
  {
    /** Handlers answer 400 to a malformed project or issue id and to an empty attachment name. */
    predicate Valid() {
      && |project| == UUID_LENGTH
      && (!ProjectJson? ==> IsIssueId(id))
      && (Attachment? ==> name != "")
    }
  }

  /** Primary key of the `files` table. */
  datatype RowKey = RowKey(project: string, path: string)

  function Path(r: Resource): string {
    match r
    case Issue(_, id) => id + ".md"
    case Attachment(_, id, name) => id + "/" + name
    case ProjectJson(_) => "project.json"
  }

  function Row(r: Resource): RowKey {
    RowKey(r.project, Path(r))
  }

  function S3Key(r: Resource): string {
    match r
    case Issue(p, id) => "projects/" + p + "/issues/" + id + ".md"
    case Attachment(p, id, name) => "projects/" + p + "/issues/" + id + "/" + name
    case ProjectJson(p) => "projects/" + p + "/project.json"
  }

  // ---------- distinct resources never collide ----------

  lemma {:induction false} PathsAreInjective(a: Resource, b: Resource)
    requires a.Valid() && b.Valid() && Path(a) == Path(b) && a.project == b.project
    ensures a == b
  {
    var p, q := Path(a), Path(b);
    assert !a.ProjectJson? ==> p[..4] == a.id && IsDigit(p[0]);
    assert !b.ProjectJson? ==> q[..4] == b.id && IsDigit(q[0]);
    assert a.Issue? ==> p[4] == '.';
    assert b.Issue? ==> q[4] == '.';
    assert a.Attachment? ==> p[4] == '/' && p[5..] == a.name;
    assert b.Attachment? ==> q[4] == '/' && q[5..] == b.name;
    assert a.ProjectJson? ==> p[0] == 'p';
    assert b.ProjectJson? ==> q[0] == 'p';
  }

  /** The part of an S3 key behind "projects/" and the project. */
  function KeyTail(r: Resource): string {
    if r.ProjectJson? then "/project.json" else "/issues/" + Path(r)
  }

  lemma {:induction false} KeyShape(r: Resource)
    requires r.Valid()
    ensures S3Key(r) == "projects/" + r.project + KeyTail(r)
    ensures S3Key(r)[9..45] == r.project && S3Key(r)[45..] == KeyTail(r)
  {
    var head := "projects/";
    match r
    case Issue(p, id) =>
      assert head + p + "/issues/" + id + ".md" == head + p + ("/issues/" + (id + ".md"));
    case Attachment(p, id, name) =>
      assert head + p + "/issues/" + id + "/" + name == head + p + ("/issues/" + (id + "/" + name));
    case ProjectJson(p) =>
  }

  /** Two resources share a row, or an S3 key, only if they are the same resource. */
  lemma {:induction false} ResourcesNeverCollide(a: Resource, b: Resource)
    requires a.Valid() && b.Valid()
    ensures Row(a) == Row(b) <==> a == b
    ensures S3Key(a) == S3Key(b) <==> a == b
  {
    if Row(a) == Row(b) {
      PathsAreInjective(a, b);
    }
    if S3Key(a) == S3Key(b) {
      KeyShape(a);
      KeyShape(b);
      var s, t := KeyTail(a), KeyTail(b);
      assert a.ProjectJson? ==> s[1] == 'p';
      assert b.ProjectJson? ==> t[1] == 'p';
      assert !a.ProjectJson? ==> s[1] == 'i' && s[8..] == Path(a);
      assert !b.ProjectJson? ==> t[1] == 'i' && t[8..] == Path(b);
      PathsAreInjective(a, b);
    }
  }

  // ---------- the issue listing ----------

  datatype IssueMetadata = IssueMetadata(id: string, etag: string)

  datatype FileRow = FileRow(path: string, etag: string)

  /** The pattern ^[0-9]{4}\.md$ of the listing query. */
  predicate IsIssuePath(path: string) {
    |path| == 7 && IsIssueId(path[..4]) && path[4..] == ".md"
  }

  function Paths(rows: seq<FileRow>): seq<string> {
    seq(|rows|, i requires 0 <= i < |rows| => rows[i].path)
  }

  /** What the database may answer to the listing query: the matching rows, once each, ordered by path. */
  ghost predicate Answers(files: map<RowKey, string>, project: string, rows: seq<FileRow>) {
    && Ascending(Paths(rows))
    && (forall row :: row in rows <==>
          && IsIssuePath(row.path)
          && RowKey(project, row.path) in files
          && files[RowKey(project, row.path)] == row.etag)
  }

  lemma {:induction false} IssuePathsInOrder(files: map<RowKey, string>, project: string) returns (paths: seq<string>)
    ensures Ascending(paths)
    ensures forall path :: path in paths <==> IsIssuePath(path) && RowKey(project, path) in files
  {
    var wanted := set k | k in files && k.project == project && IsIssuePath(k.path) :: k.path;
    var listed := Listed(wanted);
    SortSpec(listed);
    paths := Sort(listed);
    forall path
      ensures path in paths <==> IsIssuePath(path) && RowKey(project, path) in files
    {
      assert path in paths <==> path in multiset(paths);
      assert path in listed <==> path in multiset(listed);
      assert path in wanted <==> RowKey(project, path) in files && IsIssuePath(path);
    }
  }

  /** Every table has an answer: the query's selection and order are always possible. */
  lemma {:induction false} AnswerExists(files: map<RowKey, string>, project: string) returns (rows: seq<FileRow>)
    ensures Answers(files, project, rows)
  {
    var paths := IssuePathsInOrder(files, project);
    assert forall i :: 0 <= i < |paths| ==> paths[i] in paths;
    rows := seq(|paths|, i requires 0 <= i < |paths| => FileRow(paths[i], files[RowKey(project, paths[i])]));
    assert Paths(rows) == paths;
    forall row: FileRow
      ensures row in rows <==> row.path in paths && files[RowKey(project, row.path)] == row.etag
    {
      if row.path in paths && files[RowKey(project, row.path)] == row.etag {
        var i :| 0 <= i < |paths| && paths[i] == row.path;
        assert rows[i] == row;
      }
    }
  }

  /** A path matches the listing pattern exactly when it is the path of an issue, never of anything else. */
  lemma {:induction false} IssuePathsAreIssues(r: Resource)
    requires r.Valid()
    ensures IsIssuePath(Path(r)) <==> r.Issue?
    ensures r.Issue? ==> Path(r)[..4] == r.id
  {
    var p := Path(r);
    match r
    case Issue(_, id) =>
      assert p[..4] == id && p[4..] == ".md";
    case Attachment(_, id, name) =>
      assert p[4] == '/' && p[4..][0] == '/';
    case ProjectJson(_) =>
  }

  /** Whatever the table holds, a resource is selected exactly when it is an issue with a live row. */
  lemma {:induction false} SelectedIff(files: map<RowKey, string>, project: string, rows: seq<FileRow>, r: Resource)
    requires Answers(files, project, rows) && r.Valid() && r.project == project
    ensures (exists row :: row in rows && row.path == Path(r)) <==> r.Issue? && Row(r) in files
  {
    IssuePathsAreIssues(r);
    if r.Issue? && Row(r) in files {
      assert FileRow(Path(r), files[Row(r)]) in rows;
    }
  }

  /** strings.TrimSuffix(path, ".md") */
  function TrimMd(path: string): string {
    if |path| >= 3 && path[|path| - 3..] == ".md" then path[..|path| - 3] else path
  }

  /** Turns the query's rows into the listing, one row at a time. */
  method IssuesForProject(ghost files: map<RowKey, string>, ghost project: string, rows: seq<FileRow>)
    returns (results: seq<IssueMetadata>)
    requires Answers(files, project, rows)
    ensures forall i, j :: 0 <= i < j < |results| ==> Less(results[i].id, results[j].id)
    ensures forall id, etag :: IssueMetadata(id, etag) in results <==>
              IsIssueId(id) && Get(files, RowKey(project, id + ".md")) == Some(etag)
  {
    results := [];
    for k := 0 to |rows|
      invariant |results| == k
      invariant forall i :: 0 <= i < k ==> results[i] == IssueMetadata(rows[i].path[..4], rows[i].etag)
    {
      assert rows[k] in rows;
      assert rows[k].path[|rows[k].path| - 3..] == ".md";
      var id := TrimMd(rows[k].path);
      results := results + [IssueMetadata(id, rows[k].etag)];
    }
    ListingIsOrdered(rows, results);
    forall id, etag
      ensures IssueMetadata(id, etag) in results <==> IsIssueId(id) && Get(files, RowKey(project, id + ".md")) == Some(etag)
    {
      if IsIssueId(id) {
        ListingHas(files, project, rows, results, id, etag);
      }
    }
  }

  lemma {:induction false} ListingHas(files: map<RowKey, string>, project: string, rows: seq<FileRow>,
                                      results: seq<IssueMetadata>, id: string, etag: string)
    requires IsIssueId(id) && Answers(files, project, rows) && |results| == |rows|
    requires forall i :: 0 <= i < |rows| ==> IsIssuePath(rows[i].path) && results[i] == IssueMetadata(rows[i].path[..4], rows[i].etag)
    ensures IssueMetadata(id, etag) in results <==> Get(files, Row(Issue(project, id))) == Some(etag)
  {
    var row := FileRow(id + ".md", etag);
    assert row.path[..4] == id && row.path[4..] == ".md";
    if IssueMetadata(id, etag) in results {
      var i :| 0 <= i < |results| && results[i] == IssueMetadata(id, etag);
      assert rows[i].path == rows[i].path[..4] + rows[i].path[4..];
      assert rows[i] == row && rows[i] in rows;
    }
    if row in rows {
      var i :| 0 <= i < |rows| && rows[i] == row;
      assert results[i] == IssueMetadata(id, etag);
    }
  }

  lemma {:induction false} ListingIsOrdered(rows: seq<FileRow>, results: seq<IssueMetadata>)
    requires Ascending(Paths(rows)) && |results| == |rows|
    requires forall i :: 0 <= i < |rows| ==> IsIssuePath(rows[i].path) && results[i].id == rows[i].path[..4]
    ensures forall i, j :: 0 <= i < j < |results| ==> Less(results[i].id, results[j].id)
  {
    forall i, j | 0 <= i < j < |results|
      ensures Less(results[i].id, results[j].id)
    {
      assert Less(Paths(rows)[i], Paths(rows)[j]);
      LessPrefix(rows[i].path, rows[j].path, 4);
    }
  }
}
