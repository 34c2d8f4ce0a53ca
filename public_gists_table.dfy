/** The public gists table: the row projection of a gist, the optimistic
    star and fork counters with their roll-back, the set of in-flight
    action keys, the skeleton rows shown while loading, and the row-click
    guard. The star and fork requests themselves are external; their
    outcomes are parameters. */
module PublicGistsTable {
  import opened Wrappers
  import opened JsString
  import opened GistModel

  datatype Row = Row(
    key: string,
    name: string,
    gistName: string,
    description: string,
    updated: string,
    avatarUrl: string,
    language: string,
    gistUrl: string,
    starCount: int,
    forkCount: int)

  datatype Action = Star | Fork

  const SkeletonPrefix := "skeleton-"
  const SkeletonCount := 5

  /** The row of one gist: the first file gives the name and language. */
  function ProjectRow(g: Gist): (r: Row)
    ensures r.key == g.id && r.name == g.owner.login && r.gistUrl == g.htmlUrl && r.updated == g.updatedAt
    ensures r.gistName == if g.files == [] then "untitled" else g.files[0].filename
    ensures r.description == g.description.GetOr("No description")
    ensures r.language == if g.files == [] || g.files[0].language.None? then "Text" else g.files[0].language.value
    ensures r.starCount == (if g.stargazersCount.Some? then g.stargazersCount.value else 0)
    ensures r.forkCount == (if g.forks.Some? then g.forks.value else 0)
  {
    Row(
      g.id,
      g.owner.login,
      if g.files == [] then "untitled" else g.files[0].filename,
      g.description.GetOr("No description"),
      g.updatedAt,
      g.owner.avatarUrl,
      if g.files == [] then "Text" else g.files[0].language.GetOr("Text"),
      g.htmlUrl,
      g.stargazersCount.GetOr(0),
      g.forks.GetOr(0))
  }

  function Rows(gists: seq<Gist>): (rows: seq<Row>)
    ensures |rows| == |gists| && forall i :: 0 <= i < |gists| ==> rows[i] == ProjectRow(gists[i])
  {
    seq(|gists|, i requires 0 <= i < |gists| => ProjectRow(gists[i]))
  }

  function Count(r: Row, a: Action): int {
    match a
    case Star => r.starCount
    case Fork => r.forkCount
  }

  function WithCount(r: Row, a: Action, c: int): (r': Row)
    ensures Count(r', a) == c
    ensures r'.key == r.key
  {
    match a
    case Star => r.(starCount := c)
    case Fork => r.(forkCount := c)
  }

  /** Rows with key `id` have the `a` counter raised by one; nothing else changes. */
  function Bump(rows: seq<Row>, id: string, a: Action): (r: seq<Row>)
    ensures |r| == |rows|
    ensures forall i :: 0 <= i < |rows| ==> r[i] == if rows[i].key == id then WithCount(rows[i], a, Count(rows[i], a) + 1) else rows[i]
  {
    seq(|rows|, i requires 0 <= i < |rows| => if rows[i].key == id then WithCount(rows[i], a, Count(rows[i], a) + 1) else rows[i])
  }

  /** Rows with key `id` have the `a` counter lowered by one, clamped at zero. */
  function Revert(rows: seq<Row>, id: string, a: Action): (r: seq<Row>)
    ensures |r| == |rows|
    ensures forall i :: 0 <= i < |rows| ==> r[i] == if rows[i].key == id then WithCount(rows[i], a, Max0(Count(rows[i], a) - 1)) else rows[i]
  {
    seq(|rows|, i requires 0 <= i < |rows| => if rows[i].key == id then WithCount(rows[i], a, Max0(Count(rows[i], a) - 1)) else rows[i])
  }

  function Max0(n: int): nat {
    if n < 0 then 0 else n
  }

  lemma WithCountSame(r: Row, a: Action)
    ensures WithCount(r, a, Count(r, a)) == r
  {
  }

  lemma WithCountTwice(r: Row, a: Action, c: int, d: int)
    ensures WithCount(WithCount(r, a, c), a, d) == WithCount(r, a, d)
  {
  }

  /** Begin-then-fail restores every row whose counter was not negative. */
  lemma RevertAfterBump(rows: seq<Row>, id: string, a: Action)
    requires forall i :: 0 <= i < |rows| && rows[i].key == id ==> Count(rows[i], a) >= 0
    ensures Revert(Bump(rows, id, a), id, a) == rows
  {
    var b := Bump(rows, id, a);
    var r := Revert(b, id, a);
    forall i | 0 <= i < |rows| ensures r[i] == rows[i] {
      if rows[i].key == id {
        WithCountTwice(rows[i], a, Count(rows[i], a) + 1, Count(rows[i], a));
        WithCountSame(rows[i], a);
      }
    }
  }

  /** A failed action never leaves a counter below zero. */
  lemma RevertNonNegative(rows: seq<Row>, id: string, a: Action, i: nat)
    requires i < |rows| && rows[i].key == id
    ensures Count(Revert(rows, id, a)[i], a) >= 0
  {
  }

  /** Optimistic increments on different rows or counters do not interfere. */
  lemma BumpsCommute(rows: seq<Row>, x: string, a: Action, y: string, b: Action)
    ensures Bump(Bump(rows, x, a), y, b) == Bump(Bump(rows, y, b), x, a)
  {
    var l := Bump(Bump(rows, x, a), y, b);
    var r := Bump(Bump(rows, y, b), x, a);
    forall i | 0 <= i < |rows| ensures l[i] == r[i] {
      var row := rows[i];
      if row.key == x && row.key == y && a != b {
        match a
        case Star => assert l[i] == row.(starCount := row.starCount + 1).(forkCount := row.forkCount + 1);
        case Fork => assert l[i] == row.(forkCount := row.forkCount + 1).(starCount := row.starCount + 1);
      }
    }
  }

  /** `star-<id>` or `fork-<id>`. */
  function LoadingKey(a: Action, id: string): string {
    match a
    case Star => "star-" + id
    case Fork => "fork-" + id
  }

  /** Distinct actions or ids never share a loading key. */
  lemma LoadingKeysDistinct(a: Action, x: string, b: Action, y: string)
    requires a != b || x != y
    ensures LoadingKey(a, x) != LoadingKey(b, y)
  {
    if a == b {
      assert LoadingKey(a, x)[5..] == x;
      assert LoadingKey(b, y)[5..] == y;
    } else {
      assert LoadingKey(a, x)[0] != LoadingKey(b, y)[0];
    }
  }

  /** The placeholder rows `skeleton-0` … `skeleton-<count-1>`. */
  function SkeletonRows(count: int): (rows: seq<Row>)
    ensures |rows| == if count < 0 then 0 else count
    ensures forall i :: 0 <= i < |rows| ==>
      rows[i].key == SkeletonPrefix + IntToString(i) && rows[i].starCount == 0 && rows[i].forkCount == 0
  {
    var n := if count < 0 then 0 else count;
    seq(n, i requires 0 <= i < n => Row(SkeletonPrefix + IntToString(i), "", "", "", "", "", "", "", 0, 0))
  }

  /** `handleRowClick`: where a click on the row leads. */
  function RowClick(row: Row, loading: bool): (path: Option<string>)
    ensures path.Some? <==> !loading && row.key != "" && !StartsWith(row.key, SkeletonPrefix)
    ensures path.Some? ==> path.value == "/gist/" + row.key
  {
    if !loading && row.key != "" && !StartsWith(row.key, SkeletonPrefix) then Some("/gist/" + row.key) else None
  }

  /** A skeleton row never navigates. */
  lemma SkeletonRowsInert(count: int, loading: bool)
    ensures forall r :: r in SkeletonRows(count) ==> RowClick(r, loading).None?
  {
    forall r | r in SkeletonRows(count) ensures RowClick(r, loading).None? {
      var i :| 0 <= i < |SkeletonRows(count)| && SkeletonRows(count)[i] == r;
      assert r.key[..|SkeletonPrefix|] == SkeletonPrefix;
    }
  }

  /** The table's `dataSource`: skeletons while loading, else the rows. */
  function DataSource(loading: bool, gistCount: nat, rowData: seq<Row>): (rows: seq<Row>)
    ensures rows == if loading then SkeletonRows(SkeletonCount) else rowData
  {
    var rowsShown := if loading then SkeletonRows(SkeletonCount) else rowData;
    if loading && gistCount == 0 then SkeletonRows(SkeletonCount) else rowsShown
  }

  datatype Notice = Success(text: string) | Failure(text: string)

  function SuccessText(a: Action): string {
    match a
    case Star => "Gist starred successfully!"
    case Fork => "Gist forked successfully!"
  }

  function FailureText(a: Action): string {
    match a
    case Star => "Failed to star gist. Please try again."
    case Fork => "Failed to fork gist. Please try again."
  }

  class GistsTable {
    var rowData: seq<Row>
    var starredGists: set<string>
    var loadingActions: set<string>

    constructor ()
      ensures rowData == [] && starredGists == {} && loadingActions == {}
    {
      rowData := [];
      starredGists := {};
      loadingActions := {};
    }

    /** The effect that rebuilds the rows when the gists change. */
    method SyncRows(gists: seq<Gist>)
      modifies this
      ensures rowData == Rows(gists)
      ensures starredGists == old(starredGists) && loadingActions == old(loadingActions)
    {
      var rows: seq<Row> := [];
      for i := 0 to |gists|
        invariant rows == Rows(gists[..i])
      {
        rows := rows + [ProjectRow(gists[i])];
      }
      assert gists[..|gists|] == gists;
      rowData := rows;
    }

    /** The synchronous start of `handleStarGist`/`handleForkGist`: mark the
        action in flight and raise the counter. */
    method Begin(a: Action, gistId: string)
      modifies this
      ensures loadingActions == old(loadingActions) + {LoadingKey(a, gistId)}
      ensures rowData == Bump(old(rowData), gistId, a)
      ensures starredGists == old(starredGists)
    {
      loadingActions := loadingActions + {LoadingKey(a, gistId)};
      rowData := Bump(rowData, gistId, a);
    }

    /** The end of the action once the request settled: `outcome` is the
        forked gist's id (or nothing, for a star) on success. On success a
        star is remembered and a fork opens its copy; on failure the
        counter is rolled back. The loading key goes either way. */
    method Settle(a: Action, gistId: string, outcome: Result<string>) returns (notice: Notice, navigateTo: Option<string>)
      modifies this
      ensures loadingActions == old(loadingActions) - {LoadingKey(a, gistId)}
      ensures outcome.Ok? ==> rowData == old(rowData) && notice == Success(SuccessText(a))
      ensures outcome.Err? ==> rowData == Revert(old(rowData), gistId, a) && notice == Failure(FailureText(a))
      ensures starredGists == if outcome.Ok? && a == Star then old(starredGists) + {gistId} else old(starredGists)
      ensures navigateTo == if outcome.Ok? && a == Fork then Some("/gist/" + outcome.value) else None
    {
      navigateTo := None;
      if outcome.Ok? {
        if a == Star {
          starredGists := starredGists + {gistId};
        } else {
          navigateTo := Some("/gist/" + outcome.value);
        }
        notice := Success(SuccessText(a));
      } else {
        rowData := Revert(rowData, gistId, a);
        notice := Failure(FailureText(a));
      }
      loadingActions := loadingActions - {LoadingKey(a, gistId)};
    }
  }
}
