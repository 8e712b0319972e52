/** The list handlers and offset pagination: what one page is, and what reading page after page while
    others write still guarantees. */
module Paging {
  import opened Wrappers
  import opened Tables
  import opened Service

  // ---------- One page ----------

  predicate NewestFirst(s: seq<Row>) { forall i, k :: 0 <= i < k < |s| ==> s[i].createdAt >= s[k].createdAt }

  /** An order the database may return the rows in: rows created at the same time in any order. */
  predicate IsListing(rows: seq<Row>, s: seq<Row>) { multiset(s) == multiset(rows) && NewestFirst(s) }

  /** LIMIT and OFFSET. */
  function Page(s: seq<Row>, limit: nat, offset: nat): seq<Row> {
    if offset >= |s| then [] else if offset + limit >= |s| then s[offset..] else s[offset..offset + limit]
  }

  /** The rows behind the first `offset` of them, and no more than `limit`. */
  lemma PageExact(front: seq<Row>, rows: seq<Row>, limit: nat)
    ensures Page(front + rows, limit, |front|) == if limit < |rows| then rows[..limit] else rows
  {
    var s := front + rows;
    assert s[|front|..] == rows;
    if limit < |rows| { assert s[|front|..|front| + limit] == rows[..limit]; }
  }

  ghost predicate PageOf(rows: seq<Row>, limit: nat, offset: nat, page: seq<Row>) {
    exists s :: IsListing(rows, s) && page == Page(s, limit, offset)
  }

  function Place(r: Row, s: seq<Row>): seq<Row> {
    if s == [] || r.createdAt >= s[0].createdAt then [r] + s else [s[0]] + Place(r, s[1..])
  }

  function Newest(rows: seq<Row>): seq<Row> {
    if rows == [] then [] else Place(rows[|rows| - 1], Newest(rows[..|rows| - 1]))
  }

  lemma {:induction false} PlaceRows(r: Row, s: seq<Row>)
    ensures multiset(Place(r, s)) == multiset{r} + multiset(s)
    decreases |s|
  {
    if s != [] && r.createdAt < s[0].createdAt {
      PlaceRows(r, s[1..]);
      FrontRow(s);
    }
  }

  lemma FrontRow(s: seq<Row>)
    requires s != []
    ensures multiset(s) == multiset{s[0]} + multiset(s[1..])
  {
    assert s == [s[0]] + s[1..];
  }

  lemma {:induction false} PlaceSorted(r: Row, s: seq<Row>)
    requires NewestFirst(s)
    ensures NewestFirst(Place(r, s))
    decreases |s|
  {
    if s != [] && r.createdAt < s[0].createdAt {
      PlaceSorted(r, s[1..]);
      var p := Place(r, s[1..]);
      forall k | 0 <= k < |p| ensures s[0].createdAt >= p[k].createdAt { PlacedFrom(r, s[1..], k); }
    }
  }

  lemma PlacedFrom(r: Row, s: seq<Row>, k: nat)
    requires k < |Place(r, s)|
    ensures Place(r, s)[k] == r || Place(r, s)[k] in s
  {
    PlaceRows(r, s);
    assert Place(r, s)[k] in multiset(Place(r, s));
  }

  lemma {:induction false} NewestIsListing(rows: seq<Row>)
    ensures IsListing(rows, Newest(rows))
    decreases |rows|
  {
    if rows != [] {
      var front := rows[..|rows| - 1];
      NewestIsListing(front);
      PlaceSorted(rows[|rows| - 1], Newest(front));
      PlaceRows(rows[|rows| - 1], Newest(front));
      assert rows == front + [rows[|rows| - 1]];
    }
  }

  /** Go's conversion of an int to int32: the value of its range that differs by a multiple of 2^32. */
  function Int32(x: int): (y: int)
    ensures -0x8000_0000 <= y < 0x8000_0000 && (x - y) % 0x1_0000_0000 == 0
    ensures -0x8000_0000 <= x < 0x8000_0000 <==> y == x
  {
    var m := x % 0x1_0000_0000;
    if m >= 0x8000_0000 then m - 0x1_0000_0000 else m
  }

  /** The statement: a negative limit or offset is an error. */
  method SelectPage(rows: seq<Row>, limit: int, offset: int) returns (r: Result<seq<Row>, StoreError>)
    ensures limit < 0 || offset < 0 ==> r == Err(NegativeOffset)
    ensures limit >= 0 && offset >= 0 ==> r.Ok? && PageOf(rows, limit, offset, r.value)
  {
    if limit < 0 || offset < 0 {
      return Err(NegativeOffset);
    }
    NewestIsListing(rows);
    r := Ok(Page(Newest(rows), limit, offset));
  }

  /** Which rows fail to scan, and, at the index after the last, whether the result set ends in an
      error. */
  type ScanFaults = nat -> bool

  predicate Faulty(fails: ScanFaults, n: nat) { exists i: nat :: i <= n && fails(i) }

  /** The loop over the result set. */
  method Collect(rows: seq<Row>, fails: ScanFaults) returns (items: Result<seq<Row>, StoreError>)
    ensures items == if Faulty(fails, |rows|) then Err(Fault) else Ok(rows)
  {
    var list: seq<Row> := [];
    for i := 0 to |rows|
      invariant list == rows[..i] && forall k: nat :: k < i ==> !fails(k)
    {
      if fails(i) {
        return Err(Fault);
      }
      list := list + [rows[i]];
    }
    if fails(|rows|) {
      return Err(Fault);
    }
    assert rows[..|rows|] == rows;
    items := Ok(list);
  }

  function Views<V>(rows: seq<Row>, view: Row -> V): (vs: seq<V>)
    ensures |vs| == |rows| && forall i :: 0 <= i < |rows| ==> vs[i] == view(rows[i])
  {
    seq(|rows|, i requires 0 <= i < |rows| => view(rows[i]))
  }

  /** What ListProjects and ListUsers share: the 64-bit limit and offset are cut to 32 bits on the way. */
  method List<V>(db: Database, w: Which, view: Row -> V, limit: int, offset: int, fails: ScanFaults)
    returns (r: Result<seq<V>, StoreError>)
    requires w.Projects? || w.Users?
    ensures Int32(limit) < 0 || Int32(offset) < 0 ==> r == Err(NegativeOffset)
    ensures Int32(limit) >= 0 && Int32(offset) >= 0 ==>
      exists page :: PageOf(TableOf(db.s, w).rows, Int32(limit), Int32(offset), page)
                     && r == if Faulty(fails, |page|) then Err(Fault) else Ok(Views(page, view))
  {
    var page := SelectPage(TableOf(db.s, w).rows, Int32(limit), Int32(offset));
    if page.Err? {
      return Err(page.error);
    }
    var items := Collect(page.value, fails);
    r := if items.Err? then Err(items.error) else Ok(Views(items.value, view));
  }

  method ListProjects(db: Database, limit: int, offset: int, fails: ScanFaults)
    returns (r: Result<seq<ProjectView>, StoreError>)
    ensures Int32(limit) < 0 || Int32(offset) < 0 ==> r == Err(NegativeOffset)
    ensures Int32(limit) >= 0 && Int32(offset) >= 0 ==>
      exists page :: PageOf(db.s.projects.rows, Int32(limit), Int32(offset), page) && ListsProjects(page, fails, r)
  {
    r := List(db, Projects, ViewProject, limit, offset, fails);
  }

  method ListUsers(db: Database, limit: int, offset: int, fails: ScanFaults)
    returns (r: Result<seq<UserView>, StoreError>)
    ensures Int32(limit) < 0 || Int32(offset) < 0 ==> r == Err(NegativeOffset)
    ensures Int32(limit) >= 0 && Int32(offset) >= 0 ==>
      exists page :: PageOf(db.s.users.rows, Int32(limit), Int32(offset), page) && ListsUsers(page, fails, r)
  {
    r := List(db, Users, ViewUser, limit, offset, fails);
  }

  /** The answer shows the rows of the page one by one, unless one of them fails to scan. */
  predicate ListsProjects(page: seq<Row>, fails: ScanFaults, r: Result<seq<ProjectView>, StoreError>) {
    if exists i: nat :: i <= |page| && fails(i) then r == Err(Fault)
    else r.Ok? && |r.value| == |page| && forall i :: 0 <= i < |page| ==> ShowsProject(r.value[i], page[i])
  }

  predicate ListsUsers(page: seq<Row>, fails: ScanFaults, r: Result<seq<UserView>, StoreError>) {
    if exists i: nat :: i <= |page| && fails(i) then r == Err(Fault)
    else r.Ok? && |r.value| == |page| && forall i :: 0 <= i < |page| ==> ShowsUser(r.value[i], page[i])
  }

  /** ListRoles and ListUserGroups leave the project id of the query at zero. No project has that id,
      so the answer holds no row, whatever the project in the path and whatever the tables hold. */
  method ListOwned(db: Database, w: Which, limit: int, offset: int, fails: ScanFaults)
    returns (r: Result<seq<Row>, StoreError>)
    requires db.Valid() && (w.Roles? || w.Groups?)
    ensures r ==
      if Int32(limit) < 0 || Int32(offset) < 0 then Err(NegativeOffset) else if fails(0) then Err(Fault) else Ok([])
  {
    var projectID := 0;
    var matching := Owned(TableOf(db.s, w).rows, projectID);
    OwnerZeroEmpty(db.s, w);
    var page := SelectPage(matching, Int32(limit), Int32(offset));
    if page.Err? {
      return Err(page.error);
    }
    NothingListed(Int32(limit), Int32(offset), page.value);
    r := Collect(page.value, fails);
  }

  lemma NothingListed(limit: nat, offset: nat, page: seq<Row>)
    requires PageOf([], limit, offset, page)
    ensures page == []
  {
    var s :| IsListing([], s) && page == Page(s, limit, offset);
    SameLength([], s);
  }

  /** WHERE project_id = ... */
  function Owned(rows: seq<Row>, owner: int): (own: seq<Row>)
    ensures forall r :: r in own <==> r in rows && r.owner == owner
  {
    if rows == [] then [] else (if rows[0].owner == owner then [rows[0]] else []) + Owned(rows[1..], owner)
  }

  lemma {:induction false} OwnedNone(rows: seq<Row>, owner: int)
    requires forall i :: 0 <= i < |rows| ==> rows[i].owner != owner
    ensures Owned(rows, owner) == []
  {
    if rows != [] { OwnedNone(rows[1..], owner); }
  }

  lemma OwnerZeroEmpty(s: Tables, w: Which)
    requires TablesOk(s) && (w.Roles? || w.Groups?)
    ensures Owned(TableOf(s, w).rows, 0) == []
  {
    var rows := TableOf(s, w).rows;
    assert OwnersExist(s, w) && TableOk(LimitsOf(Projects), TableOf(s, Projects));
    forall i | 0 <= i < |rows| ensures rows[i].owner != 0 {
      assert OwnerOk(s, w, rows[i].owner);
      var k :| 0 <= k < |s.projects.rows| && s.projects.rows[k].id == rows[i].owner;
      assert s.projects.rows[k].id >= 1;
    }
    OwnedNone(rows, 0);
  }

  // ---------- The members of a user group ----------

  datatype GroupView = GroupView(group: OwnedView, members: seq<UserView>)

  /** The pairs of user and user group in the relation between them. */
  type Memberships = set<(int, int)>

  /** The join of the users with the relation: the users that are in the group, in table order. */
  function Members(users: seq<Row>, relation: Memberships, group: int): (ms: seq<Row>)
    ensures forall r :: r in ms <==> r in users && (r.id, group) in relation
    ensures |ms| <= |users|
  {
    if users == [] then []
    else (if (users[0].id, group) in relation then [users[0]] else []) + Members(users[1..], relation, group)
  }

  predicate IdsGrow(rows: seq<Row>) { forall i, k :: 0 <= i < k < |rows| ==> rows[i].id < rows[k].id }

  lemma FrontGrows(r: Row, rows: seq<Row>)
    requires IdsGrow(rows) && forall x :: x in rows ==> r.id < x.id
    ensures IdsGrow([r] + rows)
  {
    forall k | 0 <= k < |rows| ensures r.id < rows[k].id { assert rows[k] in rows; }
  }

  /** No member is listed twice. */
  lemma {:induction false} MembersOnce(users: seq<Row>, relation: Memberships, group: int)
    requires IdsGrow(users)
    ensures IdsGrow(Members(users, relation, group))
  {
    if users != [] {
      MembersOnce(users[1..], relation, group);
      if (users[0].id, group) in relation { FrontGrows(users[0], Members(users[1..], relation, group)); }
    }
  }

  /** GetUserGroup: the group within its project, and its members, newest first. */
  method GetUserGroup(h: Handlers, relation: Memberships, projectId: string, id: string, fails: ScanFaults)
    returns (r: Result<GroupView, StoreError>)
    modifies h.db`faults
    ensures h.db.faults != old(h.db.faults) ==> r.Err?
    ensures h.db.faults == old(h.db.faults) ==>
      match h.Named(h.db.s.projects.rows, 0, projectId)
      case None => r.Err?
      case Some(proj) =>
        match h.Named(h.db.s.groups.rows, proj.id, id)
        case None => r.Err?
        case Some(row) => AnswersGroup(h.db.s.users.rows, relation, row, proj, fails, r)
  {
    var found := h.FindOwned(Groups, projectId, id);
    if found.Err? {
      return Err(found.error);
    }
    var row, proj := found.value.0, found.value.1;
    var members := ListMembers(h.db.s.users.rows, relation, row.id, fails);
    r := if members.Err? then Err(members.error) else Ok(GroupView(ViewOwned(row, proj), members.value));
  }

  /** The members of a group, newest first, as users. */
  method ListMembers(users: seq<Row>, relation: Memberships, group: int, fails: ScanFaults)
    returns (r: Result<seq<UserView>, StoreError>)
    ensures exists s :: IsListing(Members(users, relation, group), s) && ListsUsers(s, fails, r)
  {
    var s := Newest(Members(users, relation, group));
    NewestIsListing(Members(users, relation, group));
    var items := Collect(s, fails);
    r := if items.Err? then Err(items.error) else Ok(Views(items.value, ViewUser));
    assert ListsUsers(s, fails, r);
  }

  /** The answer lists the group's members in an order the database may return them in. */
  ghost predicate AnswersGroup(users: seq<Row>, relation: Memberships, row: Row, proj: Row, fails: ScanFaults,
      r: Result<GroupView, StoreError>) {
    exists s :: IsListing(Members(users, relation, row.id), s) && ShowsGroup(row, proj, s, fails, r)
  }

  predicate ShowsGroup(row: Row, proj: Row, users: seq<Row>, fails: ScanFaults, r: Result<GroupView, StoreError>) {
    if r.Err? then ListsUsers(users, fails, Err(r.error))
    else ShowsOwned(r.value.group, row, proj) && ListsUsers(users, fails, Ok(r.value.members))
  }

  // ---------- Query parameters ----------

  const DEFAULT_LIMIT := 10

  /** The decoder of the list parameters. Both parameters must be there: the defaults are set first
      and always overwritten. The failure names the parameter. */
  method DecodeListParams(limit: Option<string>, offset: Option<string>, toInt: string -> Option<int>)
    returns (r: Result<(int, int), string>)
    ensures r.Ok? <==> ParamIn(limit, toInt, 1, Some(100)) && ParamIn(offset, toInt, 0, None)
    ensures r.Ok? ==> r.value == (toInt(limit.value).value, toInt(offset.value).value)
    ensures r.Err? ==> r.error == if ParamIn(limit, toInt, 1, Some(100)) then "offset" else "limit"
  {
    var lim, off := DEFAULT_LIMIT, 0;
    if limit.None? {
      return Err("limit");
    }
    var c := toInt(limit.value);
    if c.None? {
      return Err("limit");
    }
    lim := c.value;
    if lim < 1 || lim > 100 {
      return Err("limit");
    }
    if offset.None? {
      return Err("offset");
    }
    c := toInt(offset.value);
    if c.None? {
      return Err("offset");
    }
    off := c.value;
    if off < 0 {
      return Err("offset");
    }
    r := Ok((lim, off));
  }

  predicate ParamIn(raw: Option<string>, toInt: string -> Option<int>, min: int, max: Option<int>) {
    raw.Some? && toInt(raw.value).Some? && min <= toInt(raw.value).value
    && (max.Some? ==> toInt(raw.value).value <= max.value)
  }

  // ---------- Page after page ----------

  /** Every row was created strictly after the ones before it. */
  predicate Growing(rows: seq<Row>) { forall i, k :: 0 <= i < k < |rows| ==> rows[i].createdAt < rows[k].createdAt }

  function Reversed(rows: seq<Row>): (s: seq<Row>)
    ensures |s| == |rows| && forall i :: 0 <= i < |rows| ==> s[i] == rows[|rows| - 1 - i]
  {
    seq(|rows|, i requires 0 <= i < |rows| => rows[|rows| - 1 - i])
  }

  /** Then there is only one order to list them in. */
  lemma {:induction false} OneListing(rows: seq<Row>, s: seq<Row>)
    requires Growing(rows) && IsListing(rows, s)
    ensures s == Reversed(rows)
    decreases |rows|
  {
    SameLength(rows, s);
    if rows != [] {
      var n := |rows| - 1;
      var front := rows[..n];
      NewestIsFirst(rows, s);
      assert rows == front + [s[0]] && s == [s[0]] + s[1..];
      Rest(s[0], s[1..], front);
      OneListing(front, s[1..]);
    }
  }

  lemma SameLength(a: seq<Row>, b: seq<Row>)
    requires multiset(a) == multiset(b)
    ensures |a| == |b|
  {
    assert |a| == |multiset(a)| && |b| == |multiset(b)|;
  }

  /** Taking one row away on both sides. */
  lemma Rest(x: Row, a: seq<Row>, b: seq<Row>)
    requires multiset([x] + a) == multiset(b + [x])
    ensures multiset(a) == multiset(b)
  {
    assert multiset([x] + a) == multiset{x} + multiset(a);
    assert multiset(b + [x]) == multiset(b) + multiset{x};
    assert multiset(a) == (multiset{x} + multiset(a)) - multiset{x};
    assert multiset(b) == (multiset{x} + multiset(b)) - multiset{x};
  }

  lemma NewestIsFirst(rows: seq<Row>, s: seq<Row>)
    requires Growing(rows) && IsListing(rows, s) && rows != [] && s != []
    ensures s[0] == rows[|rows| - 1]
  {
    var last := rows[|rows| - 1];
    assert last in multiset(rows);
    assert last in s;
    var j :| 0 <= j < |s| && s[j] == last;
    assert s[0] in multiset(s);
    assert s[0] in rows;
    var k :| 0 <= k < |rows| && rows[k] == s[0];
    assert s[0].createdAt >= last.createdAt;
  }

  /** Offsets 0, L, 2L and so on. */
  predicate Stepped(limit: nat, offsets: seq<nat>) {
    |offsets| > 0 && offsets[0] == 0 && forall k :: 0 < k < |offsets| ==> offsets[k] == offsets[k - 1] + limit
  }

  /** Pages read one after another: page `k` was read at offset `k`, as the handler computed it, when
      the table held `history[k]`; in between, anything was written. */
  ghost predicate Reading(limit: nat, offsets: seq<nat>, history: seq<seq<Row>>, pages: seq<seq<Row>>) {
    && Stepped(limit, offsets) && |offsets| == |history| == |pages|
    && Chain(history)
    && (forall k :: 0 <= k < |pages| ==> ReadAt(limit, history[k], offsets[k], pages[k]))
  }

  /** Each table extends the one before it. */
  predicate Chain(history: seq<seq<Row>>) { forall k :: 0 <= k < |history| - 1 ==> Extends(history[k], history[k + 1]) }

  ghost predicate ReadAt(limit: nat, rows: seq<Row>, offset: nat, page: seq<Row>) {
    Int32(limit) >= 0 && Int32(offset) >= 0 && PageOf(rows, Int32(limit), Int32(offset), page)
  }

  /** The offsets the 32-bit cast leaves alone. */
  predicate Small(limit: nat, offsets: seq<nat>) {
    limit < 0x8000_0000 && forall k :: 0 <= k < |offsets| ==> offsets[k] < 0x8000_0000
  }

  ghost predicate Returned(row: Row, pages: seq<seq<Row>>) {
    exists k, j :: 0 <= k < |pages| && 0 <= j < |pages[k]| && SameIdentity(row, pages[k][j])
  }

  lemma {:induction false} ExtendsFrom(history: seq<seq<Row>>, i: nat, k: nat)
    requires i <= k < |history| && Chain(history)
    ensures Extends(history[i], history[k])
    decreases k - i
  {
    if i < k {
      ExtendsFrom(history, i, k - 1);
      ExtendsTrans(history[i], history[k - 1], history[k]);
    }
  }

  lemma GrowingBefore(a: seq<Row>, b: seq<Row>)
    requires Extends(a, b) && Growing(b)
    ensures Growing(a)
  {
    forall i, k | 0 <= i < k < |a| ensures a[i].createdAt < a[k].createdAt {
      assert SameIdentity(a[i], b[i]) && SameIdentity(a[k], b[k]);
    }
  }

  /** The insertion positions page `k` shows: `limit` of them, counted from the newest. */
  lemma PageShows(rows: seq<Row>, limit: nat, offset: nat, page: seq<Row>, i: nat)
    requires Growing(rows) && PageOf(rows, limit, offset, page)
    requires i < |rows| && |rows| - offset - limit <= i < |rows| - offset
    ensures |rows| - 1 - i - offset < |page| && page[|rows| - 1 - i - offset] == rows[i]
  {
    var s :| IsListing(rows, s) && page == Page(s, limit, offset);
    OneListing(rows, s);
  }

  lemma PageLength(rows: seq<Row>, limit: nat, offset: nat, page: seq<Row>)
    requires PageOf(rows, limit, offset, page) && |page| < limit
    ensures |rows| < offset + limit
  {
    var s :| IsListing(rows, s) && page == Page(s, limit, offset);
    assert |s| == |multiset(s)| == |multiset(rows)| == |rows|;
  }

  /** One page shows the rows at its place, as they were identified before. */
  lemma ShownAt(first: seq<Row>, rows: seq<Row>, limit: nat, offset: nat, page: seq<Row>, i: nat)
    requires Extends(first, rows) && Growing(rows) && PageOf(rows, limit, offset, page)
    requires i < |first| && |rows| - offset - limit <= i < |rows| - offset
    ensures exists j :: 0 <= j < |page| && SameIdentity(first[i], page[j])
  {
    PageShows(rows, limit, offset, page, i);
    assert SameIdentity(first[i], page[|rows| - 1 - i - offset]);
  }

  /** What the first pages up to `k` have shown of the rows that were there at the start. */
  lemma {:induction false} ShownSoFar(limit: nat, offsets: seq<nat>, history: seq<seq<Row>>, pages: seq<seq<Row>>,
      k: nat, i: nat)
    requires Reading(limit, offsets, history, pages) && Small(limit, offsets) && Growing(history[|history| - 1])
    requires k < |pages| && i < |history[0]| && i >= |history[k]| - offsets[k] - limit
    ensures Returned(history[0][i], pages)
    decreases k
  {
    if i < |history[k]| - offsets[k] {
      AtMoment(history, k);
      ShownOn(limit, offsets, history, pages, k, i);
    } else {
      EarlierPage(history, k, i, offsets[k]);
      ShownSoFar(limit, offsets, history, pages, k - 1, i);
    }
  }

  /** The table at one moment, against the first and the last. */
  lemma AtMoment(history: seq<seq<Row>>, k: nat)
    requires k < |history| && Chain(history) && Growing(history[|history| - 1])
    ensures Extends(history[0], history[k]) && Growing(history[k])
  {
    ExtendsFrom(history, 0, k);
    ExtendsFrom(history, k, |history| - 1);
    GrowingBefore(history[k], history[|history| - 1]);
  }

  /** A row within the place of page `k`. */
  lemma ShownOn(limit: nat, offsets: seq<nat>, history: seq<seq<Row>>, pages: seq<seq<Row>>, k: nat, i: nat)
    requires k < |history| == |pages| == |offsets| && limit < 0x8000_0000 && offsets[k] < 0x8000_0000
    requires ReadAt(limit, history[k], offsets[k], pages[k]) && Extends(history[0], history[k]) && Growing(history[k])
    requires i < |history[0]| && |history[k]| - offsets[k] - limit <= i < |history[k]| - offsets[k]
    ensures Returned(history[0][i], pages)
  {
    ShownAt(history[0], history[k], limit, offsets[k], pages[k], i);
  }

  /** A row beyond the place of page `k` was within the place of an earlier one. */
  lemma EarlierPage(history: seq<seq<Row>>, k: nat, i: nat, offset: nat)
    requires k < |history| && Chain(history)
    requires i < |history[0]| && i >= |history[k]| - offset && (k == 0 ==> offset == 0)
    ensures k > 0 && i >= |history[k - 1]| - offset
  {
    if k > 0 { ExtendsFrom(history, k - 1, k); }
  }

  /** Reading page after page, while others create and update, skips nothing: if rows get strictly
      growing creation times and offsets stay below 2^31, then once a page comes back short, every
      row that was there when the reading began has been returned. */
  lemma NothingSkipped(limit: nat, offsets: seq<nat>, history: seq<seq<Row>>, pages: seq<seq<Row>>)
    requires Reading(limit, offsets, history, pages) && Small(limit, offsets) && Growing(history[|history| - 1])
    requires |pages[|pages| - 1]| < limit
    ensures forall i :: 0 <= i < |history[0]| ==> Returned(history[0][i], pages)
  {
    var m := |pages| - 1;
    assert ReadAt(limit, history[m], offsets[m], pages[m]);
    PageLength(history[m], limit, offsets[m], pages[m]);
    forall i | 0 <= i < |history[0]| ensures Returned(history[0][i], pages) {
      ShownSoFar(limit, offsets, history, pages, m, i);
    }
  }

  // ---------- Reading while statements run ----------

  predicate ClocksGrow(stmts: seq<(Stmt, int)>) { forall i, k :: 0 <= i < k < |stmts| ==> stmts[i].1 < stmts[k].1 }

  predicate CreatedBefore(rows: seq<Row>, now: int) { forall i :: 0 <= i < |rows| ==> rows[i].createdAt < now }

  lemma GrowingInsert(t: Table, lim: Limits, owner: int, displayId: string, v: Texts, now: int)
    requires Growing(t.rows) && CreatedBefore(t.rows, now) && Insert(t, lim, owner, displayId, v, now).Ok?
    ensures var rows := Insert(t, lim, owner, displayId, v, now).value.rows;
      Growing(rows) && CreatedBefore(rows, now + 1)
  {
  }

  lemma GrowingUpdate(t: Table, lim: Limits, owner: int, displayId: string, name: string, description: string, now: int)
    requires Growing(t.rows) && CreatedBefore(t.rows, now)
    requires Update(t, lim, owner, displayId, name, description, now).Ok?
    ensures var rows := Update(t, lim, owner, displayId, name, description, now).value.rows;
      Growing(rows) && CreatedBefore(rows, now + 1)
  {
  }

  lemma GrowingStatement(s: Tables, st: Stmt, now: int, w: Which)
    requires Growing(TableOf(s, w).rows) && CreatedBefore(TableOf(s, w).rows, now)
    ensures var rows := TableOf(Execute(s, st, now).0, w).rows;
      Growing(rows) && CreatedBefore(rows, now + 1)
  {
    var t, lim := TableOf(s, w), LimitsOf(w);
    if st.which == w {
      match st
      case InsertInto(_, owner, displayId, v) =>
        if Insert(t, lim, owner, displayId, v, now).Ok? { GrowingInsert(t, lim, owner, displayId, v, now); }
      case UpdateOf(_, owner, displayId, name, description) =>
        if Update(t, lim, owner, displayId, name, description, now).Ok? {
          GrowingUpdate(t, lim, owner, displayId, name, description, now);
        }
    }
  }

  /** A run whose statements see strictly growing clocks gives rows strictly growing creation times. */
  lemma {:induction false} GrowingRun(stmts: seq<(Stmt, int)>, w: Which)
    requires ClocksGrow(stmts)
    ensures Growing(RowsAfter(stmts, w))
    ensures forall i :: 0 <= i < |RowsAfter(stmts, w)| ==>
      stmts != [] && RowsAfter(stmts, w)[i].createdAt < stmts[|stmts| - 1].1 + 1
    decreases |stmts|
  {
    if stmts != [] {
      var front, last := stmts[..|stmts| - 1], stmts[|stmts| - 1];
      GrowingRun(front, w);
      assert front != [] ==> front[|front| - 1].1 < last.1;
      GrowingStatement(Run(EMPTY_TABLES, front), last.0, last.1, w);
    }
  }

  /** The rows of a table after statements that ran from the start. */
  function RowsAfter(stmts: seq<(Stmt, int)>, w: Which): seq<Row> { TableOf(Run(EMPTY_TABLES, stmts), w).rows }

  lemma RowsExtend(stmts: seq<(Stmt, int)>, n: nat, m: nat, w: Which)
    requires n <= m <= |stmts|
    ensures Extends(RowsAfter(stmts[..n], w), RowsAfter(stmts[..m], w))
  {
    assert stmts[..m] == stmts[..n] + stmts[n..m];
    EveryRunOk(stmts[..n], stmts[n..m]);
  }

  /** Moments of a run, in order. */
  predicate CutsFit(cuts: seq<nat>, n: nat) {
    (forall k :: 0 <= k < |cuts| ==> cuts[k] <= n) && forall k :: 0 < k < |cuts| ==> cuts[k - 1] <= cuts[k]
  }

  /** The table at each of these moments. */
  function HistoryOf(w: Which, stmts: seq<(Stmt, int)>, cuts: seq<nat>): (history: seq<seq<Row>>)
    requires CutsFit(cuts, |stmts|)
    ensures |history| == |cuts| && forall k :: 0 <= k < |cuts| ==> history[k] == RowsAfter(stmts[..cuts[k]], w)
  {
    seq(|cuts|, k requires 0 <= k < |cuts| => RowsAfter(stmts[..cuts[k]], w))
  }

  lemma HistoryChain(w: Which, stmts: seq<(Stmt, int)>, cuts: seq<nat>)
    requires CutsFit(cuts, |stmts|)
    ensures Chain(HistoryOf(w, stmts, cuts))
  {
    forall k | 0 <= k < |cuts| - 1 ensures Extends(HistoryOf(w, stmts, cuts)[k], HistoryOf(w, stmts, cuts)[k + 1]) {
      assert cuts[k] <= cuts[k + 1];
      RowsExtend(stmts, cuts[k], cuts[k + 1], w);
    }
  }

  /** Pages read one after another while a run goes on: page `k` was read when the first `cuts[k]` of
      its statements had been executed. */
  ghost predicate ReadingDuring(w: Which, stmts: seq<(Stmt, int)>, cuts: seq<nat>, limit: nat, offsets: seq<nat>,
      pages: seq<seq<Row>>) {
    && Stepped(limit, offsets) && Small(limit, offsets) && |offsets| == |cuts| == |pages| && CutsFit(cuts, |stmts|)
    && forall k :: 0 <= k < |cuts| ==> ReadAt(limit, HistoryOf(w, stmts, cuts)[k], offsets[k], pages[k])
  }

  /** Whatever statements run in between, with strictly growing clocks: once a page comes back short,
      every row that was there at the first page has been returned. */
  lemma NothingSkippedDuring(w: Which, stmts: seq<(Stmt, int)>, cuts: seq<nat>, limit: nat, offsets: seq<nat>,
      pages: seq<seq<Row>>)
    requires ReadingDuring(w, stmts, cuts, limit, offsets, pages) && ClocksGrow(stmts)
    requires |pages[|pages| - 1]| < limit
    ensures forall row :: row in RowsAfter(stmts[..cuts[0]], w) ==> Returned(row, pages)
  {
    var history := HistoryOf(w, stmts, cuts);
    HistoryChain(w, stmts, cuts);
    GrowingRun(stmts[..cuts[|cuts| - 1]], w);
    NothingSkipped(limit, offsets, history, pages);
  }
}
