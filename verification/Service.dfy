/** The create, get, update and list handlers over the store. Each handler issues its statements one
    by one; any statement may fail on the way, before or after it took effect. */
module Service {
  import opened Wrappers
  import opened Tables

  // ---------- What handlers answer ----------

  const ZERO_TIME := -62135596800  // Go's zero time, in Unix seconds

  datatype ProjectView = ProjectView(id: string, name: string, description: string, kind: string, createdAt: int,
      updatedAt: int)

  datatype OwnedView = OwnedView(id: string, name: string, description: string, project: ProjectView, createdAt: int,
      updatedAt: int)

  datatype UserView = UserView(id: string, email: string, createdAt: int, updatedAt: int)

  function ViewProject(r: Row): ProjectView {
    ProjectView(r.displayId, r.name, r.description, r.kind, r.createdAt, r.updatedAt)
  }

  function ViewOwned(r: Row, project: Row): OwnedView {
    OwnedView(r.displayId, r.name, r.description, ViewProject(project), r.createdAt, r.updatedAt)
  }

  /** What a create handler answers for a role or user group: the identifier and the times are not
      read back. */
  function ViewCreated(name: string, description: string, project: Row): OwnedView {
    OwnedView("", name, description, ViewProject(project), ZERO_TIME, ZERO_TIME)
  }

  function ViewUser(r: Row): UserView { UserView(r.displayId, r.name, r.createdAt, r.updatedAt) }

  // What an answer shows of the rows it is made from, column by column.

  predicate ShowsProject(v: ProjectView, r: Row) {
    v.id == r.displayId && v.name == r.name && v.description == r.description && v.kind == r.kind
    && v.createdAt == r.createdAt && v.updatedAt == r.updatedAt
  }

  predicate ShowsOwned(v: OwnedView, r: Row, project: Row) {
    v.id == r.displayId && v.name == r.name && v.description == r.description && ShowsProject(v.project, project)
    && v.createdAt == r.createdAt && v.updatedAt == r.updatedAt
  }

  predicate ShowsUser(v: UserView, r: Row) {
    v.id == r.displayId && v.email == r.name && v.createdAt == r.createdAt && v.updatedAt == r.updatedAt
  }

  // ---------- The database ----------

  /** The database as one client sees it. `faults` counts the statements that failed for a reason
      that is not in the tables. */
  class Database {
    var s: Tables
    var now: int
    ghost var faults: nat

    constructor (start: int)
      ensures s == EMPTY_TABLES && now == start && faults == 0 && Valid()
    {
      s, now, faults := EMPTY_TABLES, start, 0;
      EmptyOk();
    }

    ghost predicate Valid()
      reads this
    {
      TablesOk(s)
    }

    /** A statement takes effect and reports, or a fault hides whether it took effect. */
    method Exec(st: Stmt) returns (e: Option<StoreError>)
      requires Valid()
      modifies this
      ensures Valid() && TablesExtend(old(s), s) && now >= old(now)
      ensures faults == old(faults) ==> (s, e) == Execute(old(s), st, now)
      ensures faults != old(faults) ==>
        e == Some(Fault) && faults > old(faults) && (s == old(s) || s == Execute(old(s), st, now).0)
    {
      var d: int := *;
      if d > 0 { now := now + d; }
      StatementKeeps(s, st, now);
      var (s', err) := Execute(s, st, now);
      var fault: bool := *;
      e := err;
      if fault {
        faults := faults + 1;
        e := Some(Fault);
        var applied: bool := *;
        if applied { s := s'; }
      } else {
        s := s';
      }
    }

    /** The queries for one row: by display id within an owner, or by name. */
    method GetBy(w: Which, owner: int, c: Column, key: string) returns (r: Result<Row, StoreError>)
      modifies this`faults
      ensures faults == old(faults) ==>
        (if Position(TableOf(s, w).rows, owner, c, key) < 0 then r == Err(NotFound)
         else r == Ok(TableOf(s, w).rows[Position(TableOf(s, w).rows, owner, c, key)]))
      ensures faults != old(faults) ==> r == Err(Fault) && faults > old(faults)
    {
      var fault: bool := *;
      if fault {
        faults := faults + 1;
        return Err(Fault);
      }
      var rows := TableOf(s, w).rows;
      var i := Position(rows, owner, c, key);
      r := if i < 0 then Err(NotFound) else Ok(rows[i]);
    }
  }

  // ---------- Facts the handlers rest on ----------

  /** The texts can be stored, and no row of the same owner has the display id or the name as it is
      stored. */
  predicate CanAdd(s: Tables, w: Which, owner: int, displayId: string, v: Texts) {
    var rows, c := TableOf(s, w).rows, Stored(LimitsOf(w), v);
    c.Ok? && forall i :: 0 <= i < |rows| && rows[i].owner == owner ==>
      rows[i].displayId != displayId && rows[i].name != c.value.name
  }

  /** One row was added to one table, with the texts as they are stored, and nothing else changed. */
  predicate Added(s: Tables, s': Tables, w: Which, owner: int, displayId: string, v: Texts, at: int) {
    var t, c := TableOf(s, w), Stored(LimitsOf(w), v);
    c.Ok? &&
    var row := Row(t.next, displayId, owner, c.value.name, c.value.description, c.value.kind, at, at);
    s' == WithTable(s, w, Table(t.rows + [row], t.next + 1))
  }

  /** That the row can be added means that the table with it is still unique. */
  lemma CanAddIsUnique(s: Tables, w: Which, owner: int, displayId: string, v: Texts, at: int)
    requires UniqueRows(TableOf(s, w).rows) && Stored(LimitsOf(w), v).Ok?
    ensures var t, c := TableOf(s, w), Stored(LimitsOf(w), v).value;
      CanAdd(s, w, owner, displayId, v) <==>
      UniqueRows(t.rows + [Row(t.next, displayId, owner, c.name, c.description, c.kind, at, at)])
  {
    var t, c := TableOf(s, w), Stored(LimitsOf(w), v).value;
    AppendedUnique(t.rows, Row(t.next, displayId, owner, c.name, c.description, c.kind, at, at));
  }

  function LastRow(s: Tables, w: Which): Row
    requires TableOf(s, w).rows != []
  {
    TableOf(s, w).rows[|TableOf(s, w).rows| - 1]
  }

  /** Neither text of a role or user group has to be cut. */
  predicate BothFit(w: Which, name: string, description: string) {
    |name| <= (if w.Roles? then 32 else 64) && |description| <= 256
  }

  predicate ShowsStored(v: OwnedView, r: Row) { v.name == r.name && v.description == r.description }

  /** What the added row shows of the texts: a text is stored as it is if and only if it fits. */
  lemma AddedShows(s: Tables, s': Tables, w: Which, owner: int, displayId: string, v: Texts, at: int)
    requires Added(s, s', w, owner, displayId, v, at)
    ensures var t', r := TableOf(s', w), LastRow(s', w);
      |t'.rows| == |TableOf(s, w).rows| + 1 && r.displayId == displayId && r.createdAt == at && r.updatedAt == at
      && r.owner == owner && r.id == TableOf(s, w).next
      && (r.name == v.name <==> |v.name| <= LimitsOf(w).name)
      && (r.description == v.description <==> |v.description| <= LimitsOf(w).description)
      && (r.kind == v.kind <==> |v.kind| <= LimitsOf(w).kind)
  {
  }

  /** The added row is found by the name it was inserted under if and only if that name fits its
      column: a longer one was cut, and no row holds it. */
  lemma InsertedFound(s: Tables, s': Tables, w: Which, owner: int, displayId: string, v: Texts, at: int)
    requires Added(s, s', w, owner, displayId, v, at) && WithinLimits(LimitsOf(w), TableOf(s, w).rows)
    ensures Position(TableOf(s', w).rows, owner, Name, v.name) ==
      if |v.name| <= LimitsOf(w).name then |TableOf(s', w).rows| - 1 else -1
  {
  }

  const LONG_NAME := seq(64, _ => 'a') + " "

  /** A project whose name is 64 letters and a blank is added, but its name finds nothing. */
  lemma PaddedNameLost(displayId: string, now: int)
    ensures var v := Texts(LONG_NAME, "", "personal");
      var (s', e) := Execute(EMPTY_TABLES, InsertInto(Projects, 0, displayId, v), now);
      e.None? && |s'.projects.rows| == 1 && Position(s'.projects.rows, 0, Name, LONG_NAME) == -1
  {
  }

  predicate SameRows(a: Tables, b: Tables) { forall w :: TableOf(a, w).rows == TableOf(b, w).rows }

  class Handlers {
    const db: Database
    const parseUuid: string -> Option<string>  // the canonical form, when the text is a UUID

    constructor (db: Database, parseUuid: string -> Option<string>)
      ensures this.db == db
    {
      this.db, this.parseUuid := db, parseUuid;
    }

    /** `displayId` is what the column's default generates. Without faults: the row is added if and only
        if the texts can be stored and nothing clashes, and otherwise no row changes. The handler
        succeeds if and only if in addition the name fits without being cut; the answer shows the row
        as it is stored. */
    method CreateProject(name: string, description: string, kind: string, displayId: string)
      returns (r: Result<ProjectView, StoreError>)
      requires db.Valid()
      modifies db
      ensures db.Valid() && TablesExtend(old(db.s), db.s)
      ensures db.faults != old(db.faults) ==> r.Err?
      ensures db.faults != old(db.faults) && !SameRows(db.s, old(db.s)) ==>
        Added(old(db.s), db.s, Projects, 0, displayId, Texts(name, description, kind), db.now)
      ensures db.faults == old(db.faults) ==>
        var v := Texts(name, description, kind);
        (r.Ok? <==> CanAdd(old(db.s), Projects, 0, displayId, v) && |name| <= 64)
        && (SameRows(db.s, old(db.s)) <==> !CanAdd(old(db.s), Projects, 0, displayId, v))
        && (CanAdd(old(db.s), Projects, 0, displayId, v) ==> Added(old(db.s), db.s, Projects, 0, displayId, v, db.now))
        && (r.Ok? ==> ShowsProject(r.value, LastRow(db.s, Projects)) && r.value.name == name && r.value.id == displayId)
        && (r.Ok? ==> (r.value.description == description <==> |description| <= 256))
        && (r.Ok? ==> (r.value.kind == kind <==> |kind| <= 32))
        && (CanAdd(old(db.s), Projects, 0, displayId, v) && |name| > 64 ==> r == Err(NotFound))
    {
      var row := InsertAndGet(Projects, Texts(name, description, kind), displayId);
      r := if row.Err? then Err(row.error) else Ok(ViewProject(row.value));
    }

    method CreateUser(email: string, displayId: string) returns (r: Result<UserView, StoreError>)
      requires db.Valid()
      modifies db
      ensures db.Valid() && TablesExtend(old(db.s), db.s)
      ensures db.faults != old(db.faults) ==> r.Err?
      ensures db.faults != old(db.faults) && !SameRows(db.s, old(db.s)) ==>
        Added(old(db.s), db.s, Users, 0, displayId, Texts(email, "", ""), db.now)
      ensures db.faults == old(db.faults) ==>
        var v := Texts(email, "", "");
        (r.Ok? <==> CanAdd(old(db.s), Users, 0, displayId, v) && |email| <= 256)
        && (SameRows(db.s, old(db.s)) <==> !CanAdd(old(db.s), Users, 0, displayId, v))
        && (CanAdd(old(db.s), Users, 0, displayId, v) ==> Added(old(db.s), db.s, Users, 0, displayId, v, db.now))
        && (r.Ok? ==> ShowsUser(r.value, LastRow(db.s, Users)) && r.value == UserView(displayId, email, db.now, db.now))
    {
      var row := InsertAndGet(Users, Texts(email, "", ""), displayId);
      r := if row.Err? then Err(row.error) else Ok(ViewUser(row.value));
    }

    /** The insert, and the read by name that follows it. */
    method InsertAndGet(w: Which, v: Texts, displayId: string) returns (r: Result<Row, StoreError>)
      requires db.Valid() && (w.Projects? || w.Users?)
      modifies db
      ensures db.Valid() && TablesExtend(old(db.s), db.s) && db.faults >= old(db.faults)
      ensures db.faults != old(db.faults) ==> r.Err?
      ensures db.faults != old(db.faults) && !SameRows(db.s, old(db.s)) ==>
        Added(old(db.s), db.s, w, 0, displayId, v, db.now)
      ensures db.faults == old(db.faults) ==>
        (r.Ok? <==> CanAdd(old(db.s), w, 0, displayId, v) && |v.name| <= LimitsOf(w).name)
        && (SameRows(db.s, old(db.s)) <==> !CanAdd(old(db.s), w, 0, displayId, v))
        && (CanAdd(old(db.s), w, 0, displayId, v) ==> Added(old(db.s), db.s, w, 0, displayId, v, db.now))
        && (r.Ok? ==> r.value == LastRow(db.s, w) && r.value.name == v.name && r.value.displayId == displayId)
        && (CanAdd(old(db.s), w, 0, displayId, v) && |v.name| > LimitsOf(w).name ==> r == Err(NotFound))
    {
      ghost var before := db.s;
      assert WithinLimits(LimitsOf(w), TableOf(before, w).rows) by { assert TableOk(LimitsOf(w), TableOf(before, w)); }
      var e := InsertRow(w, 0, v, displayId);
      if e.Some? {
        return Err(e.value);
      }
      r := GetInserted(before, w, v, displayId);
    }

    /** The read by name, right after the insert. */
    method GetInserted(ghost before: Tables, w: Which, v: Texts, displayId: string) returns (r: Result<Row, StoreError>)
      requires Added(before, db.s, w, 0, displayId, v, db.now) && WithinLimits(LimitsOf(w), TableOf(before, w).rows)
      modifies db`faults
      ensures TableOf(db.s, w).rows != [] && db.faults >= old(db.faults) && (db.faults != old(db.faults) ==> r.Err?)
      ensures db.faults == old(db.faults) ==>
        (r.Ok? <==> |v.name| <= LimitsOf(w).name) && (r.Err? ==> r == Err(NotFound))
      ensures r.Ok? ==> r.value == LastRow(db.s, w) && r.value.name == v.name && r.value.displayId == displayId
    {
      AddedShows(before, db.s, w, 0, displayId, v, db.now);
      InsertedFound(before, db.s, w, 0, displayId, v, db.now);
      r := db.GetBy(w, 0, Name, v.name);
    }

    /** The insert alone. */
    method InsertRow(w: Which, owner: int, v: Texts, displayId: string) returns (e: Option<StoreError>)
      requires db.Valid() && OwnerOk(db.s, w, owner)
      modifies db
      ensures db.Valid() && TablesExtend(old(db.s), db.s) && db.faults >= old(db.faults)
      ensures db.faults != old(db.faults) ==> e.Some?
      ensures db.faults != old(db.faults) && !SameRows(db.s, old(db.s)) ==>
        Added(old(db.s), db.s, w, owner, displayId, v, db.now)
      ensures db.faults == old(db.faults) ==>
        (e.None? <==> CanAdd(old(db.s), w, owner, displayId, v))
        && (e.None? ==> Added(old(db.s), db.s, w, owner, displayId, v, db.now))
        && (SameRows(db.s, old(db.s)) <==> e.Some?)
    {
      ghost var before := db.s;
      e := db.Exec(InsertInto(w, owner, displayId, v));
      AddedBy(before, w, owner, displayId, v, db.now);
    }

    /** The row a textual identifier names in a table, if the text is a UUID and the row exists. */
    function Named(rows: seq<Row>, owner: int, text: string): Option<Row> {
      match parseUuid(text)
      case None => None
      case Some(uuid) => var i := Position(rows, owner, DisplayId, uuid); if i < 0 then None else Some(rows[i])
    }

    /** How the handlers look up the project in their path. */
    method FindProject(projectId: string) returns (r: Result<Row, StoreError>)
      modifies db`faults
      ensures db.faults >= old(db.faults) && (db.faults != old(db.faults) ==> r.Err?)
      ensures db.faults == old(db.faults) ==>
        match Named(db.s.projects.rows, 0, projectId) case None => r.Err? case Some(row) => r == Ok(row)
      ensures r.Ok? ==> HasId(db.s.projects.rows, r.value.id)
    {
      var uuid := parseUuid(projectId);
      if uuid.None? {
        return Err(BadUuid);
      }
      r := db.GetBy(Projects, 0, DisplayId, uuid.value);
    }

    /** The row was added, or changed, within the project the handler was given. */
    predicate AddedUnder(s: Tables, s': Tables, w: Which, projectId: string, displayId: string, v: Texts, at: int) {
      var proj := Named(s.projects.rows, 0, projectId);
      proj.Some? && Added(s, s', w, proj.value.id, displayId, v, at)
    }

    predicate UpdatedUnder(s: Tables, s': Tables, w: Which, projectId: string, id: string, name: string,
        description: string, at: int) {
      var proj := Named(s.projects.rows, 0, projectId);
      proj.Some? && Updated(s, s', w, proj.value.id, id, name, description, at)
    }

    /** CreateRole and CreateUserGroup. The answer repeats the request and the project; the new row's
        identifier and times are not in it. It shows the name and description as they are stored if and
        only if both fit without being cut. */
    method CreateOwned(w: Which, projectId: string, name: string, description: string, displayId: string)
      returns (r: Result<OwnedView, StoreError>)
      requires db.Valid() && (w.Roles? || w.Groups?)
      modifies db
      ensures db.Valid() && TablesExtend(old(db.s), db.s)
      ensures db.faults != old(db.faults) ==> r.Err?
      ensures db.faults != old(db.faults) && !SameRows(db.s, old(db.s)) ==>
        AddedUnder(old(db.s), db.s, w, projectId, displayId, Texts(name, description, ""), db.now)
      ensures db.faults == old(db.faults) && r.Err? ==> SameRows(db.s, old(db.s))
      ensures db.faults == old(db.faults) ==>
        var v := Texts(name, description, "");
        match Named(old(db.s).projects.rows, 0, projectId)
        case None => r.Err?
        case Some(proj) =>
          (r.Ok? <==> CanAdd(old(db.s), w, proj.id, displayId, v))
          && (r.Ok? ==> r.value.name == name && r.value.description == description
                        && ShowsProject(r.value.project, proj) && r.value.id == ""
                        && r.value.createdAt == r.value.updatedAt == -62135596800
                        && Added(old(db.s), db.s, w, proj.id, displayId, v, db.now)
                        && (ShowsStored(r.value, LastRow(db.s, w)) <==> BothFit(w, name, description)))
    {
      var proj := FindProject(projectId);
      if proj.Err? {
        return Err(proj.error);
      }
      var v := Texts(name, description, "");
      ghost var before := db.s;
      var e := InsertRow(w, proj.value.id, v, displayId);
      if e.Some? {
        return Err(e.value);
      }
      AddedShows(before, db.s, w, proj.value.id, displayId, v, db.now);
      r := Ok(ViewCreated(name, description, proj.value));
    }

    lemma AddedBy(s: Tables, w: Which, owner: int, displayId: string, v: Texts, now: int)
      requires OwnerOk(s, w, owner)
      ensures var (s', e) := Execute(s, InsertInto(w, owner, displayId, v), now);
        (e.None? <==> CanAdd(s, w, owner, displayId, v))
        && (e.None? ==> Added(s, s', w, owner, displayId, v, now) && !SameRows(s', s))
        && (e.Some? ==> SameRows(s', s))
    {
      var (s', e) := Execute(s, InsertInto(w, owner, displayId, v), now);
      if e.None? { assert |TableOf(s', w).rows| == |TableOf(s, w).rows| + 1; }
    }

    /** The update comes first, and only the read after it finds out whether there was such a project. */
    method UpdateProject(projectId: string, name: string, description: string)
      returns (r: Result<ProjectView, StoreError>)
      requires db.Valid()
      modifies db
      ensures db.Valid() && TablesExtend(old(db.s), db.s)
      ensures db.faults != old(db.faults) ==> r.Err?
      ensures db.faults != old(db.faults) && !SameRows(db.s, old(db.s)) ==>
        Updated(old(db.s), db.s, Projects, 0, projectId, name, description, db.now)
      ensures db.faults == old(db.faults) && r.Err? ==> SameRows(db.s, old(db.s))
      ensures db.faults == old(db.faults) ==>
        (r.Ok? <==> CanUpdate(old(db.s), Projects, 0, projectId, name, description))
      ensures db.faults == old(db.faults) && r.Ok? ==>
        Updated(old(db.s), db.s, Projects, 0, projectId, name, description, db.now)
        && Named(db.s.projects.rows, 0, projectId).Some?
        && ShowsProject(r.value, Named(db.s.projects.rows, 0, projectId).value)
        && r.value.updatedAt == db.now
        && (r.value.name == name <==> |name| <= 64)
        && (r.value.description == description <==> |description| <= 256)
    {
      var row := UpdateAndGet(Projects, 0, projectId, name, description);
      r := if row.Err? then Err(row.error) else Ok(ViewProject(row.value));
    }

    /** UpdateRole and UpdateUserGroup. */
    method UpdateOwned(w: Which, projectId: string, id: string, name: string, description: string)
      returns (r: Result<OwnedView, StoreError>)
      requires db.Valid() && (w.Roles? || w.Groups?)
      modifies db
      ensures db.Valid() && TablesExtend(old(db.s), db.s)
      ensures db.faults != old(db.faults) ==> r.Err?
      ensures db.faults != old(db.faults) && !SameRows(db.s, old(db.s)) ==>
        UpdatedUnder(old(db.s), db.s, w, projectId, id, name, description, db.now)
      ensures db.faults == old(db.faults) && r.Err? ==> SameRows(db.s, old(db.s))
      ensures db.faults == old(db.faults) ==>
        match Named(old(db.s).projects.rows, 0, projectId)
        case None => r.Err?
        case Some(proj) =>
          (r.Ok? <==> CanUpdate(old(db.s), w, proj.id, id, name, description))
          && (r.Ok? ==> Updated(old(db.s), db.s, w, proj.id, id, name, description, db.now)
                        && Named(TableOf(db.s, w).rows, proj.id, id).Some?
                        && ShowsOwned(r.value, Named(TableOf(db.s, w).rows, proj.id, id).value, proj)
                        && r.value.updatedAt == db.now
                        && (r.value.name == name && r.value.description == description
                            <==> BothFit(w, name, description)))
    {
      var proj := FindProject(projectId);
      if proj.Err? {
        return Err(proj.error);
      }
      ghost var faults := db.faults;
      var row := UpdateAndGet(w, proj.value.id, id, name, description);
      r := if row.Err? then Err(row.error) else Ok(ViewOwned(row.value, proj.value));
    }

    /** The update and the read that follows it. */
    method UpdateAndGet(w: Which, owner: int, id: string, name: string, description: string)
      returns (r: Result<Row, StoreError>)
      requires db.Valid()
      modifies db
      ensures db.Valid() && TablesExtend(old(db.s), db.s) && db.faults >= old(db.faults)
      ensures db.faults != old(db.faults) ==> r.Err?
      ensures db.faults != old(db.faults) && !SameRows(db.s, old(db.s)) ==>
        Updated(old(db.s), db.s, w, owner, id, name, description, db.now)
      ensures db.faults == old(db.faults) && r.Err? ==> SameRows(db.s, old(db.s))
      ensures db.faults == old(db.faults) ==> (r.Ok? <==> CanUpdate(old(db.s), w, owner, id, name, description))
      ensures db.faults == old(db.faults) && r.Ok? ==>
        Updated(old(db.s), db.s, w, owner, id, name, description, db.now)
        && Named(TableOf(db.s, w).rows, owner, id) == Some(r.value)
    {
      var uuid := parseUuid(id);
      if uuid.None? {
        return Err(BadUuid);
      }
      var e := UpdateRow(w, owner, id, uuid.value, name, description);
      if e.Some? {
        return Err(e.value);
      }
      r := db.GetBy(w, owner, DisplayId, uuid.value);
    }

    /** The update alone: no error, and no effect, when there is no such row. */
    method UpdateRow(w: Which, owner: int, ghost id: string, uuid: string, name: string, description: string)
      returns (e: Option<StoreError>)
      requires db.Valid() && parseUuid(id) == Some(uuid)
      modifies db
      ensures db.Valid() && TablesExtend(old(db.s), db.s) && db.faults >= old(db.faults)
      ensures db.faults != old(db.faults) ==> e.Some?
      ensures db.faults != old(db.faults) && !SameRows(db.s, old(db.s)) ==>
        Updated(old(db.s), db.s, w, owner, id, name, description, db.now)
      ensures db.faults == old(db.faults) ==>
        var i := Position(TableOf(old(db.s), w).rows, owner, DisplayId, uuid);
        (CanUpdate(old(db.s), w, owner, id, name, description) <==> e.None? && i >= 0)
        && (e.Some? || i < 0 ==> SameRows(db.s, old(db.s)))
        && (e.None? ==> Position(TableOf(db.s, w).rows, owner, DisplayId, uuid) == i)
        && (e.None? && i >= 0 ==> Updated(old(db.s), db.s, w, owner, id, name, description, db.now))
    {
      ghost var before := db.s;
      assert TableOk(LimitsOf(w), TableOf(before, w));
      e := db.Exec(UpdateOf(w, owner, uuid, name, description));
      UpdatedBy(before, w, owner, id, uuid, name, description, db.now);
    }

    /** What the update statement does, in the handlers' terms. */
    lemma UpdatedBy(s: Tables, w: Which, owner: int, id: string, uuid: string, name: string, description: string,
        now: int)
      requires UniqueRows(TableOf(s, w).rows) && parseUuid(id) == Some(uuid)
      ensures var (s', e) := Execute(s, UpdateOf(w, owner, uuid, name, description), now);
        var i := Position(TableOf(s, w).rows, owner, DisplayId, uuid);
        (CanUpdate(s, w, owner, id, name, description) <==> e.None? && i >= 0)
        && (e.Some? || i < 0 ==> SameRows(s', s))
        && (e.None? ==> Position(TableOf(s', w).rows, owner, DisplayId, uuid) == i)
        && (e.None? && i >= 0 ==> Updated(s, s', w, owner, id, name, description, now))
    {
      var (s', e) := Execute(s, UpdateOf(w, owner, uuid, name, description), now);
      if e.None? { UpdateFound(s, w, owner, uuid, name, description, now); }
      if e.None? && Position(TableOf(s, w).rows, owner, DisplayId, uuid) < 0 { SameTable(s, w); }
    }

    lemma SameTable(s: Tables, w: Which)
      ensures WithTable(s, w, TableOf(s, w)) == s
    {
    }

    /** The row exists, the new texts can be stored, and no other row of the same owner has the name as it
        is stored. */
    predicate CanUpdate(s: Tables, w: Which, owner: int, id: string, name: string, description: string) {
      var rows := TableOf(s, w).rows;
      match parseUuid(id)
      case None => false
      case Some(uuid) =>
        var i := Position(rows, owner, DisplayId, uuid);
        var c := Stored(LimitsOf(w), Texts(name, description, ""));
        i >= 0 && c.Ok? &&
        forall k :: 0 <= k < |rows| && k != i && rows[k].owner == owner ==> rows[k].name != c.value.name
    }

    /** Exactly the named row changed, and only in its name and description, to what is stored, and in its
        time of update. */
    predicate Updated(s: Tables, s': Tables, w: Which, owner: int, id: string, name: string, description: string,
        at: int) {
      var t, c := TableOf(s, w), Stored(LimitsOf(w), Texts(name, description, ""));
      c.Ok? && parseUuid(id).Some? && Position(t.rows, owner, DisplayId, parseUuid(id).value) >= 0 &&
      var i := Position(t.rows, owner, DisplayId, parseUuid(id).value);
      var row := t.rows[i].(name := c.value.name, description := c.value.description, updatedAt := at);
      s' == WithTable(s, w, t.(rows := t.rows[i := row]))
    }

    method GetProject(projectId: string) returns (r: Result<ProjectView, StoreError>)
      modifies db`faults
      ensures db.faults != old(db.faults) ==> r.Err?
      ensures db.faults == old(db.faults) ==>
        match Named(db.s.projects.rows, 0, projectId)
        case None => r.Err?
        case Some(row) => r.Ok? && ShowsProject(r.value, row)
    {
      var proj := FindProject(projectId);
      r := if proj.Err? then Err(proj.error) else Ok(ViewProject(proj.value));
    }

    /** The lookups of GetRole and GetUserGroup: the project, then the row within it. */
    method FindOwned(w: Which, projectId: string, id: string) returns (r: Result<(Row, Row), StoreError>)
      modifies db`faults
      ensures db.faults >= old(db.faults) && (db.faults != old(db.faults) ==> r.Err?)
      ensures db.faults == old(db.faults) ==>
        match Named(db.s.projects.rows, 0, projectId)
        case None => r.Err?
        case Some(proj) =>
          match Named(TableOf(db.s, w).rows, proj.id, id) case None => r.Err? case Some(row) => r == Ok((row, proj))
    {
      var proj := FindProject(projectId);
      if proj.Err? {
        return Err(proj.error);
      }
      var uuid := parseUuid(id);
      if uuid.None? {
        return Err(BadUuid);
      }
      var row := db.GetBy(w, proj.value.id, DisplayId, uuid.value);
      r := if row.Err? then Err(row.error) else Ok((row.value, proj.value));
    }

    method GetRole(projectId: string, id: string) returns (r: Result<OwnedView, StoreError>)
      modifies db`faults
      ensures db.faults != old(db.faults) ==> r.Err?
      ensures db.faults == old(db.faults) ==>
        match Named(db.s.projects.rows, 0, projectId)
        case None => r.Err?
        case Some(proj) =>
          match Named(db.s.roles.rows, proj.id, id)
          case None => r.Err?
          case Some(row) => r.Ok? && ShowsOwned(r.value, row, proj)
    {
      var found := FindOwned(Roles, projectId, id);
      r := if found.Err? then Err(found.error) else Ok(ViewOwned(found.value.0, found.value.1));
    }
  }

  /** After an update that succeeded, the row is where it was, with the new columns. */
  lemma UpdateFound(s: Tables, w: Which, owner: int, uuid: string, name: string, description: string, now: int)
    requires Execute(s, UpdateOf(w, owner, uuid, name, description), now).1 == None
    requires UniqueRows(TableOf(s, w).rows)
    ensures var s' := Execute(s, UpdateOf(w, owner, uuid, name, description), now).0;
      Position(TableOf(s', w).rows, owner, DisplayId, uuid) == Position(TableOf(s, w).rows, owner, DisplayId, uuid)
  {
    var s' := Execute(s, UpdateOf(w, owner, uuid, name, description), now).0;
    var rows, rows', i := TableOf(s, w).rows, TableOf(s', w).rows, Position(TableOf(s, w).rows, owner, DisplayId, uuid);
    if i >= 0 {
      assert forall k :: 0 <= k < |rows| ==> rows'[k].owner == rows[k].owner && rows'[k].displayId == rows[k].displayId;
      var k := Position(rows', owner, DisplayId, uuid);
      assert rows'[i].owner == owner && rows'[i].displayId == uuid && k >= 0;
      PositionUnique(rows, owner, uuid, k);
    }
  }
}
