/** The relational store: four tables, the statements the service issues on them, and what every run
    of statements keeps. Handlers use no transaction, so any interleaving of handlers is a run of
    statements. */
module Tables {
  import opened Wrappers

  /** A row of any of the four tables. `owner` is the project a role or user group belongs to, and 0
      in the other tables; the name of a user is the email address; only projects use `kind`. */
  datatype Row = Row(id: int, displayId: string, owner: int, name: string, description: string, kind: string,
                     createdAt: int, updatedAt: int)

  /** What the column types allow. */
  datatype Limits = Limits(name: nat, description: nat, kind: nat)

  const PROJECT_LIMITS := Limits(64, 256, 32)
  const USER_LIMITS := Limits(256, 0, 0)
  const ROLE_LIMITS := Limits(32, 256, 0)
  const GROUP_LIMITS := Limits(64, 256, 0)

  /** Rows in the order they were inserted, and the next value of the sequence behind `id`. */
  datatype Table = Table(rows: seq<Row>, next: int)

  datatype Tables = Tables(projects: Table, users: Table, roles: Table, groups: Table)

  datatype StoreError = BadUuid | BadText | NotFound | TooLong | Duplicate | NoSuchProject | NegativeOffset | Fault

  predicate FitsLimits(lim: Limits, name: string, description: string, kind: string) {
    |name| <= lim.name && |description| <= lim.description && |kind| <= lim.kind
  }

  /** The text columns of a statement. */
  datatype Texts = Texts(name: string, description: string, kind: string)

  predicate Blank(v: string) { forall i :: 0 <= i < |v| ==> v[i] == ' ' }

  /** Assignment to a VARCHAR(n) column: blanks beyond the limit are cut off without an error, anything
      else beyond it is refused. */
  function Assigned(v: string, n: nat): (r: Option<string>)
    ensures r.Some? <==> exists cut :: 0 <= cut <= n && cut <= |v| && Blank(v[cut..])
    ensures r.Some? ==> r.value <= v && Blank(v[|r.value|..]) && |r.value| == if |v| <= n then |v| else n
    ensures r == Some(v) <==> |v| <= n
  {
    if |v| <= n then
      assert Blank(v[|v|..]);
      Some(v)
    else if Blank(v[n..]) then Some(v[..n])
    else
      BlankTail(v, n);
      None
  }

  lemma BlankTail(v: string, n: nat)
    requires n < |v| && !Blank(v[n..])
    ensures forall cut :: 0 <= cut <= n ==> !Blank(v[cut..])
  {
    var i :| 0 <= i < |v[n..]| && v[n..][i] != ' ';
    forall cut | 0 <= cut <= n ensures !Blank(v[cut..]) {
      assert v[cut..][n - cut + i] == v[n..][i];
    }
  }

  /** PostgreSQL takes no text with a zero character in it. */
  predicate IsText(v: Texts) { '\0' !in v.name && '\0' !in v.description && '\0' !in v.kind }

  /** What a row holds after the texts were assigned to its columns. */
  function Stored(lim: Limits, v: Texts): (r: Result<Texts, StoreError>)
    ensures r.Ok? ==> FitsLimits(lim, r.value.name, r.value.description, r.value.kind)
    ensures r == Ok(v) <==> IsText(v) && FitsLimits(lim, v.name, v.description, v.kind)
    ensures r.Ok? ==> Assigned(v.name, lim.name) == Some(r.value.name)
    ensures r.Ok? ==> Assigned(v.description, lim.description) == Some(r.value.description)
    ensures r.Ok? ==> Assigned(v.kind, lim.kind) == Some(r.value.kind)
    ensures r == Err(BadText) <==> '\0' in v.name || '\0' in v.description || '\0' in v.kind
    ensures r.Err? ==> r.error == BadText || r.error == TooLong
  {
    var name, kind := Assigned(v.name, lim.name), Assigned(v.kind, lim.kind);
    var description := Assigned(v.description, lim.description);
    if !IsText(v) then Err(BadText)
    else if name.None? || description.None? || kind.None? then Err(TooLong)
    else Ok(Texts(name.value, description.value, kind.value))
  }

  /** `UNIQUE (display_id)` and `UNIQUE (name)`, within one owner. */
  predicate Clashes(rows: seq<Row>, owner: int, displayId: string, name: string) {
    exists i :: 0 <= i < |rows| && rows[i].owner == owner && (rows[i].displayId == displayId || rows[i].name == name)
  }

  function NewRow(id: int, displayId: string, owner: int, v: Texts, now: int): Row {
    Row(id, displayId, owner, v.name, v.description, v.kind, now, now)
  }

  function Renamed(r: Row, v: Texts, now: int): Row {
    r.(name := v.name, description := v.description, updatedAt := now)
  }

  /** INSERT. */
  function Insert(t: Table, lim: Limits, owner: int, displayId: string, v: Texts, now: int): Result<Table, StoreError> {
    match Stored(lim, v)
    case Err(e) => Err(e)
    case Ok(c) =>
      if Clashes(t.rows, owner, displayId, c.name) then Err(Duplicate)
      else Ok(Table(t.rows + [NewRow(t.next, displayId, owner, c, now)], t.next + 1))
  }

  /** The columns a WHERE clause selects by, besides the owner. */
  datatype Column = DisplayId | Name

  function Cell(r: Row, c: Column): string { if c.DisplayId? then r.displayId else r.name }

  predicate Selects(r: Row, owner: int, c: Column, key: string) { r.owner == owner && Cell(r, c) == key }

  /** The position of the row a WHERE clause selects, or -1. */
  function Position(rows: seq<Row>, owner: int, c: Column, key: string): (i: int)
    ensures -1 <= i < |rows|
    ensures i >= 0 ==> Selects(rows[i], owner, c, key)
    ensures i < 0 ==> forall k :: 0 <= k < |rows| ==> !Selects(rows[k], owner, c, key)
  {
    if rows == [] then -1
    else if Selects(rows[|rows| - 1], owner, c, key) then |rows| - 1
    else
      var i := Position(rows[..|rows| - 1], owner, c, key);
      assert i < 0 ==> forall k :: 0 <= k < |rows| - 1 ==> rows[k] == rows[..|rows| - 1][k];
      i
  }

  predicate NameTaken(rows: seq<Row>, owner: int, name: string, except: int) {
    exists i :: 0 <= i < |rows| && i != except && rows[i].owner == owner && rows[i].name == name
  }

  /** UPDATE of the name and description of the row with a display id; no such row is no error. */
  function Update(t: Table, lim: Limits, owner: int, displayId: string, name: string, description: string, now: int)
    : Result<Table, StoreError>
  {
    var v := Texts(name, description, "");
    var i := Position(t.rows, owner, DisplayId, displayId);
    if !IsText(v) then Err(BadText)
    else if i < 0 then Ok(t)
    else
      match Stored(lim, v)
      case Err(e) => Err(e)
      case Ok(c) =>
        if NameTaken(t.rows, owner, c.name, i) then Err(Duplicate)
        else Ok(t.(rows := t.rows[i := Renamed(t.rows[i], c, now)]))
  }

  // ---------- What a table keeps ----------

  predicate UniqueRows(rows: seq<Row>) {
    forall i, k :: 0 <= i < k < |rows| && rows[i].owner == rows[k].owner ==>
      rows[i].displayId != rows[k].displayId && rows[i].name != rows[k].name
  }

  /** Identifiers grow from 1 and are never given out again. */
  predicate SerialIds(t: Table) {
    t.next >= 1
    && (forall i :: 0 <= i < |t.rows| ==> 1 <= t.rows[i].id < t.next)
    && (forall i, k :: 0 <= i < k < |t.rows| ==> t.rows[i].id < t.rows[k].id)
  }

  predicate WithinLimits(lim: Limits, rows: seq<Row>) {
    forall i :: 0 <= i < |rows| ==> FitsLimits(lim, rows[i].name, rows[i].description, rows[i].kind)
  }

  /** An insert goes through if and only if its texts can be stored and the rows with the new one at the
      end are still unique; otherwise the error tells which of the two it is. */
  lemma InsertExact(t: Table, lim: Limits, owner: int, displayId: string, v: Texts, now: int)
    requires UniqueRows(t.rows)
    ensures var r, c := Insert(t, lim, owner, displayId, v, now), Stored(lim, v);
      if c.Err? then r == Err(c.error)
      else
        var rows := t.rows + [Row(t.next, displayId, owner, c.value.name, c.value.description, c.value.kind, now, now)];
        r == if UniqueRows(rows) then Ok(Table(rows, t.next + 1)) else Err(Duplicate)
  {
    var c := Stored(lim, v);
    if c.Ok? {
      var row := Row(t.next, displayId, owner, c.value.name, c.value.description, c.value.kind, now, now);
      AppendedUnique(t.rows, row);
    }
  }

  predicate SharesKey(a: Row, b: Row) { a.owner == b.owner && (a.displayId == b.displayId || a.name == b.name) }

  lemma AppendedUnique(rows: seq<Row>, row: Row)
    requires UniqueRows(rows)
    ensures UniqueRows(rows + [row]) <==> forall i :: 0 <= i < |rows| ==> !SharesKey(rows[i], row)
  {
    var rows' := rows + [row];
    assert forall i :: 0 <= i < |rows| ==> rows'[i] == rows[i];
    if UniqueRows(rows') {
      forall i | 0 <= i < |rows| ensures !SharesKey(rows[i], row) {
        assert rows'[i] == rows[i] && rows'[|rows|] == row;
      }
    }
  }

  /** Names and display ids are taken within one owner only: rows of other projects never stand in the
      way of a role or user group. */
  lemma OtherOwnersFree(t: Table, lim: Limits, owner: int, displayId: string, v: Texts, now: int)
    requires forall i :: 0 <= i < |t.rows| ==> t.rows[i].owner != owner
    ensures Insert(t, lim, owner, displayId, v, now).Ok? <==> Stored(lim, v).Ok?
  {
  }

  /** An update of a row that is there: it goes through if and only if its texts can be stored and the rows
      with that row's name, description and update time replaced are still unique. */
  lemma UpdateExact(t: Table, lim: Limits, owner: int, displayId: string, name: string, description: string, now: int,
      i: nat)
    requires UniqueRows(t.rows) && i < |t.rows| && t.rows[i].owner == owner && t.rows[i].displayId == displayId
    ensures var r := Update(t, lim, owner, displayId, name, description, now);
      var c := Stored(lim, Texts(name, description, ""));
      if c.Err? then r == Err(c.error)
      else
        var row := t.rows[i].(name := c.value.name, description := c.value.description, updatedAt := now);
        r == if UniqueRows(t.rows[i := row]) then Ok(Table(t.rows[i := row], t.next)) else Err(Duplicate)
  {
    PositionUnique(t.rows, owner, displayId, i);
    var c := Stored(lim, Texts(name, description, ""));
    if c.Ok? {
      var row := t.rows[i].(name := c.value.name, description := c.value.description, updatedAt := now);
      ReplacedUnique(t.rows, i, row);
    }
  }

  lemma ReplacedUnique(rows: seq<Row>, i: nat, row: Row)
    requires UniqueRows(rows) && i < |rows| && row.owner == rows[i].owner && row.displayId == rows[i].displayId
    ensures UniqueRows(rows[i := row]) <==>
      forall k :: 0 <= k < |rows| && k != i && rows[k].owner == row.owner ==> rows[k].name != row.name
  {
    var rows' := rows[i := row];
    if UniqueRows(rows') {
      forall k | 0 <= k < |rows| && k != i && rows[k].owner == row.owner ensures rows[k].name != row.name {
        assert rows'[k] == rows[k] && rows'[i] == row;
      }
    }
  }

  /** An update of a row that is not there changes nothing, and fails only on a text that cannot be
      sent. */
  lemma UpdateMisses(t: Table, lim: Limits, owner: int, displayId: string, name: string, description: string, now: int)
    requires forall i :: 0 <= i < |t.rows| ==> t.rows[i].owner != owner || t.rows[i].displayId != displayId
    ensures Update(t, lim, owner, displayId, name, description, now) ==
      if '\0' in name || '\0' in description then Err(BadText) else Ok(t)
  {
    assert Position(t.rows, owner, DisplayId, displayId) < 0;
  }

  /** No two rows carry the display id, so what is found by it is the only such row. */
  lemma PositionUnique(rows: seq<Row>, owner: int, displayId: string, i: nat)
    requires UniqueRows(rows) && i < |rows| && rows[i].owner == owner && rows[i].displayId == displayId
    ensures Position(rows, owner, DisplayId, displayId) == i
  {
    var k := Position(rows, owner, DisplayId, displayId);
    assert k >= 0 && rows[k].displayId == rows[i].displayId;
  }

  predicate TableOk(lim: Limits, t: Table) { UniqueRows(t.rows) && SerialIds(t) && WithinLimits(lim, t.rows) }

  /** The columns no statement rewrites. */
  predicate SameIdentity(a: Row, b: Row) {
    a.id == b.id && a.displayId == b.displayId && a.owner == b.owner && a.kind == b.kind && a.createdAt == b.createdAt
  }

  /** Later rows extend earlier ones: none went away, and none changed its identity. */
  predicate Extends(before: seq<Row>, after: seq<Row>) {
    |before| <= |after| && forall i :: 0 <= i < |before| ==> SameIdentity(before[i], after[i])
  }

  lemma InsertKeeps(t: Table, lim: Limits, owner: int, displayId: string, v: Texts, now: int)
    requires TableOk(lim, t)
    ensures var r := Insert(t, lim, owner, displayId, v, now);
      r.Ok? ==> TableOk(lim, r.value) && Extends(t.rows, r.value.rows)
  {
    var r := Insert(t, lim, owner, displayId, v, now);
    if r.Ok? {
      var rows := r.value.rows;
      assert forall i :: 0 <= i < |t.rows| ==> rows[i] == t.rows[i];
    }
  }

  lemma UpdateKeeps(t: Table, lim: Limits, owner: int, displayId: string, name: string, description: string, now: int)
    requires TableOk(lim, t)
    ensures var r := Update(t, lim, owner, displayId, name, description, now);
      r.Ok? ==>
        TableOk(lim, r.value) && Extends(t.rows, r.value.rows) && |r.value.rows| == |t.rows| && r.value.next == t.next
  {
    var r := Update(t, lim, owner, displayId, name, description, now);
    var i := Position(t.rows, owner, DisplayId, displayId);
    if r.Ok? && i >= 0 {
      var rows := r.value.rows;
      assert forall k :: 0 <= k < |rows| && k != i ==> rows[k] == t.rows[k];
      assert SameIdentity(t.rows[i], rows[i]);
    }
  }

  lemma ExtendsTrans(a: seq<Row>, b: seq<Row>, c: seq<Row>)
    requires Extends(a, b) && Extends(b, c)
    ensures Extends(a, c)
  {
  }

  // ---------- Statements and runs ----------

  datatype Which = Projects | Users | Roles | Groups

  datatype Stmt =
    | InsertInto(which: Which, owner: int, displayId: string, texts: Texts)
    | UpdateOf(which: Which, owner: int, displayId: string, name: string, description: string)

  function TableOf(s: Tables, w: Which): Table {
    match w case Projects => s.projects case Users => s.users case Roles => s.roles case Groups => s.groups
  }

  function LimitsOf(w: Which): Limits {
    match w
    case Projects => PROJECT_LIMITS
    case Users => USER_LIMITS
    case Roles => ROLE_LIMITS
    case Groups => GROUP_LIMITS
  }

  /** The widths the schema declares. */
  lemma ColumnWidths(name: string, description: string, kind: string)
    ensures FitsLimits(LimitsOf(Projects), name, description, kind) <==>
      |name| <= 64 && |description| <= 256 && |kind| <= 32
    ensures FitsLimits(LimitsOf(Users), name, "", "") <==> |name| <= 256
    ensures FitsLimits(LimitsOf(Roles), name, description, "") <==> |name| <= 32 && |description| <= 256
    ensures FitsLimits(LimitsOf(Groups), name, description, "") <==> |name| <= 64 && |description| <= 256
  {
  }

  function WithTable(s: Tables, w: Which, t: Table): (s': Tables)
    ensures TableOf(s', w) == t && forall v :: v != w ==> TableOf(s', v) == TableOf(s, v)
  {
    match w
    case Projects => s.(projects := t)
    case Users => s.(users := t)
    case Roles => s.(roles := t)
    case Groups => s.(groups := t)
  }

  predicate HasId(rows: seq<Row>, id: int) { exists i :: 0 <= i < |rows| && rows[i].id == id }

  /** Roles and user groups reference a project; the other tables have no owner column. */
  predicate OwnerOk(s: Tables, w: Which, owner: int) {
    if w.Roles? || w.Groups? then HasId(s.projects.rows, owner) else owner == 0
  }

  /** One statement, with the clock it sees. A rejected insert still uses up an identifier,
      unless a text could not even be sent; an over-long value is reported only when there is a row to
      update. */
  function Execute(s: Tables, st: Stmt, now: int): (Tables, Option<StoreError>) {
    var t := TableOf(s, st.which);
    match st
    case InsertInto(w, owner, displayId, texts) =>
      (match Insert(t, LimitsOf(w), owner, displayId, texts, now)
       case Err(e) => (if e.BadText? then s else WithTable(s, w, t.(next := t.next + 1)), Some(e))
       case Ok(t') =>
         if OwnerOk(s, w, owner) then (WithTable(s, w, t'), None)
         else (WithTable(s, w, t.(next := t.next + 1)), Some(NoSuchProject)))
    case UpdateOf(w, owner, displayId, name, description) =>
      match Update(t, LimitsOf(w), owner, displayId, name, description, now)
      case Err(e) => (s, Some(e))
      case Ok(t') => (WithTable(s, w, t'), None)
  }

  /** A statement that fails changes no row, and an insert that fails still uses up an identifier unless
      its texts could not be sent. */
  lemma FailedExactly(s: Tables, st: Stmt, now: int)
    ensures var (s', e) := Execute(s, st, now);
      e.Some? ==>
        TableOf(s', st.which).rows == TableOf(s, st.which).rows
        && TableOf(s', st.which).next == TableOf(s, st.which).next
             + (if st.UpdateOf? || e.value == BadText then 0 else 1)
        && forall w :: w != st.which ==> TableOf(s', w) == TableOf(s, w)
  {
    var (s', e) := Execute(s, st, now);
    if e.Some? && st.InsertInto? {
      assert forall w :: w != st.which ==> TableOf(s', w) == TableOf(s, w);
    }
  }

  /** Every role and user group belongs to a project that exists. */
  predicate OwnersExist(s: Tables, w: Which) {
    forall i :: 0 <= i < |TableOf(s, w).rows| ==> OwnerOk(s, w, TableOf(s, w).rows[i].owner)
  }

  ghost predicate TablesOk(s: Tables) {
    (forall w :: TableOk(LimitsOf(w), TableOf(s, w))) && (forall w :: OwnersExist(s, w))
  }

  ghost predicate TablesExtend(a: Tables, b: Tables) { forall w :: Extends(TableOf(a, w).rows, TableOf(b, w).rows) }

  lemma ProjectsStay(s: Tables, s': Tables, id: int)
    requires Extends(s.projects.rows, s'.projects.rows) && HasId(s.projects.rows, id)
    ensures HasId(s'.projects.rows, id)
  {
    var i :| 0 <= i < |s.projects.rows| && s.projects.rows[i].id == id;
    assert SameIdentity(s.projects.rows[i], s'.projects.rows[i]);
  }

  /** What one statement does to the table it names. */
  lemma StatementKeepsTable(s: Tables, st: Stmt, now: int)
    requires TablesOk(s)
    ensures var t, t' := TableOf(s, st.which), TableOf(Execute(s, st, now).0, st.which);
      TableOk(LimitsOf(st.which), t') && Extends(t.rows, t'.rows)
    ensures var s' := Execute(s, st, now).0;
      forall i :: |TableOf(s, st.which).rows| <= i < |TableOf(s', st.which).rows| ==>
        OwnerOk(s, st.which, TableOf(s', st.which).rows[i].owner)
    ensures forall v :: v != st.which ==> TableOf(Execute(s, st, now).0, v) == TableOf(s, v)
  {
    var w, t := st.which, TableOf(s, st.which);
    assert TableOk(LimitsOf(w), t);
    match st
    case InsertInto(_, owner, displayId, texts) =>
      InsertKeeps(t, LimitsOf(w), owner, displayId, texts, now);
    case UpdateOf(_, owner, displayId, name, description) =>
      UpdateKeeps(t, LimitsOf(w), owner, displayId, name, description, now);
  }

  /** Every statement keeps uniqueness, the column limits, the sequences and the references, loses no
      row, and leaves the display id, owner, kind and creation time of every row as they were. */
  lemma StatementKeeps(s: Tables, st: Stmt, now: int)
    requires TablesOk(s)
    ensures TablesOk(Execute(s, st, now).0) && TablesExtend(s, Execute(s, st, now).0)
  {
    var s' := Execute(s, st, now).0;
    StatementKeepsTable(s, st, now);
    forall w ensures TableOk(LimitsOf(w), TableOf(s', w)) && Extends(TableOf(s, w).rows, TableOf(s', w).rows) {
      assert TableOk(LimitsOf(w), TableOf(s, w));
    }
    assert Extends(TableOf(s, Projects).rows, TableOf(s', Projects).rows);
    forall w ensures OwnersExist(s', w) { OwnersKept(s, s', st.which, w); }
  }

  lemma OwnersKept(s: Tables, s': Tables, changed: Which, w: Which)
    requires OwnersExist(s, w) && Extends(s.projects.rows, s'.projects.rows)
    requires Extends(TableOf(s, w).rows, TableOf(s', w).rows)
    requires w != changed ==> TableOf(s', w) == TableOf(s, w)
    requires w == changed ==>
      forall i :: |TableOf(s, w).rows| <= i < |TableOf(s', w).rows| ==> OwnerOk(s, w, TableOf(s', w).rows[i].owner)
    ensures OwnersExist(s', w)
  {
    var rows, rows' := TableOf(s, w).rows, TableOf(s', w).rows;
    forall i | 0 <= i < |rows'| ensures OwnerOk(s', w, rows'[i].owner) {
      if i < |rows| { assert SameIdentity(rows[i], rows'[i]) && OwnerOk(s, w, rows[i].owner); }
      assert OwnerOk(s, w, rows'[i].owner);
      if w.Roles? || w.Groups? { ProjectsStay(s, s', rows'[i].owner); }
    }
  }

  /** A run: statements with the clock each one sees. */
  function Run(s: Tables, stmts: seq<(Stmt, int)>): Tables
    decreases |stmts|
  {
    if stmts == [] then s else Execute(Run(s, stmts[..|stmts| - 1]), stmts[|stmts| - 1].0, stmts[|stmts| - 1].1).0
  }

  const EMPTY_TABLES := Tables(Table([], 1), Table([], 1), Table([], 1), Table([], 1))

  /** Whatever handlers run, and however their statements interleave. */
  lemma {:induction false} RunKeeps(s: Tables, stmts: seq<(Stmt, int)>)
    requires TablesOk(s)
    ensures TablesOk(Run(s, stmts)) && TablesExtend(s, Run(s, stmts))
    decreases |stmts|
  {
    if stmts != [] {
      var before := Run(s, stmts[..|stmts| - 1]);
      RunKeeps(s, stmts[..|stmts| - 1]);
      StatementKeeps(before, stmts[|stmts| - 1].0, stmts[|stmts| - 1].1);
      forall w ensures Extends(TableOf(s, w).rows, TableOf(Run(s, stmts), w).rows) {
        ExtendsTrans(TableOf(s, w).rows, TableOf(before, w).rows, TableOf(Run(s, stmts), w).rows);
      }
    }
  }

  lemma EmptyOk()
    ensures TablesOk(EMPTY_TABLES)
  {
    forall w ensures TableOk(LimitsOf(w), TableOf(EMPTY_TABLES, w)) && OwnersExist(EMPTY_TABLES, w) {
      assert TableOf(EMPTY_TABLES, w) == Table([], 1);
    }
  }

  /** Every state the tables can reach from the start, and every later state: what holds, and what the
      later state still has of the earlier one. */
  lemma EveryRunOk(stmts: seq<(Stmt, int)>, more: seq<(Stmt, int)>)
    ensures TablesOk(Run(EMPTY_TABLES, stmts))
    ensures TablesExtend(Run(EMPTY_TABLES, stmts), Run(EMPTY_TABLES, stmts + more))
  {
    EmptyOk();
    RunKeeps(EMPTY_TABLES, stmts);
    RunSplit(EMPTY_TABLES, stmts, more);
    RunKeeps(Run(EMPTY_TABLES, stmts), more);
  }

  lemma {:induction false} RunSplit(s: Tables, stmts: seq<(Stmt, int)>, more: seq<(Stmt, int)>)
    ensures Run(s, stmts + more) == Run(Run(s, stmts), more)
    decreases |more|
  {
    if more == [] {
      assert stmts + more == stmts;
    } else {
      var n := |more| - 1;
      assert (stmts + more)[..|stmts| + n] == stmts + more[..n];
      RunSplit(s, stmts, more[..n]);
    }
  }
}
