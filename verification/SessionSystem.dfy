/** The session protocol as a transition system: login, callback, session middleware, refresh and
    logout as interleaved sequences of atomic Redis commands over one key-value map and one clock.

    The session store and the OAuth state store are built on one Redis client with one key prefix,
    so there is one map. Times and durations are in nanoseconds. */
module SessionSystem {
  import opened Wrappers
  import opened Numbers

  datatype TeamMembership = TeamMembership(orgName: string, teamName: string, role: string)

  datatype Session = Session(
    id: string, userID: string, gitHubUserID: int, gitHubUsername: string, email: string, name: string,
    avatarURL: string, accessToken: string, refreshToken: string, teamMemberships: seq<TeamMembership>,
    expiresAt: int, createdAt: int)

  const KEY_PREFIX := "session:"

  function Key(id: string): string { KEY_PREFIX + id }

  lemma KeyInjective(a: string, b: string)
    ensures Key(a) == "session:" + a
    ensures Key(a) == Key(b) ==> a == b
  {
    assert Key(a)[|KEY_PREFIX|..] == a && Key(b)[|KEY_PREFIX|..] == b;
  }

  // ---------- Redis ----------

  datatype Deadline = Never | At(time: int)

  datatype Entry = Entry(value: Session, deadline: Deadline)

  type Db = map<string, Entry>

  predicate LiveAt(e: Entry, now: int) { e.deadline.Never? || now < e.deadline.time }

  /** GET: an entry whose deadline has come is as good as absent. */
  function GetCmd(db: Db, key: string, now: int): Option<Session> {
    if key in db && LiveAt(db[key], now) then Some(db[key].value) else None
  }

  const MILLISECOND := 1_000_000

  /** The expiration the driver sends: whole milliseconds, cut down, and at least one. */
  function Sent(ttl: int): (ms: int)
    requires ttl > 0
    ensures ms > 0 && ms % 1_000_000 == 0 && ttl - 1_000_000 < ms && (ms <= ttl || ms == 1_000_000)
  {
    if ttl < MILLISECOND then MILLISECOND else ttl - ttl % MILLISECOND
  }

  /** The deadline of a SET that takes effect at some time; an expiration that is not positive sets
      none. */
  function DeadlineAt(at: int, ttl: int): Deadline { if ttl > 0 then At(at + Sent(ttl)) else Never }

  /** SET with an expiration. */
  function SetCmd(db: Db, key: string, value: Session, now: int, ttl: int): Db {
    db[key := Entry(value, DeadlineAt(now, ttl))]
  }

  function DelCmd(db: Db, key: string): Db { db - {key} }

  /** The expiration `Create` computes: the time until the session's expiry, or the store's own
      duration when that is past. */
  function CreateTtl(sess: Session, clock: int, storeTtl: int): int {
    if sess.expiresAt - clock <= 0 then storeTtl else sess.expiresAt - clock
  }

  // ---------- Handlers in progress ----------

  datatype Want = WantRefresh | WantLogout | WantOther

  /** Who writes a record: a login or a callback for the first time, or a refresh that read it at
      position `g` of the log. */
  datatype Writer = ByLogin | ByCallback | ByRefresh(g: nat)

  /** Where a handler stands, and what it holds. */
  datatype Pc =
    | ReadingClock(sess: Session, storeTtl: int, writer: Writer)  // Create, before time.Until
    | Writing(sess: Session, clock: int, ttl: int, writer: Writer)  // Create, before SET
    | GettingState(state: string)                             // callback, before GET
    | DeletingState(held: Session, state: string)             // callback, before DEL
    | Exchanging                                              // callback, before the GitHub calls
    | Looking(id: string, want: Want)                         // middleware, before GET
    | Checking(held: Session, want: Want)                     // middleware, before the expiry check
    | Admitted(held: Session, want: Want)                     // the service method starts
    | Refreshing(id: string, newExpiry: int)                  // Refresh, before GET

  /** When the clock was read, the expiration computed from it, and when the SET took effect. */
  datatype Stamp = Stamp(clock: int, ttl: int, at: int)

  /** Commands that took effect, in order. */
  datatype Event =
    | Got(pid: nat, id: string)            // a refresh read the record
    | Wrote(pid: nat, sess: Session, stamp: Stamp)  // SET
    | Deleted(pid: nat, id: string)        // DEL

  datatype Config = Config(sessionTtl: int)

  const STATE_TTL := 600_000_000_000  // ten minutes

  datatype State = State(
    now: int,
    db: Db,
    procs: map<nat, Pc>,
    started: set<nat>,       // handlers ever started
    issued: set<string>,     // identifiers ever generated
    tokens: set<string>,     // those generated by callbacks; the others come from logins
    origins: map<string, Session>, // the record each identifier was generated for
    log: seq<Event>,
    logins: nat,             // logins started
    lost: nat)               // state deletions that failed

  function Init(now: int): State {
    State(now, map[], map[], {}, {}, {}, map[], [], 0, 0)
  }

  datatype Step =
    | Tick(d: nat)
    | BeginLogin(pid: nat, id: string, redirect: string)
    | BeginCallback(pid: nat, state: string)
    | BeginRequest(pid: nat, id: string, want: Want)
    | ClockStep(pid: nat)
    | WriteStep(pid: nat)
    | StateGet(pid: nat)
    | StateDel(pid: nat, ok: bool)
    | Exchange(pid: nat, sess: Session)
    | Lookup(pid: nat)
    | Check(pid: nat)
    | StartRefresh(pid: nat)
    | RefreshGet(pid: nat)
    | LogoutDel(pid: nat, ok: bool)
    | Stop(pid: nat)

  /** A handler can stop wherever it stands: an error was returned, or its work is done. */
  predicate Enabled(s: State, st: Step) {
    match st
    case Tick(_) => true
    case BeginLogin(pid, id, _) => pid !in s.started && id !in s.issued && id != ""
    case BeginCallback(pid, state) => pid !in s.started && state != ""
    case BeginRequest(pid, id, _) => pid !in s.started && id != ""
    case ClockStep(pid) => pid in s.procs && s.procs[pid].ReadingClock?
    case WriteStep(pid) => pid in s.procs && s.procs[pid].Writing?
    case StateGet(pid) => pid in s.procs && s.procs[pid].GettingState?
    case StateDel(pid, _) => pid in s.procs && s.procs[pid].DeletingState?
    case Exchange(pid, sess) => pid in s.procs && s.procs[pid].Exchanging? && sess.id !in s.issued && sess.id != ""
    case Lookup(pid) => pid in s.procs && s.procs[pid].Looking?
    case Check(pid) => pid in s.procs && s.procs[pid].Checking?
    case StartRefresh(pid) => pid in s.procs && s.procs[pid].Admitted? && s.procs[pid].want.WantRefresh?
    case RefreshGet(pid) => pid in s.procs && s.procs[pid].Refreshing?
    case LogoutDel(pid, _) => pid in s.procs && s.procs[pid].Admitted? && s.procs[pid].want.WantLogout?
    case Stop(pid) => pid in s.procs
  }

  /** The record a login stores: the identifier is the OAuth state, the name carries the redirect. */
  function StateSession(id: string, redirect: string, now: int): Session {
    Session(id, "", 0, "", "", redirect, "", "", "", [], now + STATE_TTL, now)
  }

  /** The profile a callback was given, under its new identifier. The user's identifier is the
      provider's number as text. */
  function NewSession(given: Session, id: string, expiresAt: int, createdAt: int): Session {
    given.(id := id, userID := SignedDecimal(given.gitHubUserID), expiresAt := expiresAt, createdAt := createdAt)
  }

  /** The event of a SET. */
  function SetBy(pid: nat, pc: Pc, at: int): Event
    requires pc.Writing?
  {
    Wrote(pid, pc.sess, Stamp(pc.clock, pc.ttl, at))
  }

  function Finish(s: State, pid: nat): State { s.(procs := s.procs - {pid}) }

  /** The steps that start a handler. */
  predicate IsBegin(st: Step) { st.BeginLogin? || st.BeginCallback? || st.BeginRequest? }

  /** The steps that are one GET. */
  predicate IsRead(st: Step) { st.StateGet? || st.Lookup? || st.RefreshGet? }

  /** The steps that are one SET or DEL. */
  predicate IsWrite(st: Step) { st.WriteStep? || st.StateDel? || st.LogoutDel? }

  function Apply(c: Config, s: State, st: Step): State
    requires Enabled(s, st)
  {
    if IsBegin(st) then Begin(s, st)
    else if IsRead(st) then Read(c, s, st)
    else if IsWrite(st) then Write(s, st)
    else Local(c, s, st)
  }

  function Begin(s: State, st: Step): State
    requires Enabled(s, st) && IsBegin(st)
  {
    match st
    case BeginLogin(pid, id, redirect) =>
      var sess := StateSession(id, redirect, s.now);
      s.(procs := s.procs[pid := ReadingClock(sess, STATE_TTL, ByLogin)], started := s.started + {pid},
         issued := s.issued + {id}, origins := s.origins[id := sess], logins := s.logins + 1)
    case BeginCallback(pid, state) =>
      s.(procs := s.procs[pid := GettingState(state)], started := s.started + {pid})
    case BeginRequest(pid, id, want) =>
      s.(procs := s.procs[pid := Looking(id, want)], started := s.started + {pid})
  }

  function Read(c: Config, s: State, st: Step): State
    requires Enabled(s, st) && IsRead(st)
  {
    match st
    case StateGet(pid) =>
      (match GetCmd(s.db, Key(s.procs[pid].state), s.now)
       case None => Finish(s, pid)
       case Some(sess) => s.(procs := s.procs[pid := DeletingState(sess, s.procs[pid].state)]))
    case Lookup(pid) =>
      (match GetCmd(s.db, Key(s.procs[pid].id), s.now)
       case None => Finish(s, pid)
       case Some(sess) => s.(procs := s.procs[pid := Checking(sess, s.procs[pid].want)]))
    case RefreshGet(pid) =>
      var p := s.procs[pid];
      (match GetCmd(s.db, Key(p.id), s.now)
       case None => Finish(s, pid)
       case Some(sess) =>
         s.(procs := s.procs[pid := ReadingClock(sess.(expiresAt := p.newExpiry), c.sessionTtl, ByRefresh(|s.log|))],
            log := s.log + [Got(pid, p.id)]))
  }

  function Write(s: State, st: Step): State
    requires Enabled(s, st) && IsWrite(st)
  {
    match st
    case WriteStep(pid) =>
      var p := s.procs[pid];
      Finish(s, pid).(db := SetCmd(s.db, Key(p.sess.id), p.sess, s.now, p.ttl), log := s.log + [SetBy(pid, p, s.now)])
    case StateDel(pid, ok) =>
      var p := s.procs[pid];
      var s' := s.(procs := s.procs[pid := Exchanging]);
      if ok then s'.(db := DelCmd(s.db, Key(p.state)), log := s.log + [Deleted(pid, p.state)])
      else s'.(lost := s.lost + 1)
    case LogoutDel(pid, ok) =>
      var id := s.procs[pid].held.id;
      if ok then Finish(s, pid).(db := DelCmd(s.db, Key(id)), log := s.log + [Deleted(pid, id)]) else Finish(s, pid)
  }

  function Local(c: Config, s: State, st: Step): State
    requires Enabled(s, st) && !IsBegin(st) && !IsRead(st) && !IsWrite(st)
  {
    match st
    case Tick(d) => s.(now := s.now + d)
    case ClockStep(pid) =>
      var p := s.procs[pid];
      s.(procs := s.procs[pid := Writing(p.sess, s.now, CreateTtl(p.sess, s.now, p.storeTtl), p.writer)])
    case Exchange(pid, given) =>
      var sess := NewSession(given, given.id, s.now + c.sessionTtl, s.now);
      s.(procs := s.procs[pid := ReadingClock(sess, c.sessionTtl, ByCallback)],
         issued := s.issued + {sess.id}, tokens := s.tokens + {sess.id}, origins := s.origins[sess.id := sess])
    case Check(pid) =>
      var p := s.procs[pid];
      if s.now > p.held.expiresAt then Finish(s, pid) else s.(procs := s.procs[pid := Admitted(p.held, p.want)])
    case StartRefresh(pid) =>
      s.(procs := s.procs[pid := Refreshing(s.procs[pid].held.id, s.now + c.sessionTtl)])
    case Stop(pid) => Finish(s, pid)
  }

  /** A run: the state after the steps, if every one was enabled. */
  function Exec(c: Config, s: State, steps: seq<Step>): Option<State>
    decreases |steps|
  {
    if steps == [] then Some(s)
    else
      match Exec(c, s, steps[..|steps| - 1])
      case None => None
      case Some(s1) =>
        var st := steps[|steps| - 1];
        if Enabled(s1, st) then Some(Apply(c, s1, st)) else None
  }

  ghost predicate Reachable(c: Config, s: State) {
    exists start: int, steps: seq<Step> :: Exec(c, Init(start), steps) == Some(s)
  }

  lemma ReachStep(c: Config, s: State, st: Step)
    requires Reachable(c, s) && Enabled(s, st)
    ensures Reachable(c, Apply(c, s, st))
  {
    var start: int, steps: seq<Step> :| Exec(c, Init(start), steps) == Some(s);
    var more := steps + [st];
    assert more[..|more| - 1] == steps;
    assert Exec(c, Init(start), more) == Some(Apply(c, s, st));
  }
}
