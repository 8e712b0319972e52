/** The session theorems: what holds in every state of every interleaving, and what more holds when
    handlers run one after another. */
module SessionTheorems {
  import opened Wrappers
  import opened SessionSystem
  import opened SessionSafety
  import opened SessionLogout
  import opened SessionHistory

  // ---------- The map is the log replayed ----------

  /** The write that counts under an identifier, after one event more. */
  function After(e: Event, before: Option<Event>, id: string): Option<Event> {
    match e
    case Wrote(_, sess, _) => if sess.id == id then Some(e) else before
    case Deleted(_, del) => if del == id then None else before
    case Got(_, _) => before
  }

  /** The last write under an identifier, unless it was deleted since. */
  function LastWrite(log: seq<Event>, id: string): (e: Option<Event>)
    ensures e.Some? ==> e.value.Wrote? && e.value.sess.id == id && e.value in log
    decreases |log|
  {
    if log == [] then None else After(log[|log| - 1], LastWrite(log[..|log| - 1], id), id)
  }

  /** What is stored under an identifier after one event. */
  function StoredAfter(e: Event, before: Option<Session>, id: string): Option<Session> {
    match e
    case Wrote(_, sess, _) => if sess.id == id then Some(sess) else before
    case Deleted(_, del) => if del == id then None else before
    case Got(_, _) => before
  }

  /** What the log says is stored under an identifier. */
  function LastOf(log: seq<Event>, id: string): Option<Session> {
    if log == [] then None else StoredAfter(log[|log| - 1], LastOf(log[..|log| - 1], id), id)
  }

  lemma {:induction false} LastOfWrite(log: seq<Event>, id: string)
    ensures LastOf(log, id) == if LastWrite(log, id).Some? then Some(LastWrite(log, id).value.sess) else None
    decreases |log|
  {
    if log != [] { LastOfWrite(log[..|log| - 1], id); }
  }

  function Stored(db: Db, id: string): Option<Session> {
    if Key(id) in db then Some(db[Key(id)].value) else None
  }

  ghost predicate ReplayInv(s: State) { forall id :: Stored(s.db, id) == LastOf(s.log, id) }

  lemma LastStep(log: seq<Event>, e: Event)
    ensures forall id :: LastOf(log + [e], id) == StoredAfter(e, LastOf(log, id), id)
  {
    assert (log + [e])[..|log|] == log;
  }

  lemma LastWriteStep(log: seq<Event>, e: Event)
    ensures forall id :: LastWrite(log + [e], id) == After(e, LastWrite(log, id), id)
  {
    assert (log + [e])[..|log|] == log;
  }

  lemma StoredSet(db: Db, sess: Session, now: int, ttl: int)
    ensures forall id ::
      Stored(SetCmd(db, Key(sess.id), sess, now, ttl), id) == if id == sess.id then Some(sess) else Stored(db, id)
  {
    forall id
      ensures Stored(SetCmd(db, Key(sess.id), sess, now, ttl), id) ==
        if id == sess.id then Some(sess) else Stored(db, id)
    {
      KeyInjective(id, sess.id);
    }
  }

  lemma StoredDel(db: Db, del: string)
    ensures forall id :: Stored(DelCmd(db, Key(del)), id) == if id == del then None else Stored(db, id)
  {
    forall id ensures Stored(DelCmd(db, Key(del)), id) == if id == del then None else Stored(db, id) {
      KeyInjective(id, del);
    }
  }

  lemma ReplayWrite(s: State, st: Step)
    requires ReplayInv(s) && Enabled(s, st) && IsWrite(st)
    ensures ReplayInv(Write(s, st))
  {
    match st
    case WriteStep(pid) =>
      var p := s.procs[pid];
      StoredSet(s.db, p.sess, s.now, p.ttl);
      LastStep(s.log, SetBy(pid, p, s.now));
    case StateDel(pid, ok) =>
      StoredDel(s.db, s.procs[pid].state);
      LastStep(s.log, Deleted(pid, s.procs[pid].state));
    case LogoutDel(pid, ok) =>
      StoredDel(s.db, s.procs[pid].held.id);
      LastStep(s.log, Deleted(pid, s.procs[pid].held.id));
  }

  lemma ReplayRead(c: Config, s: State, st: Step)
    requires ReplayInv(s) && Enabled(s, st) && IsRead(st)
    ensures ReplayInv(Read(c, s, st))
  {
    var t := Read(c, s, st);
    if t.log != s.log { LastStep(s.log, t.log[|s.log|]); }
  }

  /** Every step keeps: what is stored under an identifier is what the log of commands left there. */
  lemma ReplayKept(c: Config, s: State, st: Step)
    requires ReplayInv(s) && Enabled(s, st)
    ensures ReplayInv(Apply(c, s, st))
  {
    if IsBegin(st) { assert Begin(s, st).db == s.db && Begin(s, st).log == s.log; }
    else if IsRead(st) { ReplayRead(c, s, st); }
    else if IsWrite(st) { ReplayWrite(s, st); }
    else { assert Local(c, s, st).db == s.db && Local(c, s, st).log == s.log; }
  }

  /** The deadline of a record is the one its last SET gave it. */
  ghost predicate DeadlineInv(s: State) {
    forall id | Key(id) in s.db :: LastWrite(s.log, id).Some? && s.db[Key(id)] == EntryOf(LastWrite(s.log, id).value)
  }

  function EntryOf(e: Event): Entry
    requires e.Wrote?
  {
    Entry(e.sess, DeadlineAt(e.stamp.at, e.stamp.ttl))
  }

  lemma DeadlineWrite(s: State, st: Step)
    requires DeadlineInv(s) && Enabled(s, st) && IsWrite(st)
    ensures DeadlineInv(Write(s, st))
  {
    var t, pc := Write(s, st), s.procs[st.pid];
    match st
    case WriteStep(pid) =>
      LastWriteStep(s.log, SetBy(pid, pc, s.now));
      forall id | Key(id) in t.db
        ensures LastWrite(t.log, id).Some? && t.db[Key(id)] == EntryOf(LastWrite(t.log, id).value)
      {
        KeyInjective(id, pc.sess.id);
      }
    case StateDel(pid, ok) => LastWriteStep(s.log, Deleted(pid, pc.state));
    case LogoutDel(pid, ok) => LastWriteStep(s.log, Deleted(pid, pc.held.id));
  }

  /** Every step keeps: what is stored is what the last SET stored, with the deadline it set. */
  lemma DeadlineKept(c: Config, s: State, st: Step)
    requires DeadlineInv(s) && Enabled(s, st)
    ensures DeadlineInv(Apply(c, s, st))
  {
    if IsBegin(st) { assert Begin(s, st).db == s.db && Begin(s, st).log == s.log; }
    else if IsRead(st) { DeadlineRead(c, s, st); }
    else if IsWrite(st) { DeadlineWrite(s, st); }
    else { assert Local(c, s, st).db == s.db && Local(c, s, st).log == s.log; }
  }

  lemma DeadlineRead(c: Config, s: State, st: Step)
    requires DeadlineInv(s) && Enabled(s, st) && IsRead(st)
    ensures DeadlineInv(Read(c, s, st))
  {
    var t := Read(c, s, st);
    if t.log != s.log { LastWriteStep(s.log, t.log[|s.log|]); }
  }

  // ---------- Every reachable state ----------

  ghost predicate Inv(c: Config, s: State) {
    && RecordInv(s) && ExpiryInv(c, s) && OrderInv(s) && LogoutInv(s) && ReplayInv(s)
    && DeadlineInv(s) && StampInv(c, s) && OriginInv(s)
  }

  lemma InvInit(c: Config, start: int)
    ensures Inv(c, Init(start))
  {
  }

  lemma InvKept(c: Config, s: State, st: Step)
    requires Inv(c, s) && Enabled(s, st)
    ensures Inv(c, Apply(c, s, st))
  {
    RecordKept(c, s, st);
    ExpiryKept(c, s, st);
    OrderKept(c, s, st);
    LogoutKept(c, s, st);
    ReplayKept(c, s, st);
    DeadlineKept(c, s, st);
    StampKept(c, s, st);
    OriginKept(c, s, st);
  }

  lemma {:induction false} InvExec(c: Config, start: int, steps: seq<Step>)
    ensures Exec(c, Init(start), steps).Some? ==> Inv(c, Exec(c, Init(start), steps).value)
    decreases |steps|
  {
    if steps == [] {
      InvInit(c, start);
    } else {
      var before, st := steps[..|steps| - 1], steps[|steps| - 1];
      InvExec(c, start, before);
      match Exec(c, Init(start), before)
      case None =>
      case Some(s1) => if Enabled(s1, st) { InvKept(c, s1, st); }
    }
  }

  lemma InvReachable(c: Config, s: State)
    requires Reachable(c, s)
    ensures Inv(c, s)
  {
    var start: int, steps: seq<Step> :| Exec(c, Init(start), steps) == Some(s);
    InvExec(c, start, steps);
  }

  /** Under every interleaving: a record sits at the prefix plus its own identifier; any two records
      ever written under one identifier differ at most in their expiry; and no expiry in the store is
      further ahead than the longer of the session duration and ten minutes. */
  lemma RecordsAgree(c: Config, s: State)
    requires Reachable(c, s)
    ensures forall k | k in s.db :: k == Key(s.db[k].value.id) && s.db[k].value.expiresAt <= s.now + MaxTtl(c)
    ensures forall i, j | 0 <= i < |s.log| && 0 <= j < |s.log| && s.log[i].Wrote? && s.log[j].Wrote?
                          && s.log[i].sess.id == s.log[j].sess.id :: SameRecord(s.log[i].sess, s.log[j].sess)
    ensures forall id :: Stored(s.db, id) == LastOf(s.log, id)
  {
    InvReachable(c, s);
    forall k | k in s.db
      ensures k == Key(s.db[k].value.id) && s.db[k].value.expiresAt <= s.now + MaxTtl(c)
    {
      assert EntryTimes(c, s.now, s.db[k]);
    }
  }

  /** Under every interleaving: an identifier that was deleted and is readable was brought back by one
      refresh that did its GET before the deletion and its SET after it. */
  lemma ComesBackOnlyByStraddling(c: Config, s: State, id: string, d: nat)
    requires Reachable(c, s) && DeletedAt(s.log, d, id)
    requires GetCmd(s.db, Key(id), s.now).Some?
    ensures Straddled(s.log, id, d)
  {
    InvReachable(c, s);
  }

  /** The last deletion of an identifier. */
  ghost predicate LastDeletion(log: seq<Event>, d: nat, id: string) {
    DeletedAt(log, d, id) && forall e: nat | DeletedAt(log, e, id) :: e <= d
  }

  /** A write with no later deletion leaves a record. */
  lemma {:induction false} WriteStays(log: seq<Event>, id: string, d: nat)
    requires WrittenAfter(log, id, d) && forall e: nat | DeletedAt(log, e, id) :: e <= d
    ensures LastWrite(log, id).Some?
    decreases |log|
  {
    var front, last := log[..|log| - 1], log[|log| - 1];
    assert log == front + [last];
    LastWriteStep(front, last);
    LogFacts(front, last);
    var n: nat := |front|;
    assert DeletedAt(log, n, id) ==> n <= d;
    if !(last.Wrote? && last.sess.id == id) { WriteStays(front, id, d); }
  }

  lemma StraddledIsWritten(log: seq<Event>, id: string, d: nat)
    requires Straddled(log, id, d)
    ensures WrittenAfter(log, id, d)
  {
    var pid: nat, g: nat, w: nat :| Straddles(log, id, d, pid, g, w);
    assert log[w].Wrote?;
  }

  /** A GET at some time comes before the deadline a SET gave its record. */
  predicate InTime(e: Event, t: int)
    requires e.Wrote?
  {
    e.stamp.ttl <= 0 || t < e.stamp.at + Sent(e.stamp.ttl)
  }

  /** Such a GET comes before the deadline of the last SET that no deletion followed. */
  predicate LastInTime(log: seq<Event>, id: string, t: int) {
    LastWrite(log, id).Some? && InTime(LastWrite(log, id).value, t)
  }

  /** Under every interleaving: after its last deletion an identifier is stored again if and only if
      one refresh straddled that deletion, and a GET finds it if and only if, in addition, the deadline
      of the last SET has not come. */
  lemma BackExactly(c: Config, s: State, id: string, d: nat, t: int)
    requires Reachable(c, s) && LastDeletion(s.log, d, id)
    ensures Stored(s.db, id).Some? <==> Straddled(s.log, id, d)
    ensures GetCmd(s.db, Key(id), t).Some? <==> Straddled(s.log, id, d) && LastInTime(s.log, id, t)
  {
    InvReachable(c, s);
    assert Stored(s.db, id) == LastOf(s.log, id);
    LastOfWrite(s.log, id);
    if Straddled(s.log, id, d) {
      StraddledIsWritten(s.log, id, d);
      WriteStays(s.log, id, d);
    }
  }

  /** A refresh request up to its GET. */
  lemma RefreshReads(c: Config, s: State, id: string, p: nat) returns (t: State)
    requires Reachable(c, s) && id != "" && p !in s.started
    requires GetCmd(s.db, Key(id), s.now).Some? && s.now <= GetCmd(s.db, Key(id), s.now).value.expiresAt
    ensures Reachable(c, t) && t.now == s.now && t.db == s.db && t.started == s.started + {p}
    ensures p in t.procs && t.procs[p].ReadingClock? && t.procs[p].sess.id == id
    ensures t.procs[p].sess.expiresAt == s.now + c.sessionTtl
  {
    OwnIsFound(c, s, id);
    t := Apply(c, s, BeginRequest(p, id, WantRefresh));
    ReachStep(c, s, BeginRequest(p, id, WantRefresh));
    t := RefreshReadsOn(c, t, id, p);
  }

  lemma RefreshReadsOn(c: Config, s: State, id: string, p: nat) returns (t: State)
    requires Reachable(c, s) && p in s.procs && s.procs[p] == Looking(id, WantRefresh)
    requires GetCmd(s.db, Key(id), s.now).Some? && GetCmd(s.db, Key(id), s.now).value.id == id
    requires s.now <= GetCmd(s.db, Key(id), s.now).value.expiresAt
    ensures Reachable(c, t) && t.now == s.now && t.db == s.db && t.started == s.started && t.log == s.log + [Got(p, id)]
    ensures p in t.procs && t.procs[p].ReadingClock? && t.procs[p].sess.id == id
    ensures t.procs[p].sess.expiresAt == s.now + c.sessionTtl
  {
    t := s;
    ReachStep(c, t, Lookup(p));
    t := Apply(c, t, Lookup(p));
    ReachStep(c, t, Check(p));
    t := Apply(c, t, Check(p));
    ReachStep(c, t, StartRefresh(p));
    t := Apply(c, t, StartRefresh(p));
    ReachStep(c, t, RefreshGet(p));
    t := Apply(c, t, RefreshGet(p));
  }

  /** A whole logout request. */
  lemma LogoutRuns(c: Config, s: State, id: string, q: nat) returns (t: State)
    requires Reachable(c, s) && id != "" && q !in s.started
    requires GetCmd(s.db, Key(id), s.now).Some? && GetCmd(s.db, Key(id), s.now).value.id == id
    requires s.now <= GetCmd(s.db, Key(id), s.now).value.expiresAt
    ensures Reachable(c, t) && t.now == s.now && t.log == s.log + [Deleted(q, id)]
    ensures forall p | p in s.procs && p != q :: p in t.procs && t.procs[p] == s.procs[p]
  {
    t := s;
    ReachStep(c, t, BeginRequest(q, id, WantLogout));
    t := Apply(c, t, BeginRequest(q, id, WantLogout));
    ReachStep(c, t, Lookup(q));
    t := Apply(c, t, Lookup(q));
    ReachStep(c, t, Check(q));
    t := Apply(c, t, Check(q));
    ReachStep(c, t, LogoutDel(q, true));
    t := Apply(c, t, LogoutDel(q, true));
  }

  /** The rest of the refresh. */
  lemma RefreshWrites(c: Config, s: State, p: nat) returns (t: State)
    requires Reachable(c, s) && p in s.procs && s.procs[p].ReadingClock?
    requires s.now < s.procs[p].sess.expiresAt
    ensures Reachable(c, t) && t.now == s.now
    ensures t.log ==
      s.log + [SetBy(p, Writing(s.procs[p].sess, s.now, s.procs[p].sess.expiresAt - s.now, s.procs[p].writer), s.now)]
    ensures GetCmd(t.db, Key(s.procs[p].sess.id), t.now) == Some(s.procs[p].sess)
  {
    t := s;
    ReachStep(c, t, ClockStep(p));
    t := Apply(c, t, ClockStep(p));
    ReachStep(c, t, WriteStep(p));
    t := Apply(c, t, WriteStep(p));
  }

  /** The straddling refresh is always possible: from any reachable state, a readable and unexpired
      session can be logged out and be readable afterwards. */
  lemma StraddlingBringsBack(c: Config, s: State, id: string, p: nat, q: nat) returns (t: State)
    requires Reachable(c, s) && c.sessionTtl > 0 && id != "" && p !in s.started && q !in s.started && p != q
    requires GetCmd(s.db, Key(id), s.now).Some? && s.now <= GetCmd(s.db, Key(id), s.now).value.expiresAt
    ensures Reachable(c, t) && |t.log| >= 2 && DeletedAt(t.log, |t.log| - 2, id)
    ensures GetCmd(t.db, Key(id), t.now).Some?
  {
    t := ReadAndLogout(c, s, id, p, q);
    t := RefreshWrites(c, t, p);
  }

  /** A refresh up to its GET, and then a whole logout. */
  lemma ReadAndLogout(c: Config, s: State, id: string, p: nat, q: nat) returns (t: State)
    requires Reachable(c, s) && id != "" && p !in s.started && q !in s.started && p != q
    requires GetCmd(s.db, Key(id), s.now).Some? && s.now <= GetCmd(s.db, Key(id), s.now).value.expiresAt
    ensures Reachable(c, t) && t.now == s.now && |t.log| >= 1 && t.log[|t.log| - 1] == Deleted(q, id)
    ensures p in t.procs && t.procs[p].ReadingClock? && t.procs[p].sess.id == id
    ensures t.procs[p].sess.expiresAt == s.now + c.sessionTtl
  {
    OwnIsFound(c, s, id);
    t := RefreshReads(c, s, id, p);
    t := LogoutRuns(c, t, id, q);
  }

  lemma OwnIsFound(c: Config, s: State, id: string)
    requires Reachable(c, s) && GetCmd(s.db, Key(id), s.now).Some?
    ensures GetCmd(s.db, Key(id), s.now).value.id == id
  {
    InvReachable(c, s);
    GetIsOwn(s, id);
  }

  // ---------- Using an OAuth state ----------

  /** Under every interleaving: a callback that looks up a state deleted before gets on if and only if
      a refresh straddled the last deletion and the deadline of the last SET has not come. */
  lemma StateOnce(c: Config, s: State, q: nat, d: nat)
    requires Reachable(c, s) && q in s.procs && s.procs[q].GettingState? && LastDeletion(s.log, d, s.procs[q].state)
    ensures var state := s.procs[q].state;
      q in Apply(c, s, StateGet(q)).procs <==> Straddled(s.log, state, d) && LastInTime(s.log, state, s.now)
  {
    BackExactly(c, s, s.procs[q].state, d, s.now);
  }

  /** A callback up to its DEL. */
  lemma CallbackReads(c: Config, s: State, p: nat, state: string) returns (t: State)
    requires Reachable(c, s) && p !in s.started && state != "" && GetCmd(s.db, Key(state), s.now).Some?
    ensures Reachable(c, t) && t.now == s.now && t.db == s.db && t.log == s.log && t.issued == s.issued
    ensures t.started == s.started + {p}
    ensures t.procs == s.procs[p := DeletingState(GetCmd(s.db, Key(state), s.now).value, state)]
  {
    t := Apply(c, s, BeginCallback(p, state));
    ReachStep(c, s, BeginCallback(p, state));
    ReachStep(c, t, StateGet(p));
    t := Apply(c, t, StateGet(p));
  }

  lemma CallbackDeletes(c: Config, s: State, p: nat) returns (t: State)
    requires Reachable(c, s) && p in s.procs && s.procs[p].DeletingState?
    ensures Reachable(c, t) && t.now == s.now && t.issued == s.issued && t.started == s.started
    ensures t.procs == s.procs[p := Exchanging] && t.log == s.log + [Deleted(p, s.procs[p].state)]
  {
    ReachStep(c, s, StateDel(p, true));
    t := Apply(c, s, StateDel(p, true));
  }

  /** The rest of a callback: a session under a fresh identifier. */
  lemma CallbackSigns(c: Config, s: State, p: nat, given: Session) returns (t: State, e: Event)
    requires Reachable(c, s) && p in s.procs && s.procs[p].Exchanging? && given.id !in s.issued && given.id != ""
    ensures Reachable(c, t) && t.issued == s.issued + {given.id} && t.procs == s.procs - {p}
    ensures IsWrote(e, p, given.id) && t.log == s.log + [e]
  {
    ReachStep(c, s, Exchange(p, given));
    t := Apply(c, s, Exchange(p, given));
    ReachStep(c, t, ClockStep(p));
    t := Apply(c, t, ClockStep(p));
    e := SetBy(p, t.procs[p], t.now);
    ReachStep(c, t, WriteStep(p));
    t := Apply(c, t, WriteStep(p));
    assert t.procs == s.procs - {p};
  }

  /** A state is not single-use: from every reachable state in which it can be read there is a run in
      which two callbacks read it, both delete it, and both store a session. */
  lemma StateUsedTwice(c: Config, s: State, state: string, p: nat, q: nat, x: Session, y: Session)
    returns (t: State, a: Event, b: Event)
    requires Reachable(c, s) && state != "" && GetCmd(s.db, Key(state), s.now).Some?
    requires p != q && p !in s.started && q !in s.started
    requires x.id != y.id && x.id !in s.issued && y.id !in s.issued && x.id != "" && y.id != ""
    ensures Reachable(c, t) && IsWrote(a, p, x.id) && IsWrote(b, q, y.id)
    ensures t.log == s.log + [Deleted(p, state)] + [Deleted(q, state)] + [a] + [b]
  {
    t := CallbackReads(c, s, p, state);
    t := CallbackReads(c, t, q, state);
    t := CallbackDeletes(c, t, p);
    t := CallbackDeletes(c, t, q);
    t, a := CallbackSigns(c, t, p, x);
    t, b := CallbackSigns(c, t, q, y);
  }

  // ---------- Double expiry ----------

  /** The middleware's decision, when its GET takes effect at `t1` and its expiry check at `t2`. */
  function Admits(db: Db, id: string, t1: int, t2: int): Option<Session> {
    match GetCmd(db, Key(id), t1)
    case None => None
    case Some(sess) => if t2 > sess.expiresAt then None else Some(sess)
  }

  /** Under every interleaving: the last write under `id`, if no deletion followed, is admitted when its
      GET comes a millisecond or more before its expiry and the check not after it, and it is never
      admitted after it. At any time, it is admitted exactly when its GET comes before the deadline that
      the SET gave it, counted from the moment of the SET, and its check not after the expiry. */
  lemma ExpirySandwich(c: Config, s: State, id: string, e: Event, t1: int, t2: int)
    requires Reachable(c, s) && LastWrite(s.log, id) == Some(e) && s.now <= t1 <= t2
    ensures t1 <= e.sess.expiresAt - MILLISECOND && t2 <= e.sess.expiresAt ==> Admits(s.db, id, t1, t2) == Some(e.sess)
    ensures t2 > e.sess.expiresAt ==> Admits(s.db, id, t1, t2) == None
    ensures Admits(s.db, id, t1, t2) == if InTime(e, t1) && t2 <= e.sess.expiresAt then Some(e.sess) else None
    ensures StampOk(c, s.now, e)
  {
    EntryKnown(c, s, id, e);
  }

  /** What is stored under an identifier, in terms of the last SET. */
  lemma EntryKnown(c: Config, s: State, id: string, e: Event)
    requires Reachable(c, s) && LastWrite(s.log, id) == Some(e)
    ensures Key(id) in s.db && s.db[Key(id)] == EntryOf(e) && Covers(s.db[Key(id)]) && StampOk(c, s.now, e)
  {
    InvReachable(c, s);
    LastOfWrite(s.log, id);
    assert Stored(s.db, id) == LastOf(s.log, id) == Some(e.sess);
    assert EntryTimes(c, s.now, s.db[Key(id)]);
    var i :| 0 <= i < |s.log| && s.log[i] == e;
    assert StampOk(c, s.now, s.log[i]);
  }

  /** What is lost of an expiration when it is cut to milliseconds. */
  function CutOff(ttl: int): int
    requires ttl > 0
  {
    ttl - Sent(ttl)
  }

  /** Every request up to the expiry, from now on, is admitted. */
  ghost predicate AdmittedThroughout(s: State, id: string, sess: Session) {
    forall t1, t2 | s.now <= t1 <= t2 <= sess.expiresAt :: Admits(s.db, id, t1, t2) == Some(sess)
  }

  /** Under every interleaving: a record is admitted up to its expiry if and only if the SET came later
      after the reading of the clock than what was cut off the expiration, or the clock had already
      reached the expiry. */
  lemma AdmittedToTheEnd(c: Config, s: State, id: string, e: Event)
    requires Reachable(c, s) && LastWrite(s.log, id) == Some(e) && s.now <= e.sess.expiresAt
    ensures AdmittedThroughout(s, id, e.sess) <==>
      e.stamp.clock >= e.sess.expiresAt || e.stamp.at - e.stamp.clock > CutOff(e.sess.expiresAt - e.stamp.clock)
  {
    var end := e.sess.expiresAt;
    ExpirySandwich(c, s, id, e, end, end);
    if InTime(e, end) {
      forall t1, t2 | s.now <= t1 <= t2 <= end ensures Admits(s.db, id, t1, t2) == Some(e.sess) {
        ExpirySandwich(c, s, id, e, t1, t2);
      }
    } else {
      assert Admits(s.db, id, end, end) == None;
    }
  }

  /** The millisecond is needed: a login whose clock reading comes a nanosecond after its expiry was
      set leaves a record that is refused one nanosecond less than a millisecond before it expires. */
  lemma CutShort(c: Config, start: int, pid: nat, id: string) returns (s: State, sess: Session)
    requires id != ""
    ensures Reachable(c, s) && LastOf(s.log, id) == Some(sess) && s.now < sess.expiresAt - MILLISECOND
    ensures GetCmd(s.db, Key(id), sess.expiresAt - MILLISECOND + 1) == None
  {
    s := Init(start);
    assert Exec(c, Init(start), []) == Some(s);
    ReachStep(c, s, BeginLogin(pid, id, ""));
    s := Apply(c, s, BeginLogin(pid, id, ""));
    ReachStep(c, s, Tick(1));
    s := Apply(c, s, Tick(1));
    sess := StateSession(id, "", start);
    s := LoginWrites(c, s, pid);
    assert Sent(STATE_TTL - 1) == STATE_TTL - MILLISECOND;
  }

  /** The rest of a login: the record is stored. */
  lemma LoginWrites(c: Config, s: State, pid: nat) returns (t: State)
    requires Reachable(c, s) && pid in s.procs && s.procs[pid].ReadingClock?
    ensures var pc := s.procs[pid];
      var ttl := CreateTtl(pc.sess, s.now, pc.storeTtl);
      Reachable(c, t) && t.now == s.now && t.db == SetCmd(s.db, Key(pc.sess.id), pc.sess, s.now, ttl)
      && LastOf(t.log, pc.sess.id) == Some(pc.sess) && t.tokens == s.tokens && t.logins == s.logins
  {
    var pc := s.procs[pid];
    t := Apply(c, s, ClockStep(pid));
    ReachStep(c, s, ClockStep(pid));
    LastStep(t.log, SetBy(pid, t.procs[pid], t.now));
    ReachStep(c, t, WriteStep(pid));
    t := Apply(c, t, WriteStep(pid));
  }

  /** Without a write, or after a deletion, nothing is admitted at any time. */
  lemma NothingToAdmit(c: Config, s: State, id: string, t1: int, t2: int)
    requires Reachable(c, s) && LastOf(s.log, id) == None
    ensures Admits(s.db, id, t1, t2) == None
  {
    InvReachable(c, s);
    assert Stored(s.db, id) == None;
  }

  // ---------- Handlers one after another ----------

  /** A step of a serial run: a handler starts only when none is under way. */
  predicate SerialEnabled(s: State, st: Step) { Enabled(s, st) && (IsBegin(st) ==> s.procs == map[]) }

  function SerialExec(c: Config, s: State, steps: seq<Step>): Option<State>
    decreases |steps|
  {
    if steps == [] then Some(s)
    else
      match SerialExec(c, s, steps[..|steps| - 1])
      case None => None
      case Some(s1) =>
        var st := steps[|steps| - 1];
        if SerialEnabled(s1, st) then Some(Apply(c, s1, st)) else None
  }

  ghost predicate SerialReachable(c: Config, s: State) {
    exists start: int, steps: seq<Step> :: SerialExec(c, Init(start), steps) == Some(s)
  }

  lemma SerialReachStep(c: Config, s: State, st: Step)
    requires SerialReachable(c, s) && SerialEnabled(s, st)
    ensures SerialReachable(c, Apply(c, s, st))
  {
    var start: int, steps: seq<Step> :| SerialExec(c, Init(start), steps) == Some(s);
    var more := steps + [st];
    assert more[..|more| - 1] == steps;
    assert SerialExec(c, Init(start), more) == Some(Apply(c, s, st));
  }

  lemma {:induction false} SerialIsRun(c: Config, s: State, steps: seq<Step>)
    requires SerialExec(c, s, steps).Some?
    ensures Exec(c, s, steps) == SerialExec(c, s, steps)
    decreases |steps|
  {
    if steps != [] { SerialIsRun(c, s, steps[..|steps| - 1]); }
  }

  ghost predicate AtMostOne(procs: Procs) { forall p, q | p in procs && q in procs :: p == q }

  /** What the one handler under way has read is still stored. */
  ghost predicate HeldStored(s: State) {
    forall pid | pid in s.procs && ReadId(s.procs[pid]).Some? :: Stored(s.db, ReadId(s.procs[pid]).value).Some?
  }

  ghost predicate DeletedGone(s: State) {
    forall d: nat, id | DeletedAt(s.log, d, id) :: Stored(s.db, id) == None
  }

  /** The handler will store one record more. */
  predicate WillCreate(pc: Pc) { pc.Exchanging? || Creating(pc) }

  function Pending(procs: Procs): set<nat> { set pid | pid in procs && WillCreate(procs[pid]) }

  ghost predicate Balanced(s: State) { |s.db| + |Pending(s.procs)| <= s.logins + s.lost }

  ghost predicate SerialInv(s: State) {
    AtMostOne(s.procs) && HeldStored(s) && DeletedGone(s) && Balanced(s)
  }

  lemma OneProc(procs: Procs, pid: nat, next: Pc)
    requires AtMostOne(procs) && pid in procs
    ensures procs == map[pid := procs[pid]] && procs - {pid} == map[] && procs[pid := next] == map[pid := next]
  {
  }

  lemma PendingOne(pid: nat, pc: Pc)
    ensures |Pending(map[])| == 0
    ensures |Pending(map[pid := pc])| == if WillCreate(pc) then 1 else 0
  {
    assert Pending(map[pid := pc]) == if WillCreate(pc) then {pid} else {};
  }

  lemma SizeSet(db: Db, key: string, e: Entry)
    ensures |db[key := e]| == if key in db then |db| else |db| + 1
  {
    assert db[key := e].Keys == db.Keys + {key};
    assert |db[key := e]| == |db[key := e].Keys| && |db| == |db.Keys|;
  }

  lemma SizeDel(db: Db, key: string)
    ensures |DelCmd(db, key)| == if key in db then |db| - 1 else |db|
  {
    assert DelCmd(db, key).Keys == db.Keys - {key};
    assert |DelCmd(db, key)| == |DelCmd(db, key).Keys| && |db| == |db.Keys|;
  }

  lemma SerialBegin(s: State, st: Step)
    requires SerialInv(s) && SerialEnabled(s, st) && IsBegin(st)
    ensures SerialInv(Begin(s, st))
  {
    var t := Begin(s, st);
    PendingOne(st.pid, t.procs[st.pid]);
    assert t.procs == map[st.pid := t.procs[st.pid]];
  }

  /** The one handler moved on without touching the map. */
  lemma SerialMoved(s: State, t: State, pid: nat, next: Pc, id: string)
    requires SerialInv(s) && pid in s.procs && t.procs == s.procs[pid := next]
    requires t.db == s.db && t.logins == s.logins && t.lost == s.lost
    requires WillCreate(next) == WillCreate(s.procs[pid])
    requires ReadId(next).Some? ==> Stored(s.db, ReadId(next).value).Some?
    requires t.log == s.log || t.log == s.log + [Got(pid, id)]
    ensures SerialInv(t)
  {
    LogFacts(s.log, Got(pid, id));
    OneProc(s.procs, pid, next);
    PendingOne(pid, next);
    PendingOne(pid, s.procs[pid]);
  }

  /** The one handler ended without touching the map. */
  lemma SerialEnded(s: State, t: State, pid: nat)
    requires SerialInv(s) && pid in s.procs && t.procs == s.procs - {pid}
    requires t.db == s.db && t.log == s.log && t.logins == s.logins && t.lost == s.lost
    ensures SerialInv(t)
  {
    OneProc(s.procs, pid, s.procs[pid]);
    PendingOne(pid, s.procs[pid]);
  }

  /** Where a GET leaves its handler. */
  lemma ReadMoves(c: Config, s: State, st: Step, id: string)
    requires Enabled(s, st) && IsRead(st)
    requires id == if st.StateGet? then s.procs[st.pid].state else s.procs[st.pid].id
    ensures var t := Read(c, s, st);
      GetCmd(s.db, Key(id), s.now).None? ==> t == Finish(s, st.pid)
    ensures var t, found := Read(c, s, st), GetCmd(s.db, Key(id), s.now);
      found.Some? ==>
        st.pid in t.procs && SessionOf(t.procs[st.pid]).Some? && SessionOf(t.procs[st.pid]).value.id == found.value.id
        && !WillCreate(t.procs[st.pid]) && t.procs == s.procs[st.pid := t.procs[st.pid]]
        && t == s.(procs := t.procs, log := t.log)
        && (t.log == s.log || t.log == s.log + [Got(st.pid, id)])
  {
  }

  lemma SerialRead(c: Config, s: State, st: Step)
    requires SerialInv(s) && RecordInv(s) && Enabled(s, st) && IsRead(st)
    ensures SerialInv(Read(c, s, st))
  {
    var id := if st.StateGet? then s.procs[st.pid].state else s.procs[st.pid].id;
    ReadMoves(c, s, st, id);
    SerialAnswered(s, Read(c, s, st), st.pid, id);
  }

  lemma SerialAnswered(s: State, t: State, pid: nat, id: string)
    requires SerialInv(s) && RecordInv(s) && pid in s.procs && !WillCreate(s.procs[pid])
    requires GetCmd(s.db, Key(id), s.now).None? ==> t == Finish(s, pid)
    requires var found := GetCmd(s.db, Key(id), s.now);
      found.Some? ==>
        pid in t.procs && SessionOf(t.procs[pid]).Some? && SessionOf(t.procs[pid]).value.id == found.value.id
        && !WillCreate(t.procs[pid]) && t.procs == s.procs[pid := t.procs[pid]]
        && t == s.(procs := t.procs, log := t.log) && (t.log == s.log || t.log == s.log + [Got(pid, id)])
    ensures SerialInv(t)
  {
    if GetCmd(s.db, Key(id), s.now).Some? {
      GetIsOwn(s, id);
      SerialMoved(s, t, pid, t.procs[pid], id);
    } else {
      SerialEnded(s, t, pid);
    }
  }

  /** Only a record that was never deleted is written: a first write is the first, and a refresh
      holds a record that is still stored. */
  lemma WriterNotDeleted(s: State, pid: nat, d: nat)
    requires SerialInv(s) && OrderInv(s) && pid in s.procs && s.procs[pid].Writing?
    ensures !DeletedAt(s.log, d, s.procs[pid].sess.id)
  {
    var pc := s.procs[pid];
    if Creating(pc) {
      assert !Written(s.log, pc.sess.id);
    } else {
      assert ReadId(pc) == Some(pc.sess.id) && Stored(s.db, pc.sess.id).Some?;
    }
  }

  lemma SerialWriteStep(s: State, st: Step)
    requires SerialInv(s) && RecordInv(s) && OrderInv(s) && Enabled(s, st) && st.WriteStep?
    ensures SerialInv(Write(s, st))
  {
    var t, pc := Write(s, st), s.procs[st.pid];
    OneProc(s.procs, st.pid, pc);
    PendingOne(st.pid, pc);
    StoredSet(s.db, pc.sess, s.now, pc.ttl);
    SizeSet(s.db, Key(pc.sess.id), t.db[Key(pc.sess.id)]);
    LogFacts(s.log, SetBy(st.pid, pc, s.now));
    forall d: nat, id | DeletedAt(t.log, d, id) ensures Stored(t.db, id) == None {
      WriterNotDeleted(s, st.pid, d);
    }
    assert !WillCreate(pc) ==> ReadId(pc) == Some(pc.sess.id);
  }

  lemma SerialStateDel(s: State, st: Step)
    requires SerialInv(s) && RecordInv(s) && Enabled(s, st) && st.StateDel?
    ensures SerialInv(Write(s, st))
  {
    var pc := s.procs[st.pid];
    assert PcOk(s.origins, pc) && ReadId(pc) == Some(pc.state);
    if st.ok { StateDeleted(s, Write(s, st), st.pid, pc.state); } else { StateKept(s, Write(s, st), st.pid); }
  }

  lemma StateDeleted(s: State, t: State, pid: nat, id: string)
    requires SerialInv(s) && pid in s.procs && !WillCreate(s.procs[pid]) && ReadId(s.procs[pid]) == Some(id)
    requires t.db == DelCmd(s.db, Key(id)) && t.log == s.log + [Deleted(pid, id)]
    requires t.procs == s.procs[pid := Exchanging]
    requires t.logins == s.logins && t.lost == s.lost
    ensures SerialInv(t)
  {
    OneProc(s.procs, pid, Exchanging);
    PendingOne(pid, s.procs[pid]);
    PendingOne(pid, Exchanging);
    SerialDeleted(s, t, pid, id);
    assert Stored(s.db, id).Some?;
    SizeDel(s.db, Key(id));
  }

  lemma StateKept(s: State, t: State, pid: nat)
    requires SerialInv(s) && pid in s.procs && !WillCreate(s.procs[pid])
    requires t.db == s.db && t.log == s.log && t.procs == s.procs[pid := Exchanging]
    requires t.logins == s.logins && t.lost == s.lost + 1
    ensures SerialInv(t)
  {
    OneProc(s.procs, pid, Exchanging);
    PendingOne(pid, s.procs[pid]);
    PendingOne(pid, Exchanging);
  }

  lemma SerialDeleted(s: State, t: State, pid: nat, id: string)
    requires SerialInv(s) && t.db == DelCmd(s.db, Key(id)) && t.log == s.log + [Deleted(pid, id)]
    ensures DeletedGone(t)
  {
    StoredDel(s.db, id);
    LogFacts(s.log, Deleted(pid, id));
  }

  lemma SerialLogoutDel(s: State, st: Step)
    requires SerialInv(s) && Enabled(s, st) && st.LogoutDel?
    ensures SerialInv(Write(s, st))
  {
    var t, pc := Write(s, st), s.procs[st.pid];
    OneProc(s.procs, st.pid, pc);
    PendingOne(st.pid, pc);
    if st.ok {
      SerialDeleted(s, t, st.pid, pc.held.id);
      SizeDel(s.db, Key(pc.held.id));
    }
  }

  lemma SerialLocal(c: Config, s: State, st: Step)
    requires SerialInv(s) && Enabled(s, st) && !IsBegin(st) && !IsRead(st) && !IsWrite(st)
    ensures SerialInv(Local(c, s, st))
  {
    var t := Local(c, s, st);
    if !st.Tick? {
      if st.pid in t.procs { SerialMoved(s, t, st.pid, t.procs[st.pid], ""); } else { SerialEnded(s, t, st.pid); }
    }
  }

  lemma SerialKept(c: Config, s: State, st: Step)
    requires SerialInv(s) && RecordInv(s) && OrderInv(s) && SerialEnabled(s, st)
    ensures SerialInv(Apply(c, s, st))
  {
    if IsBegin(st) { SerialBegin(s, st); }
    else if IsRead(st) { SerialRead(c, s, st); }
    else if st.WriteStep? { SerialWriteStep(s, st); }
    else if st.StateDel? { SerialStateDel(s, st); }
    else if st.LogoutDel? { SerialLogoutDel(s, st); }
    else { SerialLocal(c, s, st); }
  }

  lemma {:induction false} SerialInvExec(c: Config, start: int, steps: seq<Step>)
    ensures SerialExec(c, Init(start), steps).Some? ==> SerialInv(SerialExec(c, Init(start), steps).value)
    decreases |steps|
  {
    if steps == [] {
      assert SerialInv(Init(start));
    } else {
      var before, st := steps[..|steps| - 1], steps[|steps| - 1];
      SerialInvExec(c, start, before);
      match SerialExec(c, Init(start), before)
      case None =>
      case Some(s1) =>
        if SerialEnabled(s1, st) {
          SerialIsRun(c, Init(start), before);
          InvExec(c, start, before);
          SerialKept(c, s1, st);
        }
    }
  }

  lemma SerialInvReachable(c: Config, s: State)
    requires SerialReachable(c, s)
    ensures SerialInv(s) && Reachable(c, s)
  {
    var start: int, steps: seq<Step> :| SerialExec(c, Init(start), steps) == Some(s);
    SerialInvExec(c, start, steps);
    SerialIsRun(c, Init(start), steps);
  }

  /** With handlers one after another, a deleted identifier is never readable again, at any time. */
  lemma DeletedStaysDeleted(c: Config, s: State, id: string, d: nat, t: int)
    requires SerialReachable(c, s) && DeletedAt(s.log, d, id)
    ensures GetCmd(s.db, Key(id), t) == None
  {
    SerialInvReachable(c, s);
    assert Stored(s.db, id) == None;
  }

  /** The records a GET could return. */
  function Live(db: Db, now: int): set<string> { set k | k in db && LiveAt(db[k], now) }

  /** With handlers one after another, the live records number at most the logins, plus one for each
      state deletion that failed: a callback consumes a record before it creates one, and refresh and
      logout create none. */
  lemma Conservation(c: Config, s: State)
    requires SerialReachable(c, s)
    ensures |Live(s.db, s.now)| <= |s.db| <= s.logins + s.lost
  {
    SerialInvReachable(c, s);
    SubsetSize(Live(s.db, s.now), s.db.Keys);
    assert |s.db| == |s.db.Keys|;
  }

  lemma {:induction false} SubsetSize(a: set<string>, b: set<string>)
    requires a <= b
    ensures |a| <= |b|
    decreases a
  {
    if a != {} {
      var x :| x in a;
      SubsetSize(a - {x}, b - {x});
    }
  }
}
