/** What every step of the session protocol keeps, and what follows for every interleaving. */
module SessionSafety {
  import opened Wrappers
  import opened SessionSystem

  /** The session a handler holds, whether read or about to be written. */
  function SessionOf(pc: Pc): Option<Session> {
    match pc
    case ReadingClock(sess, _, _) => Some(sess)
    case Writing(sess, _, _, _) => Some(sess)
    case DeletingState(held, _) => Some(held)
    case Checking(held, _) => Some(held)
    case Admitted(held, _) => Some(held)
    case _ => None
  }

  /** Equal in every field except the expiry. */
  predicate SameRecord(a: Session, b: Session) { a.(expiresAt := 0) == b.(expiresAt := 0) }

  // ---------- Records keep their key and their contents ----------

  type Procs = map<nat, Pc>

  predicate FromOrigin(origins: map<string, Session>, sess: Session) {
    sess.id in origins && SameRecord(sess, origins[sess.id])
  }

  predicate PcOk(origins: map<string, Session>, pc: Pc) {
    && (SessionOf(pc).Some? ==> FromOrigin(origins, SessionOf(pc).value))
    && (pc.DeletingState? ==> pc.state == pc.held.id)
  }

  ghost predicate DbOk(db: Db, origins: map<string, Session>) {
    forall k | k in db :: k == Key(db[k].value.id) && FromOrigin(origins, db[k].value)
  }

  ghost predicate ProcsOk(procs: Procs, origins: map<string, Session>) {
    forall pid | pid in procs :: PcOk(origins, procs[pid])
  }

  ghost predicate LogOk(log: seq<Event>, origins: map<string, Session>) {
    forall i | 0 <= i < |log| && log[i].Wrote? :: FromOrigin(origins, log[i].sess)
  }

  ghost predicate RecordInv(s: State) {
    && DbOk(s.db, s.origins) && ProcsOk(s.procs, s.origins) && LogOk(s.log, s.origins)
    && (forall id | id in s.origins :: id in s.issued && s.origins[id].id == id)
  }

  lemma GetIsOwn(s: State, id: string)
    requires DbOk(s.db, s.origins) && GetCmd(s.db, Key(id), s.now).Some?
    ensures GetCmd(s.db, Key(id), s.now).value.id == id
    ensures FromOrigin(s.origins, GetCmd(s.db, Key(id), s.now).value)
  {
    KeyInjective(id, s.db[Key(id)].value.id);
  }

  /** Giving a new identifier its record disturbs nothing. */
  lemma NewOrigin(s: State, sess: Session, origins: map<string, Session>)
    requires RecordInv(s) && sess.id !in s.issued && origins == s.origins[sess.id := sess]
    ensures DbOk(s.db, origins) && ProcsOk(s.procs, origins) && LogOk(s.log, origins) && FromOrigin(origins, sess)
    ensures forall id | id in origins :: id in s.issued + {sess.id} && origins[id].id == id
  {
    assert sess.id !in s.origins;
    assert forall x: Session :: FromOrigin(s.origins, x) ==> FromOrigin(origins, x);
    assert forall pc :: PcOk(s.origins, pc) ==> PcOk(origins, pc);
  }

  lemma RecordBegin(s: State, st: Step)
    requires RecordInv(s) && Enabled(s, st) && IsBegin(st)
    ensures RecordInv(Begin(s, st))
  {
    if st.BeginLogin? {
      var t := Begin(s, st);
      NewOrigin(s, t.procs[st.pid].sess, t.origins);
    }
  }

  lemma RecordRead(c: Config, s: State, st: Step)
    requires RecordInv(s) && Enabled(s, st) && IsRead(st)
    ensures RecordInv(Read(c, s, st))
  {
    var t := Read(c, s, st);
    var id := if st.StateGet? then s.procs[st.pid].state else s.procs[st.pid].id;
    if GetCmd(s.db, Key(id), s.now).Some? { GetIsOwn(s, id); }
    assert forall pid | pid in t.procs && pid != st.pid :: t.procs[pid] == s.procs[pid];
    assert st.pid in t.procs ==> PcOk(s.origins, t.procs[st.pid]);
    assert LogOk(t.log, s.origins);
  }

  lemma RecordWrite(s: State, st: Step)
    requires RecordInv(s) && Enabled(s, st) && IsWrite(st)
    ensures RecordInv(Write(s, st))
  {
    var t, pc := Write(s, st), s.procs[st.pid];
    assert PcOk(s.origins, pc);
    WriteMoves(s, st);
    if st.WriteStep? { assert FromOrigin(s.origins, pc.sess); }
  }

  /** What a SET or a DEL does to each part of the state. */
  lemma WriteMoves(s: State, st: Step)
    requires Enabled(s, st) && IsWrite(st)
    ensures var t, pc := Write(s, st), s.procs[st.pid];
      t == s.(db := t.db, procs := t.procs, log := t.log, lost := t.lost)
      && (t.procs == s.procs - {st.pid} || (st.StateDel? && t.procs == s.procs[st.pid := Exchanging]))
      && (st.WriteStep? ==>
          t.db == SetCmd(s.db, Key(pc.sess.id), pc.sess, s.now, pc.ttl) && t.log == s.log + [SetBy(st.pid, pc, s.now)])
      && (!st.WriteStep? ==> forall k | k in t.db :: k in s.db && t.db[k] == s.db[k])
      && (st.StateDel? ==> t.log == s.log || t.log == s.log + [Deleted(st.pid, pc.state)])
      && (st.LogoutDel? ==> t.log == s.log || t.log == s.log + [Deleted(st.pid, pc.held.id)])
  {
  }

  lemma RecordLocal(c: Config, s: State, st: Step)
    requires RecordInv(s) && Enabled(s, st) && !IsBegin(st) && !IsRead(st) && !IsWrite(st)
    ensures RecordInv(Local(c, s, st))
  {
    if st.Exchange? {
      var t := Local(c, s, st);
      NewOrigin(s, t.procs[st.pid].sess, t.origins);
    }
  }

  /** Every step keeps: records sit at the prefix plus their own identifier, and everything held or
      ever written under an identifier has the contents that identifier was generated for. */
  lemma RecordKept(c: Config, s: State, st: Step)
    requires RecordInv(s) && Enabled(s, st)
    ensures RecordInv(Apply(c, s, st))
  {
    if IsBegin(st) { RecordBegin(s, st); } else if IsRead(st) { RecordRead(c, s, st); }
    else if IsWrite(st) { RecordWrite(s, st); } else { RecordLocal(c, s, st); }
  }

  // ---------- Expiries are bounded, and Redis deadlines cover them ----------

  function MaxTtl(c: Config): int { if c.sessionTtl > STATE_TTL then c.sessionTtl else STATE_TTL }

  /** The deadline comes less than a millisecond before the expiry, if before it at all. */
  predicate Covers(e: Entry) { e.deadline.Never? || e.deadline.time > e.value.expiresAt - MILLISECOND }

  predicate EntryTimes(c: Config, now: int, e: Entry) {
    e.value.expiresAt <= now + MaxTtl(c) && Covers(e)
  }

  predicate PcTimes(c: Config, now: int, pc: Pc) {
    && (SessionOf(pc).Some? ==> SessionOf(pc).value.expiresAt <= now + MaxTtl(c))
    && (pc.Refreshing? ==> pc.newExpiry <= now + MaxTtl(c))
    && (pc.Writing? ==> pc.ttl <= 0 || now + pc.ttl >= pc.sess.expiresAt)
  }

  ghost predicate DbTimes(c: Config, now: int, db: Db) {
    forall k | k in db :: EntryTimes(c, now, db[k])
  }

  ghost predicate ProcTimes(c: Config, now: int, procs: Procs) {
    forall pid | pid in procs :: PcTimes(c, now, procs[pid])
  }

  ghost predicate ExpiryInv(c: Config, s: State) { DbTimes(c, s.now, s.db) && ProcTimes(c, s.now, s.procs) }

  lemma ExpiryBegin(c: Config, s: State, st: Step)
    requires ExpiryInv(c, s) && Enabled(s, st) && IsBegin(st)
    ensures ExpiryInv(c, Begin(s, st))
  {
  }

  lemma ExpiryRead(c: Config, s: State, st: Step)
    requires ExpiryInv(c, s) && Enabled(s, st) && IsRead(st)
    ensures ExpiryInv(c, Read(c, s, st))
  {
  }

  lemma ExpiryWrite(c: Config, s: State, st: Step)
    requires ExpiryInv(c, s) && Enabled(s, st) && IsWrite(st)
    ensures ExpiryInv(c, Write(s, st))
  {
  }

  lemma ExpiryLocal(c: Config, s: State, st: Step)
    requires ExpiryInv(c, s) && Enabled(s, st) && !IsBegin(st) && !IsRead(st) && !IsWrite(st)
    ensures ExpiryInv(c, Local(c, s, st))
  {
  }

  /** Every step keeps: no expiry lies further ahead than the longer of the two durations, and no
      Redis deadline lies a millisecond or more before the expiry of its record. */
  lemma ExpiryKept(c: Config, s: State, st: Step)
    requires ExpiryInv(c, s) && Enabled(s, st)
    ensures ExpiryInv(c, Apply(c, s, st))
  {
    if IsBegin(st) { ExpiryBegin(c, s, st); } else if IsRead(st) { ExpiryRead(c, s, st); }
    else if IsWrite(st) { ExpiryWrite(c, s, st); } else { ExpiryLocal(c, s, st); }
  }

  // ---------- What is held was written before ----------

  ghost predicate Written(log: seq<Event>, id: string) {
    exists i :: 0 <= i < |log| && log[i].Wrote? && log[i].sess.id == id
  }

  /** The handler is about to write a record for the first time. */
  predicate Creating(pc: Pc) { (pc.ReadingClock? || pc.Writing?) && !pc.writer.ByRefresh? }

  /** The identifier of the record a handler once read. */
  function ReadId(pc: Pc): Option<string> {
    if Creating(pc) then None
    else if SessionOf(pc).Some? then Some(SessionOf(pc).value.id)
    else if pc.Refreshing? then Some(pc.id)
    else None
  }

  ghost predicate DbWritten(db: Db, log: seq<Event>) {
    forall k | k in db :: Written(log, db[k].value.id)
  }

  ghost predicate ReadersWritten(procs: Procs, log: seq<Event>) {
    forall pid | pid in procs :: ReadId(procs[pid]).Some? ==> Written(log, ReadId(procs[pid]).value)
  }

  ghost predicate CreatorsFresh(procs: Procs, log: seq<Event>, issued: set<string>) {
    forall pid | pid in procs && Creating(procs[pid]) ::
      !Written(log, procs[pid].sess.id) && procs[pid].sess.id in issued
  }

  ghost predicate CreatorsApart(procs: Procs) {
    forall p, q | p in procs && q in procs && p != q && Creating(procs[p]) && Creating(procs[q]) ::
      procs[p].sess.id != procs[q].sess.id
  }

  ghost predicate DeletedWritten(log: seq<Event>) {
    forall i | 0 <= i < |log| && log[i].Deleted? :: Written(log, log[i].id)
  }

  ghost predicate WrittenIssued(log: seq<Event>, issued: set<string>) {
    forall i | 0 <= i < |log| && log[i].Wrote? :: log[i].sess.id in issued
  }

  ghost predicate OrderInv(s: State) {
    && DbWritten(s.db, s.log) && ReadersWritten(s.procs, s.log)
    && CreatorsFresh(s.procs, s.log, s.issued) && CreatorsApart(s.procs)
    && DeletedWritten(s.log) && WrittenIssued(s.log, s.issued)
  }

  lemma WrittenMore(log: seq<Event>, e: Event)
    ensures forall id :: Written(log + [e], id) <==> Written(log, id) || (e.Wrote? && e.sess.id == id)
  {
    var more := log + [e];
    forall id ensures Written(more, id) <==> Written(log, id) || (e.Wrote? && e.sess.id == id) {
      if Written(log, id) {
        var i :| 0 <= i < |log| && log[i].Wrote? && log[i].sess.id == id;
        assert more[i] == log[i];
      }
      if e.Wrote? && e.sess.id == id { assert more[|log|] == e; }
    }
  }

  /** One handler moved: its own entry changed or went, and all others are as they were. */
  predicate OneMoved(before: Procs, after: Procs, pid: nat) {
    (pid !in after && after == before - {pid}) || (pid in after && after == before[pid := after[pid]])
  }

  predicate LogGrew(s: State, t: State) {
    t.log == s.log || (|t.log| == |s.log| + 1 && t.log[..|s.log|] == s.log)
  }

  /** What a step must do right, about the one handler and the one event it concerns. */
  ghost predicate OrderStep(s: State, t: State, pid: nat) {
    && OneMoved(s.procs, t.procs, pid) && LogGrew(s, t) && s.issued <= t.issued
    && (forall k | k in t.db :: (k in s.db && t.db[k] == s.db[k]) || Written(t.log, t.db[k].value.id))
    && (pid in t.procs ==> NewPcOk(s, t, pid, t.procs[pid]))
    && (t.log != s.log ==> EventOk(s, t, pid, t.log[|s.log|]))
  }

  predicate HeldByCreator(s: State, pid: nat, id: string) {
    pid in s.procs && Creating(s.procs[pid]) && s.procs[pid].sess.id == id
  }

  predicate FreshOrHeld(s: State, pid: nat, id: string) { id !in s.issued || HeldByCreator(s, pid, id) }

  ghost predicate WrittenOrHeld(s: State, pid: nat, id: string) { Written(s.log, id) || HeldByCreator(s, pid, id) }

  ghost predicate NewPcOk(s: State, t: State, pid: nat, pc: Pc) {
    && (ReadId(pc).Some? ==> Written(t.log, ReadId(pc).value))
    && (Creating(pc) ==> t.log == s.log && pc.sess.id in t.issued && FreshOrHeld(s, pid, pc.sess.id))
  }

  ghost predicate EventOk(s: State, t: State, pid: nat, e: Event) {
    && (e.Deleted? ==> Written(s.log, e.id))
    && (e.Wrote? ==> e.sess.id in s.issued && pid in s.procs && pid !in t.procs && WrittenOrHeld(s, pid, e.sess.id))
  }

  lemma WrittenGrows(s: State, t: State)
    requires LogGrew(s, t)
    ensures forall id :: Written(s.log, id) ==> Written(t.log, id)
    ensures forall id :: Written(t.log, id) ==>
      Written(s.log, id) || (t.log != s.log && t.log[|s.log|].Wrote? && t.log[|s.log|].sess.id == id)
  {
    if t.log != s.log {
      assert t.log == s.log + [t.log[|s.log|]];
      WrittenMore(s.log, t.log[|s.log|]);
    }
  }

  lemma OrderPreserved(s: State, t: State, pid: nat)
    requires OrderInv(s) && OrderStep(s, t, pid)
    ensures OrderInv(t)
  {
    WrittenGrows(s, t);
    OrderPreservedProcs(s, t, pid);
    OrderPreservedLog(s, t, pid);
  }

  lemma OrderPreservedLog(s: State, t: State, pid: nat)
    requires OrderInv(s) && OrderStep(s, t, pid)
    ensures DeletedWritten(t.log) && WrittenIssued(t.log, t.issued)
  {
    WrittenGrows(s, t);
    forall i | 0 <= i < |t.log|
      ensures t.log[i].Deleted? ==> Written(t.log, t.log[i].id)
      ensures t.log[i].Wrote? ==> t.log[i].sess.id in t.issued
    {
      if i < |s.log| { assert t.log[i] == s.log[i]; }
    }
  }

  lemma OrderPreservedProcs(s: State, t: State, pid: nat)
    requires OrderInv(s) && OrderStep(s, t, pid)
    ensures ReadersWritten(t.procs, t.log) && CreatorsFresh(t.procs, t.log, t.issued) && CreatorsApart(t.procs)
  {
    WrittenGrows(s, t);
    assert forall p | p in t.procs && p != pid :: p in s.procs && t.procs[p] == s.procs[p];
    assert pid in t.procs && Creating(t.procs[pid]) && t.procs[pid].sess.id !in s.issued ==>
      !Written(s.log, t.procs[pid].sess.id);
  }

  lemma OrderBegin(s: State, st: Step)
    requires OrderInv(s) && Enabled(s, st) && IsBegin(st)
    ensures OrderInv(Begin(s, st))
  {
    OrderPreserved(s, Begin(s, st), st.pid);
  }

  lemma OrderLocal(c: Config, s: State, st: Step)
    requires OrderInv(s) && Enabled(s, st) && !IsBegin(st) && !IsRead(st) && !IsWrite(st)
    ensures OrderInv(Local(c, s, st))
  {
    if st.Exchange? { OrderExchange(c, s, st); }
    else if !st.Tick? { OrderPreserved(s, Local(c, s, st), st.pid); }
  }

  lemma OrderExchange(c: Config, s: State, st: Step)
    requires OrderInv(s) && Enabled(s, st) && st.Exchange?
    ensures OrderInv(Local(c, s, st))
  {
    OrderPreserved(s, Local(c, s, st), st.pid);
  }

  lemma OrderRead(c: Config, s: State, st: Step)
    requires OrderInv(s) && RecordInv(s) && Enabled(s, st) && IsRead(st)
    ensures OrderInv(Read(c, s, st))
  {
    var t := Read(c, s, st);
    var id := if st.StateGet? then s.procs[st.pid].state else s.procs[st.pid].id;
    if GetCmd(s.db, Key(id), s.now).Some? {
      GetIsOwn(s, id);
      assert Written(s.log, s.db[Key(id)].value.id);
      FoundReads(c, s, st, id);
    }
    OrderPreserved(s, t, st.pid);
  }

  lemma FoundReads(c: Config, s: State, st: Step, id: string)
    requires Enabled(s, st) && IsRead(st) && Written(s.log, id)
    requires id == if st.StateGet? then s.procs[st.pid].state else s.procs[st.pid].id
    requires GetCmd(s.db, Key(id), s.now).Some? && GetCmd(s.db, Key(id), s.now).value.id == id
    ensures var t := Read(c, s, st);
      LogGrew(s, t) && st.pid in t.procs && !Creating(t.procs[st.pid]) && ReadId(t.procs[st.pid]) == Some(id)
      && Written(t.log, id)
  {
    WrittenMore(s.log, Got(st.pid, id));
  }

  lemma OrderWrite(s: State, st: Step)
    requires OrderInv(s) && RecordInv(s) && Enabled(s, st) && IsWrite(st)
    ensures OrderInv(Write(s, st))
  {
    WriteMoves(s, st);
    if st.WriteStep? {
      OrderWrote(s, Write(s, st), st.pid);
    } else {
      assert PcOk(s.origins, s.procs[st.pid]);
      OrderDeleted(s, Write(s, st), st.pid);
    }
  }

  lemma OrderWrote(s: State, t: State, pid: nat)
    requires OrderInv(s) && pid in s.procs && s.procs[pid].Writing? && t.procs == s.procs - {pid}
    requires t.issued == s.issued
    requires t.db == SetCmd(s.db, Key(s.procs[pid].sess.id), s.procs[pid].sess, s.now, s.procs[pid].ttl)
    requires t.log == s.log + [SetBy(pid, s.procs[pid], s.now)]
    ensures OrderInv(t)
  {
    var pc := s.procs[pid];
    WrittenMore(s.log, SetBy(pid, pc, s.now));
    WrittenIsIssued(s);
    assert Creating(pc) || ReadId(pc) == Some(pc.sess.id);
    OrderPreserved(s, t, pid);
  }

  lemma WrittenIsIssued(s: State)
    requires WrittenIssued(s.log, s.issued)
    ensures forall id :: Written(s.log, id) ==> id in s.issued
  {
  }

  lemma OrderDeleted(s: State, t: State, pid: nat)
    requires OrderInv(s) && pid in s.procs && t.issued == s.issued
    requires s.procs[pid].DeletingState? || s.procs[pid].Admitted?
    requires t.procs == s.procs - {pid} || t.procs == s.procs[pid := Exchanging]
    requires forall k | k in t.db :: k in s.db && t.db[k] == s.db[k]
    requires t.log == s.log || t.log == s.log + [Deleted(pid, s.procs[pid].held.id)]
    ensures OrderInv(t)
  {
    WrittenMore(s.log, Deleted(pid, s.procs[pid].held.id));
    assert ReadId(s.procs[pid]) == Some(s.procs[pid].held.id);
    OrderPreserved(s, t, pid);
  }

  lemma OrderKept(c: Config, s: State, st: Step)
    requires OrderInv(s) && RecordInv(s) && Enabled(s, st)
    ensures OrderInv(Apply(c, s, st))
  {
    if IsBegin(st) { OrderBegin(s, st); } else if IsRead(st) { OrderRead(c, s, st); }
    else if IsWrite(st) { OrderWrite(s, st); } else { OrderLocal(c, s, st); }
  }
}
