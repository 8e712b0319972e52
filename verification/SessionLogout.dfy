/** When a deleted session can come back: only through a refresh that read it before the deletion
    and wrote it after. */
module SessionLogout {
  import opened Wrappers
  import opened SessionSystem
  import opened SessionSafety

  ghost predicate WrittenAfter(log: seq<Event>, id: string, d: nat) {
    exists w :: d < w < |log| && log[w].Wrote? && log[w].sess.id == id
  }

  predicate IsGot(e: Event, pid: nat, id: string) { e == Got(pid, id) }

  predicate IsWrote(e: Event, pid: nat, id: string) { e.Wrote? && e.pid == pid && e.sess.id == id }

  /** One handler read the record before position `d` and wrote it after. */
  ghost predicate Straddles(log: seq<Event>, id: string, d: nat, pid: nat, g: nat, w: nat) {
    g < d < w < |log| && IsGot(log[g], pid, id) && IsWrote(log[w], pid, id)
  }

  ghost predicate Straddled(log: seq<Event>, id: string, d: nat) {
    exists pid, g, w :: Straddles(log, id, d, pid, g, w)
  }

  ghost predicate DeletedAt(log: seq<Event>, d: nat, id: string) {
    d < |log| && log[d].Deleted? && log[d].id == id
  }

  /** A record that is present although it was deleted was written again. */
  ghost predicate PresentIsRewritten(s: State) {
    forall d: nat, id | DeletedAt(s.log, d, id) && Key(id) in s.db :: WrittenAfter(s.log, id, d)
  }

  /** Writing again after a deletion takes a straddling refresh. */
  ghost predicate RewrittenIsStraddled(log: seq<Event>) {
    forall d: nat, id | DeletedAt(log, d, id) && WrittenAfter(log, id, d) :: Straddled(log, id, d)
  }

  /** What a refresh between its GET and its SET remembers. */
  ghost predicate RefreshOk(log: seq<Event>, pid: nat, pc: Pc) {
    (pc.ReadingClock? || pc.Writing?) && pc.writer.ByRefresh? ==>
      && pc.writer.g < |log| && IsGot(log[pc.writer.g], pid, pc.sess.id)
      && forall d: nat | d < pc.writer.g && DeletedAt(log, d, pc.sess.id) :: Straddled(log, pc.sess.id, d)
  }

  ghost predicate RefreshesOk(s: State) {
    forall pid | pid in s.procs :: RefreshOk(s.log, pid, s.procs[pid])
  }

  ghost predicate LogoutInv(s: State) {
    PresentIsRewritten(s) && RewrittenIsStraddled(s.log) && RefreshesOk(s)
  }

  lemma LogFacts(log: seq<Event>, e: Event)
    ensures forall d: nat, id ::
      DeletedAt(log + [e], d, id) <==> DeletedAt(log, d, id) || (d == |log| && e.Deleted? && e.id == id)
    ensures forall d: nat, id :: WrittenAfter(log, id, d) ==> WrittenAfter(log + [e], id, d)
    ensures forall d: nat, id :: WrittenAfter(log + [e], id, d) ==>
      WrittenAfter(log, id, d) || (d < |log| && e.Wrote? && e.sess.id == id)
    ensures e.Wrote? ==> forall d: nat | d < |log| :: WrittenAfter(log + [e], e.sess.id, d)
    ensures forall d: nat, id :: Straddled(log, id, d) ==> Straddled(log + [e], id, d)
  {
    var more := log + [e];
    forall d: nat, id | WrittenAfter(log, id, d) ensures WrittenAfter(more, id, d) {
      var w :| d < w < |log| && log[w].Wrote? && log[w].sess.id == id;
      assert more[w] == log[w];
    }
    forall d: nat, id | Straddled(log, id, d) ensures Straddled(more, id, d) {
      var pid, g, w :| Straddles(log, id, d, pid, g, w);
      assert Straddles(more, id, d, pid, g, w);
    }
    if e.Wrote? { assert more[|log|] == e; }
  }

  /** The log did not grow: nothing else matters but the handlers and a shrinking map. */
  lemma QuietStep(s: State, t: State, pid: nat)
    requires LogoutInv(s) && t.log == s.log && OneMoved(s.procs, t.procs, pid) && t.db.Keys <= s.db.Keys
    requires pid in t.procs ==> RefreshOk(s.log, pid, t.procs[pid])
    ensures LogoutInv(t)
  {
    assert forall p | p in t.procs && p != pid :: p in s.procs && t.procs[p] == s.procs[p];
  }

  /** One event was logged. */
  lemma LoggedStep(s: State, t: State, pid: nat, e: Event)
    requires LogoutInv(s) && t.log == s.log + [e] && OneMoved(s.procs, t.procs, pid)
    requires pid in t.procs ==> RefreshOk(t.log, pid, t.procs[pid])
    requires PresentIsRewritten(t) && RewrittenIsStraddled(t.log)
    ensures LogoutInv(t)
  {
    LogFacts(s.log, e);
    forall p | p in t.procs ensures RefreshOk(t.log, p, t.procs[p]) {
      if p != pid {
        assert p in s.procs && t.procs[p] == s.procs[p] && RefreshOk(s.log, p, s.procs[p]);
      }
    }
  }

  lemma LogoutBegin(s: State, st: Step)
    requires LogoutInv(s) && Enabled(s, st) && IsBegin(st)
    ensures LogoutInv(Begin(s, st))
  {
    QuietStep(s, Begin(s, st), st.pid);
  }

  lemma LogoutLocal(c: Config, s: State, st: Step)
    requires LogoutInv(s) && Enabled(s, st) && !IsBegin(st) && !IsRead(st) && !IsWrite(st)
    ensures LogoutInv(Local(c, s, st))
  {
    if !st.Tick? {
      assert st.pid in s.procs ==> RefreshOk(s.log, st.pid, s.procs[st.pid]);
      QuietStep(s, Local(c, s, st), st.pid);
    }
  }

  lemma LogoutRead(c: Config, s: State, st: Step)
    requires LogoutInv(s) && RecordInv(s) && Enabled(s, st) && IsRead(st)
    ensures LogoutInv(Read(c, s, st))
  {
    var t := Read(c, s, st);
    if st.RefreshGet? && GetCmd(s.db, Key(s.procs[st.pid].id), s.now).Some? {
      GotStep(c, s, st);
    } else {
      QuietStep(s, t, st.pid);
    }
  }

  /** A refresh finds the record: every earlier deletion was straddled. */
  lemma GotStep(c: Config, s: State, st: Step)
    requires LogoutInv(s) && RecordInv(s) && st.RefreshGet? && Enabled(s, st)
    requires GetCmd(s.db, Key(s.procs[st.pid].id), s.now).Some?
    ensures LogoutInv(Read(c, s, st))
  {
    var t, id := Read(c, s, st), s.procs[st.pid].id;
    var e := Got(st.pid, id);
    GetIsOwn(s, id);
    LogFacts(s.log, e);
    forall d: nat | d < |s.log| && DeletedAt(t.log, d, id) ensures Straddled(t.log, id, d) {
      assert DeletedAt(s.log, d, id) && WrittenAfter(s.log, id, d);
    }
    LoggedStep(s, t, st.pid, e);
  }

  lemma LogoutWrite(s: State, st: Step)
    requires LogoutInv(s) && RecordInv(s) && OrderInv(s) && Enabled(s, st) && IsWrite(st)
    ensures LogoutInv(Write(s, st))
  {
    var t := Write(s, st);
    if st.WriteStep? {
      WroteStep(s, st);
    } else if t.log == s.log {
      QuietStep(s, t, st.pid);
    } else {
      var id := if st.StateDel? then s.procs[st.pid].state else s.procs[st.pid].held.id;
      DeletedStep(s, t, st.pid, id);
    }
  }

  lemma DeletedStep(s: State, t: State, pid: nat, id: string)
    requires LogoutInv(s) && OneMoved(s.procs, t.procs, pid)
    requires t.log == s.log + [Deleted(pid, id)] && t.db == DelCmd(s.db, Key(id))
    requires pid in t.procs ==> t.procs[pid].Exchanging?
    ensures LogoutInv(t)
  {
    LogFacts(s.log, Deleted(pid, id));
    LoggedStep(s, t, pid, Deleted(pid, id));
  }

  lemma WroteStep(s: State, st: Step)
    requires LogoutInv(s) && RecordInv(s) && OrderInv(s) && st.WriteStep? && Enabled(s, st)
    ensures LogoutInv(Write(s, st))
  {
    var t, pc := Write(s, st), s.procs[st.pid];
    var e, id := SetBy(st.pid, pc, s.now), pc.sess.id;
    LogFacts(s.log, e);
    forall d: nat | DeletedAt(t.log, d, id) ensures Straddled(t.log, id, d) {
      WriterStraddles(s, st, d);
    }
    forall d: nat, i | DeletedAt(t.log, d, i) && Key(i) in t.db ensures WrittenAfter(t.log, i, d) {
      KeyInjective(i, id);
    }
    LoggedStep(s, t, st.pid, e);
  }

  /** The write of a deleted identifier comes from a refresh, and a first write cannot: what was
      deleted had been written, and a first write is the first. */
  lemma WriterStraddles(s: State, st: Step, d: nat)
    requires LogoutInv(s) && OrderInv(s) && st.WriteStep? && Enabled(s, st)
    requires DeletedAt(s.log, d, s.procs[st.pid].sess.id)
    ensures Straddled(s.log + [SetBy(st.pid, s.procs[st.pid], s.now)], s.procs[st.pid].sess.id, d)
  {
    var pc := s.procs[st.pid];
    var more := s.log + [SetBy(st.pid, pc, s.now)];
    LogFacts(s.log, SetBy(st.pid, pc, s.now));
    assert Written(s.log, pc.sess.id) && !Creating(pc) && RefreshOk(s.log, st.pid, pc);
    if d > pc.writer.g {
      assert Straddles(more, pc.sess.id, d, st.pid, pc.writer.g, |s.log|);
    }
  }

  lemma LogoutKept(c: Config, s: State, st: Step)
    requires LogoutInv(s) && RecordInv(s) && OrderInv(s) && Enabled(s, st)
    ensures LogoutInv(Apply(c, s, st))
  {
    if IsBegin(st) { LogoutBegin(s, st); } else if IsRead(st) { LogoutRead(c, s, st); }
    else if IsWrite(st) { LogoutWrite(s, st); } else { LogoutLocal(c, s, st); }
  }
}
