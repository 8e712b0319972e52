/** Where identifiers come from, and what the log says of the times of a SET. */
module SessionHistory {
  import opened Wrappers
  import opened Numbers
  import opened SessionSystem
  import opened SessionSafety

  // ---------- Identifiers of logins and of callbacks ----------

  /** A record as a login makes it: nothing in it is about a user. */
  predicate NoProfile(sess: Session) {
    sess == StateSession(sess.id, sess.name, sess.createdAt).(expiresAt := sess.expiresAt)
  }

  /** A record as a callback makes it: the user's identifier is the provider's number. */
  predicate HasProfile(sess: Session) { sess.userID == SignedDecimal(sess.gitHubUserID) }

  /** Every identifier was generated by a login or by a callback, and its record tells which. */
  ghost predicate OriginInv(s: State) {
    && s.tokens <= s.issued && s.origins.Keys == s.issued
    && forall id | id in s.issued :: if id in s.tokens then HasProfile(s.origins[id]) else NoProfile(s.origins[id])
  }

  lemma OriginKept(c: Config, s: State, st: Step)
    requires OriginInv(s) && Enabled(s, st)
    ensures OriginInv(Apply(c, s, st))
  {
    if !st.BeginLogin? && !st.Exchange? { OriginsUntouched(c, s, st); }
  }

  lemma OriginsUntouched(c: Config, s: State, st: Step)
    requires Enabled(s, st) && !st.BeginLogin? && !st.Exchange?
    ensures var t := Apply(c, s, st); t.issued == s.issued && t.tokens == s.tokens && t.origins == s.origins
  {
  }

  /** What a record says of its identifier. */
  lemma RecordTells(s: State, sess: Session)
    requires OriginInv(s) && RecordInv(s) && FromOrigin(s.origins, sess)
    ensures sess.id in s.issued && if sess.id in s.tokens then HasProfile(sess) else NoProfile(sess)
    ensures sess.id in s.tokens <==> sess.userID != ""
  {
    assert s.origins[sess.id].id == sess.id;
  }

  // ---------- Times ----------

  /** The expiration is what `Create` computes from a clock reading, in one of the two stores. */
  predicate FromClock(c: Config, sess: Session, clock: int, ttl: int) {
    ttl == CreateTtl(sess, clock, STATE_TTL) || ttl == CreateTtl(sess, clock, c.sessionTtl)
  }

  predicate StampOk(c: Config, now: int, e: Event) {
    e.Wrote? ==> e.stamp.clock <= e.stamp.at <= now && FromClock(c, e.sess, e.stamp.clock, e.stamp.ttl)
  }

  predicate PcStamps(c: Config, now: int, pc: Pc) {
    && (pc.ReadingClock? ==> pc.storeTtl == STATE_TTL || pc.storeTtl == c.sessionTtl)
    && (pc.Writing? ==> pc.clock <= now && FromClock(c, pc.sess, pc.clock, pc.ttl))
  }

  ghost predicate ProcStamps(c: Config, now: int, procs: Procs) {
    forall pid | pid in procs :: PcStamps(c, now, procs[pid])
  }

  predicate LogStamps(c: Config, now: int, log: seq<Event>) {
    forall i :: 0 <= i < |log| ==> StampOk(c, now, log[i])
  }

  ghost predicate StampInv(c: Config, s: State) { ProcStamps(c, s.now, s.procs) && LogStamps(c, s.now, s.log) }

  /** One handler moved, no time went by, and what was logged is in order. */
  lemma StampMoved(c: Config, s: State, t: State, pid: nat)
    requires StampInv(c, s) && t.now == s.now && OneMoved(s.procs, t.procs, pid) && LogGrew(s, t)
    requires pid in t.procs ==> PcStamps(c, s.now, t.procs[pid])
    requires t.log != s.log ==> StampOk(c, s.now, t.log[|s.log|])
    ensures StampInv(c, t)
  {
    forall i | 0 <= i < |t.log| ensures StampOk(c, t.now, t.log[i]) {
      if i < |s.log| { assert t.log[i] == s.log[i]; }
    }
  }

  lemma StampLocal(c: Config, s: State, st: Step)
    requires StampInv(c, s) && Enabled(s, st) && !IsBegin(st) && !IsRead(st) && !IsWrite(st)
    ensures StampInv(c, Local(c, s, st))
  {
    if !st.Tick? { StampMoved(c, s, Local(c, s, st), st.pid); }
  }

  lemma StampWrite(c: Config, s: State, st: Step)
    requires StampInv(c, s) && Enabled(s, st) && IsWrite(st)
    ensures StampInv(c, Write(s, st))
  {
    assert PcStamps(c, s.now, s.procs[st.pid]);
    WriteMoves(s, st);
    StampMoved(c, s, Write(s, st), st.pid);
  }

  /** Every step keeps: a SET takes effect after the clock was read, and its expiration was computed
      from that reading. */
  lemma StampKept(c: Config, s: State, st: Step)
    requires StampInv(c, s) && Enabled(s, st)
    ensures StampInv(c, Apply(c, s, st))
  {
    if IsBegin(st) { StampMoved(c, s, Begin(s, st), st.pid); }
    else if IsRead(st) { StampMoved(c, s, Read(c, s, st), st.pid); }
    else if IsWrite(st) { StampWrite(c, s, st); }
    else { StampLocal(c, s, st); }
  }
}
