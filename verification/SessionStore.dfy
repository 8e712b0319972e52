/** The Redis store and the handlers that use it, as the program runs them: commands on one shared
    client, with any delay before each. Every handler is a run of the transition system, so what is
    proved of runs holds of the handlers. */
module SessionStore {
  import opened Wrappers
  import opened Numbers
  import opened SessionSystem
  import opened SessionSafety
  import opened SessionTheorems

  /** The Redis server: one map and one clock that never runs backwards. `up` says which of the
      commands sent to it, counted from the first, get through. */
  class Redis {
    const up: nat -> bool
    var db: Db
    var now: int
    var count: nat

    constructor (up: nat -> bool, start: int)
      ensures this.up == up && db == map[] && now == start && count == 0
    {
      this.up := up;
      db, now, count := map[], start, 0;
    }

    /** Any amount of time goes by. */
    method Wait()
      modifies this`now
      ensures now >= old(now)
    {
      var d: int := *;
      if d > 0 { now := now + d; }
    }

    method Get(key: string) returns (r: Result<Option<Session>, ()>)
      modifies this`now, this`count
      ensures now >= old(now) && count == old(count) + 1
      ensures r == if up(old(count)) then Ok(GetCmd(db, key, now)) else Err(())
    {
      Wait();
      r := if up(count) then Ok(GetCmd(db, key, now)) else Err(());
      count := count + 1;
    }

    method Set(key: string, value: Session, ttl: int) returns (ok: bool)
      modifies this
      ensures now >= old(now) && count == old(count) + 1 && ok == up(old(count))
      ensures db == if ok then SetCmd(old(db), key, value, now, ttl) else old(db)
    {
      Wait();
      ok := up(count);
      if ok { db := SetCmd(db, key, value, now, ttl); }
      count := count + 1;
    }

    method Del(key: string) returns (ok: bool)
      modifies this
      ensures now >= old(now) && count == old(count) + 1 && ok == up(old(count))
      ensures db == if ok then DelCmd(old(db), key) else old(db)
    {
      Wait();
      ok := up(count);
      if ok { db := DelCmd(db, key); }
      count := count + 1;
    }
  }

  datatype StoreFailure = NotFound | Broken

  /** What the store's Get answers, when its command takes effect at `t`. */
  function Fetched(up: bool, db: Db, id: string, t: int): Result<Session, StoreFailure> {
    if !up then Err(Broken)
    else match GetCmd(db, Key(id), t) case None => Err(NotFound) case Some(sess) => Ok(sess)
  }

  /** No GET finds the record, at any time. */
  ghost predicate Unreadable(db: Db, id: string) { forall t :: GetCmd(db, Key(id), t) == None }

  class RedisStore {
    const client: Redis
    const ttl: int

    constructor (client: Redis, ttl: int)
      ensures this.client == client && this.ttl == ttl
    {
      this.client, this.ttl := client, ttl;
    }

    /** `clock` is the moment `time.Until` looked at; the command takes effect later. */
    method Create(sess: Session) returns (ok: bool, ghost clock: int)
      modifies client
      ensures old(client.now) <= clock <= client.now
      ensures client.count == old(client.count) + 1 && ok == client.up(old(client.count))
      ensures client.db ==
        if ok then SetCmd(old(client.db), Key(sess.id), sess, client.now, CreateTtl(sess, clock, ttl))
        else old(client.db)
    {
      client.Wait();
      clock := client.now;
      var until := sess.expiresAt - client.now;
      if until <= 0 {
        until := ttl;
      }
      ok := client.Set(KEY_PREFIX + sess.id, sess, until);
    }

    /** A missing record and a failed command are different errors. */
    method Get(id: string) returns (r: Result<Session, StoreFailure>)
      modifies client`now, client`count
      ensures client.now >= old(client.now) && client.count == old(client.count) + 1
      ensures r == Fetched(client.up(old(client.count)), client.db, id, client.now)
    {
      var data := client.Get(KEY_PREFIX + id);
      if data.Err? {
        return Err(Broken);
      }
      r := match data.value case None => Err(NotFound) case Some(sess) => Ok(sess);
    }

    method Delete(id: string) returns (ok: bool)
      modifies client
      ensures client.now >= old(client.now) && client.count == old(client.count) + 1
      ensures ok == client.up(old(client.count))
      ensures client.db == if ok then DelCmd(old(client.db), Key(id)) else old(client.db)
    {
      ok := client.Del(KEY_PREFIX + id);
    }

    /** Reads the record at `read` and writes it back, with the new expiry, later: not one command. */
    method Refresh(id: string, newExpiry: int) returns (ok: bool, ghost read: int, ghost clock: int)
      modifies client
      ensures old(client.now) <= read <= clock <= client.now
      ensures var c := old(client.count);
        var found := Fetched(client.up(c), old(client.db), id, read);
        (ok <==> found.Ok? && client.up(c + 1)) && client.count == (if found.Ok? then c + 2 else c + 1)
      ensures !ok ==> client.db == old(client.db)
      ensures ok ==>
        var found := Fetched(client.up(old(client.count)), old(client.db), id, read);
        var sess := found.value.(expiresAt := newExpiry);
        client.db == SetCmd(old(client.db), Key(sess.id), sess, client.now, CreateTtl(sess, clock, ttl))
    {
      var found := Get(id);
      read, clock := client.now, client.now;
      match found
      case Err(_) => ok := false;
      case Ok(sess) => ok, clock := Create(sess.(expiresAt := newExpiry));
    }
  }

  datatype CallbackOutcome =
    | MissingParameter | InvalidState | ExchangeFailed | NotStored
    | SignedIn(token: string, redirect: string)

  datatype Admission = Unknown | StoreDown | TooOld | Welcome(sess: Session)

  datatype RefreshOutcome = Rejected | NotRefreshed | Refreshed(expiresAt: int)

  const DAY := 86_400_000_000_000

  class Server {
    const redis: Redis
    const sessionStore: RedisStore
    const stateStore: RedisStore
    const config: Config
    const frontend: string
    ghost var run: State
    ghost var nextPid: nat

    ghost predicate Wired() {
      && sessionStore.client == redis && sessionStore.ttl == config.sessionTtl
      && stateStore.client == redis && stateStore.ttl == STATE_TTL
    }

    ghost predicate Synced()
      reads this, redis
    {
      Wired() && run.now == redis.now && run.db == redis.db && SerialReachable(config, run)
    }

    /** Between handlers: the store is what a serial run of the system has left. */
    ghost predicate Valid()
      reads this, redis
    {
      Synced() && run.procs == map[] && forall p | p in run.started :: p < nextPid
    }

    /** Both stores share one client; a session duration of zero means a day. */
    constructor (up: nat -> bool, start: int, sessionTtl: int, frontend: string)
      ensures Valid() && run == Init(start) && fresh(redis) && redis.up == up && redis.count == 0
      ensures config.sessionTtl == (if sessionTtl == 0 then 86_400_000_000_000 else sessionTtl)
      ensures this.frontend == frontend && sessionStore.ttl == config.sessionTtl && stateStore.ttl == 600_000_000_000
    {
      var client := new Redis(up, start);
      var duration := if sessionTtl == 0 then DAY else sessionTtl;
      redis := client;
      config := Config(duration);
      var sessions := new RedisStore(client, duration);
      var states := new RedisStore(client, STATE_TTL);
      sessionStore, stateStore := sessions, states;
      this.frontend := frontend;
      run, nextPid := Init(start), 0;
      new;
      assert SerialExec(config, Init(start), []) == Some(run);
    }

    // ---------- Following the run ----------

    ghost method Do(st: Step)
      requires SerialReachable(config, run) && SerialEnabled(run, st)
      modifies this`run
      ensures SerialReachable(config, run) && run == Apply(config, old(run), st)
    {
      SerialReachStep(config, run, st);
      run := Apply(config, run, st);
    }

    ghost method PassTo(t: int)
      requires SerialReachable(config, run) && t >= run.now
      modifies this`run
      ensures SerialReachable(config, run) && run == old(run).(now := t)
    {
      Do(Tick(t - run.now));
    }

    ghost method DoClock(pid: nat, sess: Session, storeTtl: int, writer: Writer)
      requires SerialReachable(config, run) && run.procs == map[pid := ReadingClock(sess, storeTtl, writer)]
      modifies this`run
      ensures SerialReachable(config, run)
      ensures run == old(run).(procs := map[pid := Writing(sess, run.now, CreateTtl(sess, run.now, storeTtl), writer)])
    {
      Do(ClockStep(pid));
      assert run.procs == map[pid := Writing(sess, run.now, CreateTtl(sess, run.now, storeTtl), writer)];
    }

    ghost method DoWrite(pid: nat, sess: Session, clock: int, ttl: int, writer: Writer)
      requires SerialReachable(config, run) && run.procs == map[pid := Writing(sess, clock, ttl, writer)]
      modifies this`run
      ensures SerialReachable(config, run)
      ensures run == old(run).(procs := map[], db := SetCmd(old(run.db), Key(sess.id), sess, run.now, ttl),
                               log := old(run.log) + [Wrote(pid, sess, Stamp(clock, ttl, run.now))])
    {
      Do(WriteStep(pid));
      assert run.procs == map[];
    }

    /** What the log says of a `Create` that got through. */
    function Created(pid: nat, sess: Session, clock: int, storeTtl: int, at: int): Event {
      Wrote(pid, sess, Stamp(clock, CreateTtl(sess, clock, storeTtl), at))
    }

    /** The steps of `Create`, and then the handler is done. */
    ghost method DoCreate(pid: nat, sess: Session, storeTtl: int, writer: Writer, ok: bool, clock: int, end: int)
      requires SerialReachable(config, run) && run.procs == map[pid := ReadingClock(sess, storeTtl, writer)]
      requires run.now <= clock <= end
      modifies this`run
      ensures SerialReachable(config, run)
      ensures run == old(run).(procs := map[], now := end,
        db := if ok then SetCmd(old(run.db), Key(sess.id), sess, end, CreateTtl(sess, clock, storeTtl))
              else old(run.db),
        log := if ok then old(run.log) + [Created(pid, sess, clock, storeTtl, end)] else old(run.log))
    {
      PassTo(clock);
      DoClock(pid, sess, storeTtl, writer);
      PassTo(end);
      if ok { DoWrite(pid, sess, clock, CreateTtl(sess, clock, storeTtl), writer); }
      else { DoStop(pid, Writing(sess, clock, CreateTtl(sess, clock, storeTtl), writer)); }
    }

    ghost method DoBegin(st: Step, next: Pc)
      requires SerialReachable(config, run) && run.procs == map[] && Enabled(run, st)
      requires st.BeginRequest? || st.BeginCallback?
      requires next == if st.BeginRequest? then Looking(st.id, st.want) else GettingState(st.state)
      modifies this`run
      ensures SerialReachable(config, run)
      ensures run == old(run).(procs := map[st.pid := next], started := old(run.started) + {st.pid})
    {
      Do(st);
    }

    ghost method DoStop(pid: nat, pc: Pc)
      requires SerialReachable(config, run) && run.procs == map[pid := pc]
      modifies this`run
      ensures SerialReachable(config, run) && run == old(run).(procs := map[])
    {
      Do(Stop(pid));
      assert run.procs == map[];
    }

    ghost method DoStateGet(pid: nat, state: string, up: bool, found: Result<Session, StoreFailure>)
      requires SerialReachable(config, run) && run.procs == map[pid := GettingState(state)]
      requires found == Fetched(up, run.db, state, run.now)
      modifies this`run
      ensures SerialReachable(config, run)
      ensures run == old(run).(procs := if found.Ok? then map[pid := DeletingState(found.value, state)] else map[])
    {
      if up { Do(StateGet(pid)); } else { Do(Stop(pid)); }
      assert found.Err? ==> run.procs == map[];
      assert found.Ok? ==> run.procs == map[pid := DeletingState(found.value, state)];
    }

    ghost method DoStateDel(pid: nat, held: Session, state: string, ok: bool)
      requires SerialReachable(config, run) && run.procs == map[pid := DeletingState(held, state)]
      modifies this`run
      ensures SerialReachable(config, run)
      ensures run ==
        old(run).(procs := map[pid := Exchanging], db := if ok then DelCmd(old(run.db), Key(state)) else old(run.db),
                               log := if ok then old(run.log) + [Deleted(pid, state)] else old(run.log),
                               lost := if ok then old(run.lost) else old(run.lost) + 1)
    {
      Do(StateDel(pid, ok));
      assert run.procs == map[pid := Exchanging];
    }

    ghost method DoExchange(pid: nat, given: Session, sess: Session)
      requires SerialReachable(config, run) && run.procs == map[pid := Exchanging] && given.id !in run.issued
      requires given.id != ""
      requires sess == NewSession(given, given.id, run.now + config.sessionTtl, run.now)
      modifies this`run
      ensures SerialReachable(config, run)
      ensures run == old(run).(procs := map[pid := ReadingClock(sess, config.sessionTtl, ByCallback)],
                               issued := old(run.issued) + {sess.id}, tokens := old(run.tokens) + {sess.id},
                               origins := old(run.origins)[sess.id := sess])
    {
      Do(Exchange(pid, given));
      assert run.procs == map[pid := ReadingClock(sess, config.sessionTtl, ByCallback)];
    }

    ghost method DoLookup(pid: nat, id: string, want: Want, up: bool, found: Result<Session, StoreFailure>)
      requires SerialReachable(config, run) && run.procs == map[pid := Looking(id, want)]
      requires found == Fetched(up, run.db, id, run.now)
      modifies this`run
      ensures SerialReachable(config, run)
      ensures run == old(run).(procs := if found.Ok? then map[pid := Checking(found.value, want)] else map[])
    {
      if up { Do(Lookup(pid)); } else { Do(Stop(pid)); }
      assert found.Err? ==> run.procs == map[];
      assert found.Ok? ==> run.procs == map[pid := Checking(found.value, want)];
    }

    ghost method DoCheck(pid: nat, held: Session, want: Want)
      requires SerialReachable(config, run) && run.procs == map[pid := Checking(held, want)]
      modifies this`run
      ensures SerialReachable(config, run)
      ensures run == old(run).(procs := if run.now > held.expiresAt then map[] else map[pid := Admitted(held, want)])
    {
      Do(Check(pid));
      assert run.now > held.expiresAt ==> run.procs == map[];
      assert run.now <= held.expiresAt ==> run.procs == map[pid := Admitted(held, want)];
    }

    ghost method DoLogoutDel(pid: nat, held: Session, ok: bool)
      requires SerialReachable(config, run) && run.procs == map[pid := Admitted(held, WantLogout)]
      modifies this`run
      ensures SerialReachable(config, run)
      ensures run == old(run).(procs := map[], db := if ok then DelCmd(old(run.db), Key(held.id)) else old(run.db),
                               log := if ok then old(run.log) + [Deleted(pid, held.id)] else old(run.log))
    {
      Do(LogoutDel(pid, ok));
      assert run.procs == map[];
    }

    ghost method DoStartRefresh(pid: nat, held: Session, newExpiry: int)
      requires SerialReachable(config, run) && run.procs == map[pid := Admitted(held, WantRefresh)]
      requires newExpiry == run.now + config.sessionTtl
      modifies this`run
      ensures SerialReachable(config, run) && run == old(run).(procs := map[pid := Refreshing(held.id, newExpiry)])
    {
      Do(StartRefresh(pid));
      assert run.procs == map[pid := Refreshing(held.id, newExpiry)];
    }

    ghost method DoRefreshGet(pid: nat, id: string, newExpiry: int, up: bool, found: Result<Session, StoreFailure>)
      requires SerialReachable(config, run) && run.procs == map[pid := Refreshing(id, newExpiry)]
      requires found == Fetched(up, run.db, id, run.now)
      modifies this`run
      ensures SerialReachable(config, run)
      ensures found.Err? ==> run == old(run).(procs := map[])
      ensures found.Ok? ==>
        run == old(run).(log := old(run.log) + [Got(pid, id)], procs :=
          map[pid := ReadingClock(found.value.(expiresAt := newExpiry), config.sessionTtl, ByRefresh(|old(run.log)|))])
    {
      if up { Do(RefreshGet(pid)); } else { Do(Stop(pid)); }
      assert found.Err? ==> run.procs == map[];
      assert found.Ok? ==>
        run.procs ==
          map[pid := ReadingClock(found.value.(expiresAt := newExpiry), config.sessionTtl, ByRefresh(|old(run.log)|))];
    }

    /** What a GET finds under an identifier is the last record written there, and it is its own. */
    lemma FoundIsLast(s: State, id: string, t: int)
      requires SerialReachable(config, s) && GetCmd(s.db, Key(id), t).Some?
      ensures GetCmd(s.db, Key(id), t).value.id == id && id in s.issued
      ensures LastOf(s.log, id) == GetCmd(s.db, Key(id), t) == Stored(s.db, id)
    {
      SerialInvReachable(config, s);
      InvReachable(config, s);
      GetIsOwn(s.(now := t), id);
    }

    // ---------- Handlers ----------

    /** Stores a fresh state for the callback to find, and redirects to the provider with it. */
    method Login(state: string, redirect: string) returns (r: Option<string>)
      requires Valid() && state != "" && state !in run.issued
      modifies this, redis
      ensures Valid() && run.logins == old(run.logins) + 1 && run.lost == old(run.lost)
      ensures r == if redis.up(old(redis.count)) then Some(state) else None
      ensures r.Some? ==> LastOf(run.log, state).Some?
      ensures r.Some? ==> var at := LastOf(run.log, state).value.createdAt;
        LastOf(run.log, state).value
          == Session(state, "", 0, "", "", redirect, "", "", "", [], at + 600_000_000_000, at)
        && old(redis.now) <= at <= redis.now
      ensures run.issued == old(run.issued) + {state} && run.tokens == old(run.tokens)
      ensures r.None? ==> redis.db == old(redis.db)
      ensures forall other :: other != state ==> Stored(redis.db, other) == old(Stored(redis.db, other))
    {
      redis.Wait();
      PassTo(redis.now);
      ghost var pid := nextPid;
      nextPid := nextPid + 1;
      var sess := StateSession(state, redirect, redis.now);
      Do(BeginLogin(pid, state, redirect));
      assert run.procs == map[pid := ReadingClock(sess, STATE_TTL, ByLogin)];
      ghost var before := run;
      var ok, clock := stateStore.Create(sess);
      DoCreate(pid, sess, STATE_TTL, ByLogin, ok, clock, redis.now);
      StoredSet(before.db, sess, redis.now, CreateTtl(sess, clock, STATE_TTL));
      if ok { LastStep(before.log, Created(pid, sess, clock, STATE_TTL, redis.now)); }
      r := if ok then Some(state) else None;
    }

    /** A handler starts. */
    ghost method NewHandler() returns (pid: nat)
      requires Valid()
      modifies this`nextPid
      ensures Synced() && pid !in run.started && forall p | p in run.started + {pid} :: p < nextPid
    {
      pid := nextPid;
      nextPid := nextPid + 1;
    }

    /** The stored session is the user's profile under the new identifier, dated and with its expiry. */
    predicate Made(stored: Option<Session>, profile: Option<Session>, id: string) {
      stored.Some? && profile.Some? &&
      var p, at := profile.value, stored.value.createdAt;
      stored.value ==
        Session(id, SignedDecimal(p.gitHubUserID), p.gitHubUserID, p.gitHubUsername, p.email, p.name, p.avatarURL,
                p.accessToken, p.refreshToken, p.teamMemberships, at + config.sessionTtl, at)
    }

    /** The address a browser is sent to after it signed in: the login's redirect, or the frontend when
        the login named none, with the new session and the state. */
    ghost predicate LeadsTo(url: string, redirect: string, id: string, state: string) {
      var base := if redirect == "" then frontend else redirect;
      url == base + "?token=" + id + "&state=" + state
    }

    function Redirect(name: string, id: string, state: string): string {
      (if name != "" then name else frontend) + "?token=" + id + "&state=" + state
    }

    /** The end of a callback: the session is stored. */
    method StoreSession(ghost pid: nat, name: string, state: string, profile: Session, id: string)
      returns (r: CallbackOutcome)
      requires Synced() && run.procs == map[pid := Exchanging] && forall p | p in run.started :: p < nextPid
      requires id != "" && id !in run.issued
      modifies this, redis
      ensures Valid() && run.logins == old(run.logins) && run.lost == old(run.lost) && redis.now >= old(redis.now)
      ensures r == if redis.up(old(redis.count)) then SignedIn(id, Redirect(name, id, state)) else NotStored
      ensures r.SignedIn? ==> Made(LastOf(run.log, id), Some(profile), id) && id in run.tokens
      ensures r.SignedIn? ==> old(redis.now) <= LastOf(run.log, id).value.createdAt <= redis.now
      ensures r.NotStored? ==> redis.db == old(redis.db)
      ensures forall other :: other != id ==> Stored(redis.db, other) == old(Stored(redis.db, other))
    {
      redis.Wait();
      PassTo(redis.now);
      var given := profile.(id := id);
      var sess := NewSession(given, id, redis.now + config.sessionTtl, redis.now);
      DoExchange(pid, given, sess);
      ghost var before := run;
      var stored, clock := sessionStore.Create(sess);
      DoCreate(pid, sess, config.sessionTtl, ByCallback, stored, clock, redis.now);
      StoredSet(before.db, sess, redis.now, CreateTtl(sess, clock, config.sessionTtl));
      if !stored {
        return NotStored;
      }
      LastStep(before.log, Created(pid, sess, clock, config.sessionTtl, redis.now));
      r := SignedIn(id, Redirect(name, id, state));
    }

    /** The rest of a callback that found its state, from the DEL on. */
    method CallbackFound(ghost pid: nat, held: Session, state: string, profile: Option<Session>, id: string)
      returns (r: CallbackOutcome)
      requires Synced() && run.procs == map[pid := DeletingState(held, state)]
      requires forall p | p in run.started :: p < nextPid
      requires id != "" && id !in run.issued && id != state
      modifies this, redis
      ensures Valid() && run.logins == old(run.logins) && redis.now >= old(redis.now)
      ensures r ==
        if profile.None? then ExchangeFailed
        else if redis.up(old(redis.count) + 1) then SignedIn(id, Redirect(held.name, id, state))
                   else NotStored
      ensures r.SignedIn? ==> Made(LastOf(run.log, id), profile, id) && id in run.tokens
      ensures r.SignedIn? ==> old(redis.now) <= LastOf(run.log, id).value.createdAt <= redis.now
      ensures redis.up(old(redis.count)) ==> run.lost == old(run.lost) && Stored(redis.db, state) == None
      ensures !redis.up(old(redis.count)) ==> run.lost == old(run.lost) + 1
      ensures forall other :: other != state && (other != id || !r.SignedIn?) ==>
        Stored(redis.db, other) == old(Stored(redis.db, other))
    {
      var ok := stateStore.Delete(state);
      PassTo(redis.now);
      DoStateDel(pid, held, state, ok);
      StoredDel(old(run.db), state);
      if profile.None? {
        DoStop(pid, Exchanging);
        return ExchangeFailed;
      }
      r := StoreSession(pid, held.name, state, profile.value, id);
    }

    lemma NeverReadable(db: Db, id: string)
      requires Stored(db, id) == None
      ensures Unreadable(db, id)
    {
    }

    /** The outcome of a callback whose GET, the first of its commands, takes effect at `t`. */
    function CallbackAnswer(up: nat -> bool, first: nat, db: Db, t: int, code: string, state: string,
                            profile: Option<Session>, id: string): CallbackOutcome {
      if code == "" || state == "" then MissingParameter else LookupAnswer(up, first, db, t, state, profile, id)
    }

    function LookupAnswer(up: nat -> bool, first: nat, db: Db, t: int, state: string, profile: Option<Session>,
        id: string)
      : (r: CallbackOutcome)
      ensures !r.MissingParameter?
    {
      match Fetched(up(first), db, state, t)
      case Err(_) => InvalidState
      case Ok(held) =>
        if profile.None? then ExchangeFailed
        else if !up(first + 2) then NotStored
        else SignedIn(id, Redirect(held.name, id, state))
    }

    /** Consumes the state a login stored, and stores a session under a fresh identifier. `profile` is
        what the provider says of the user, if every call to it succeeds and an organization matches. */
    method Callback(code: string, state: string, profile: Option<Session>, id: string)
      returns (r: CallbackOutcome, ghost t: int)
      requires Valid() && id != "" && id !in run.issued
      modifies this, redis
      ensures Valid() && run.logins == old(run.logins) && old(redis.now) <= t <= redis.now
      ensures r == CallbackAnswer(redis.up, old(redis.count), old(redis.db), t, code, state, profile, id)
      ensures r.MissingParameter? || r.InvalidState? ==> redis.db == old(redis.db)
      ensures forall other :: other != state && (other != id || !r.SignedIn?) ==>
        Stored(redis.db, other) == old(Stored(redis.db, other))
      ensures r.SignedIn? ==> Made(LastOf(run.log, id), profile, id) && id in run.tokens
      ensures r.SignedIn? ==> old(redis.now) <= LastOf(run.log, id).value.createdAt <= redis.now
      ensures !r.MissingParameter? && !r.InvalidState? ==> old(LastOf(run.log, state)).Some?
      ensures r.SignedIn? ==> r.token == id && LeadsTo(r.redirect, old(LastOf(run.log, state)).value.name, id, state)
      ensures !r.MissingParameter? && !r.InvalidState? && redis.up(old(redis.count) + 1) ==>
        run.lost == old(run.lost) && Unreadable(redis.db, state)
    {
      t := redis.now;
      if code == "" || state == "" {
        return MissingParameter, t;
      }
      r, t := CallbackOn(state, profile, id);
    }

    /** A callback with its parameters. */
    method CallbackOn(state: string, profile: Option<Session>, id: string) returns (r: CallbackOutcome, ghost t: int)
      requires Valid() && id != "" && id !in run.issued && state != ""
      modifies this, redis
      ensures Valid() && run.logins == old(run.logins) && old(redis.now) <= t <= redis.now
      ensures r == LookupAnswer(redis.up, old(redis.count), old(redis.db), t, state, profile, id)
      ensures r.InvalidState? ==> redis.db == old(redis.db)
      ensures forall other :: other != state && (other != id || !r.SignedIn?) ==>
        Stored(redis.db, other) == old(Stored(redis.db, other))
      ensures r.SignedIn? ==> Made(LastOf(run.log, id), profile, id) && id in run.tokens
      ensures r.SignedIn? ==> old(redis.now) <= LastOf(run.log, id).value.createdAt <= redis.now
      ensures !r.InvalidState? ==> old(LastOf(run.log, state)).Some?
      ensures r.SignedIn? ==> r.token == id && LeadsTo(r.redirect, old(LastOf(run.log, state)).value.name, id, state)
      ensures !r.InvalidState? && redis.up(old(redis.count) + 1) ==>
        run.lost == old(run.lost) && Unreadable(redis.db, state)
    {
      ghost var pid := NewHandler();
      var found;
      found, t := FindState(pid, state);
      if found.Err? {
        return InvalidState, t;
      }
      r := CallbackFound(pid, found.value, state, profile, id);
      if redis.up(old(redis.count) + 1) { NeverReadable(redis.db, state); }
    }

    /** A whole sign-in: a login, and the callback on the state it handed out. */
    method SignIn(state: string, redirect: string, code: string, profile: Option<Session>, id: string)
      returns (r: Option<CallbackOutcome>)
      requires Valid() && state != "" && state !in run.issued && id != "" && id !in run.issued && id != state
      modifies this, redis
      ensures Valid() && (r.Some? <==> redis.up(old(redis.count)))
      ensures r.Some? && r.value.SignedIn? ==>
        LeadsTo(r.value.redirect, redirect, id, state) && r.value.token == id && id in run.tokens
        && Made(LastOf(run.log, id), profile, id)
    {
      var handed := Login(state, redirect);
      if handed.None? {
        return None;
      }
      var answer, _ := Callback(code, handed.value, profile, id);
      r := Some(answer);
    }

    /** The start of a callback: the state is looked up. */
    method FindState(ghost pid: nat, state: string) returns (found: Result<Session, StoreFailure>, ghost t: int)
      requires Synced() && run.procs == map[] && pid !in run.started && state != ""
      modifies this`run, redis`now, redis`count
      ensures Synced() && old(redis.now) <= t == redis.now && redis.count == old(redis.count) + 1
      ensures found == Fetched(redis.up(old(redis.count)), redis.db, state, t)
      ensures run.log == old(run.log) && run.logins == old(run.logins) && run.lost == old(run.lost)
      ensures run.issued == old(run.issued)
      ensures found.Ok? ==> LastOf(run.log, state) == Some(found.value) && state in run.issued
      ensures run == old(run).(now := t, started := old(run.started) + {pid},
                               procs := if found.Ok? then map[pid := DeletingState(found.value, state)] else map[])
    {
      DoBegin(BeginCallback(pid, state), GettingState(state));
      found := stateStore.Get(state);
      t := redis.now;
      PassTo(t);
      if found.Ok? { FoundIsLast(old(run), state, t); }
      DoStateGet(pid, state, redis.up(old(redis.count)), found);
    }

    /** The session middleware's decision, when its GET takes effect at `t1` and its check at `t2`. */
    function Decision(up: bool, db: Db, id: string, t1: int, t2: int): Admission {
      match Fetched(up, db, id, t1)
      case Err(NotFound) => Unknown
      case Err(Broken) => StoreDown
      case Ok(sess) => if t2 > sess.expiresAt then TooOld else Welcome(sess)
    }

    method Authenticate(id: string, want: Want, ghost pid: nat) returns (r: Admission, ghost t1: int, ghost t2: int)
      requires Synced() && run.procs == map[] && pid !in run.started && id != ""
      modifies this`run, redis`now, redis`count
      ensures Synced() && old(redis.now) <= t1 <= t2 == redis.now && redis.count == old(redis.count) + 1
      ensures r == Decision(redis.up(old(redis.count)), redis.db, id, t1, t2)
      ensures r.Welcome? ==> r.sess.id == id && LastOf(run.log, id) == Some(r.sess) == Stored(redis.db, id)
      ensures run.log == old(run.log) && run.logins == old(run.logins) && run.lost == old(run.lost)
      ensures run == old(run).(now := t2, started := old(run.started) + {pid},
                               procs := if r.Welcome? then map[pid := Admitted(r.sess, want)] else map[])
    {
      DoBegin(BeginRequest(pid, id, want), Looking(id, want));
      var found := sessionStore.Get(id);
      t1 := redis.now;
      PassTo(t1);
      DoLookup(pid, id, want, redis.up(old(redis.count)), found);
      redis.Wait();
      t2 := redis.now;
      PassTo(t2);
      if found.Err? {
        return if found.error.NotFound? then Unknown else StoreDown, t1, t2;
      }
      FoundIsLast(old(run), id, t1);
      DoCheck(pid, found.value, want);
      r := if redis.now > found.value.expiresAt then TooOld else Welcome(found.value);
    }

    /** Admitted, the service deletes the session; a failed deletion is not reported. */
    method Logout(id: string) returns (r: Admission, ghost t1: int, ghost t2: int)
      requires Valid() && id != ""
      modifies this, redis
      ensures Valid() && run.logins == old(run.logins) && run.lost == old(run.lost)
      ensures r == Decision(redis.up(old(redis.count)), old(redis.db), id, t1, t2)
      ensures old(redis.now) <= t1 <= t2 <= redis.now
      ensures r.Welcome? ==> old(LastOf(run.log, id)) == Some(r.sess)
      ensures redis.db ==
        if r.Welcome? && redis.up(old(redis.count) + 1) then DelCmd(old(redis.db), Key(id)) else old(redis.db)
      ensures r.Welcome? && redis.up(old(redis.count) + 1) ==> Unreadable(redis.db, id)
    {
      ghost var pid := NewHandler();
      r, t1, t2 := Authenticate(id, WantLogout, pid);
      if r.Welcome? {
        LogoutAdmitted(pid, r.sess);
      }
    }

    /** The service method. */
    method LogoutAdmitted(ghost pid: nat, held: Session)
      requires Synced() && run.procs == map[pid := Admitted(held, WantLogout)]
      requires forall p | p in run.started :: p < nextPid
      modifies this, redis
      ensures Valid() && run.logins == old(run.logins) && run.lost == old(run.lost) && redis.now >= old(redis.now)
      ensures redis.db == if redis.up(old(redis.count)) then DelCmd(old(redis.db), Key(held.id)) else old(redis.db)
      ensures redis.up(old(redis.count)) ==> Unreadable(redis.db, held.id)
    {
      var ok := sessionStore.Delete(held.id);
      PassTo(redis.now);
      DoLogoutDel(pid, held, ok);
      StoredDel(old(redis.db), held.id);
      if ok { NeverReadable(redis.db, held.id); }
    }

    /** Admitted, the service gives the session a new expiry: it reads the record again, at `t3`, and
        writes it back. */
    method RefreshToken(id: string) returns (r: RefreshOutcome, ghost t1: int, ghost t2: int, ghost t3: int)
      requires Valid() && id != ""
      modifies this, redis
      ensures Valid() && run.logins == old(run.logins) && run.lost == old(run.lost)
      ensures old(redis.now) <= t1 <= t2 <= t3 <= redis.now
      ensures var c := old(redis.count);
        (r.Rejected? <==> !Decision(redis.up(c), old(redis.db), id, t1, t2).Welcome?)
        && (r.Refreshed? <==> !r.Rejected? && Fetched(redis.up(c + 1), old(redis.db), id, t3).Ok? && redis.up(c + 2))
      ensures !r.Refreshed? ==> redis.db == old(redis.db)
      ensures r.Refreshed? ==> t2 + config.sessionTtl <= r.expiresAt <= t3 + config.sessionTtl
      ensures r.Refreshed? ==> old(LastOf(run.log, id)).Some?
                               && LastOf(run.log, id) == Some(old(LastOf(run.log, id)).value.(expiresAt := r.expiresAt))
      ensures forall other :: other != id ==> Stored(redis.db, other) == old(Stored(redis.db, other))
    {
      ghost var pid := NewHandler();
      var admission: Admission;
      admission, t1, t2 := Authenticate(id, WantRefresh, pid);
      t3 := t2;
      if !admission.Welcome? {
        return Rejected, t1, t2, t3;
      }
      r, t3 := RefreshAdmitted(pid, admission.sess);
    }

    /** The service method. */
    method RefreshAdmitted(ghost pid: nat, held: Session) returns (r: RefreshOutcome, ghost read: int)
      requires Synced() && run.procs == map[pid := Admitted(held, WantRefresh)]
      requires forall p | p in run.started :: p < nextPid
      requires LastOf(run.log, held.id) == Some(held) == Stored(run.db, held.id)
      modifies this, redis
      ensures Valid() && run.logins == old(run.logins) && run.lost == old(run.lost)
      ensures old(redis.now) <= read <= redis.now
      ensures !r.Rejected?
      ensures r.Refreshed?
        <==> Fetched(redis.up(old(redis.count)), old(redis.db), held.id, read).Ok? && redis.up(old(redis.count) + 1)
      ensures !r.Refreshed? ==> redis.db == old(redis.db)
      ensures r.Refreshed? ==> old(redis.now) + config.sessionTtl <= r.expiresAt <= read + config.sessionTtl
      ensures r.Refreshed? ==> LastOf(run.log, held.id) == Some(held.(expiresAt := r.expiresAt))
      ensures forall other :: other != held.id ==> Stored(redis.db, other) == old(Stored(redis.db, other))
    {
      var newExpiry := PickExpiry(pid, held);
      r, read := RefreshHeld(pid, held, newExpiry);
    }

    /** The new expiry, from the clock as the service method finds it. */
    method PickExpiry(ghost pid: nat, held: Session) returns (newExpiry: int)
      requires Synced() && run.procs == map[pid := Admitted(held, WantRefresh)]
      modifies this`run, redis`now
      ensures Synced() && run == old(run).(now := redis.now, procs := map[pid := Refreshing(held.id, newExpiry)])
      ensures redis.now >= old(redis.now) && newExpiry == redis.now + config.sessionTtl
    {
      redis.Wait();
      PassTo(redis.now);
      newExpiry := redis.now + config.sessionTtl;
      DoStartRefresh(pid, held, newExpiry);
    }

    method RefreshHeld(ghost pid: nat, held: Session, newExpiry: int) returns (r: RefreshOutcome, ghost read: int)
      requires Synced() && run.procs == map[pid := Refreshing(held.id, newExpiry)]
      requires forall p | p in run.started :: p < nextPid
      requires LastOf(run.log, held.id) == Some(held) == Stored(run.db, held.id)
      modifies this, redis
      ensures Valid() && run.logins == old(run.logins) && run.lost == old(run.lost)
      ensures old(redis.now) <= read <= redis.now
      ensures r ==
        if Fetched(redis.up(old(redis.count)), old(redis.db), held.id, read).Ok? && redis.up(old(redis.count) + 1)
                   then Refreshed(newExpiry) else NotRefreshed
      ensures !r.Refreshed? ==> redis.db == old(redis.db)
      ensures r.Refreshed? ==> LastOf(run.log, held.id) == Some(held.(expiresAt := newExpiry))
      ensures forall other :: other != held.id ==> Stored(redis.db, other) == old(Stored(redis.db, other))
    {
      var ok;
      ghost var clock;
      ok, read, clock := sessionStore.Refresh(held.id, newExpiry);
      PassTo(read);
      ghost var found := Fetched(redis.up(old(redis.count)), run.db, held.id, read);
      DoRefreshGet(pid, held.id, newExpiry, redis.up(old(redis.count)), found);
      if found.Ok? {
        ghost var sess := held.(expiresAt := newExpiry);
        ghost var before := run;
        assert found.value == held;
        DoCreate(pid, sess, config.sessionTtl, ByRefresh(|old(run.log)|), ok, clock, redis.now);
        StoredSet(before.db, sess, redis.now, CreateTtl(sess, clock, config.sessionTtl));
        LastStep(old(run.log), Got(pid, held.id));
        if ok { LastStep(before.log, Created(pid, sess, clock, config.sessionTtl, redis.now)); }
      } else {
        PassTo(redis.now);
      }
      r := if ok then Refreshed(newExpiry) else NotRefreshed;
    }
  }
}
