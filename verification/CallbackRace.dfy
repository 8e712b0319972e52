/** The command line client's callback server: any number of HTTP handlers, the serving goroutine and
    one waiting call race on a token channel and an error channel, both with room for one. */
module CallbackRace {
  import opened Wrappers

  /** What a goroutine is about to do. */
  datatype Task =
    | Validating(token: string)  // a handler, before GET /auth/me answers
    | Offering(token: string)    // a handler, before its non-blocking send
    | Failing(cause: Cause)      // a handler or the server, before its send on the error channel

  datatype Cause = InvalidToken(token: string) | ServerError

  datatype Answer = Token(token: string) | Error(cause: Cause) | Timeout | Cancelled

  datatype State = State(
    tokenCh: seq<string>, errCh: seq<Cause>,
    tasks: map<nat, Task>, started: set<nat>,
    answer: Option<Answer>,      // what the waiting call returned
    accepted: set<string>,       // tokens the server accepted
    refused: set<string>,        // tokens the server refused
    sends: seq<string>,          // successful sends on the token channel, in order
    serverFailed: bool)

  const START := State([], [], map[], {}, None, {}, {}, [], false)

  const ROOM := 1

  datatype Step =
    | Arrive(id: nat, token: string)  // GET or POST /callback; one without a token ends at once
    | Validated(id: nat, ok: bool)
    | Offer(id: nat)
    | Report(id: nat)
    | ServeFails(id: nat)
    | TakeToken | TakeError | TimeOut | Cancel

  /** A send on the full error channel waits; the send on the token channel never does. */
  predicate Enabled(s: State, st: Step) {
    match st
    case Arrive(id, token) => id !in s.started && token != ""
    case Validated(id, _) => id in s.tasks && s.tasks[id].Validating?
    case Offer(id) => id in s.tasks && s.tasks[id].Offering?
    case Report(id) => id in s.tasks && s.tasks[id].Failing? && |s.errCh| < ROOM
    case ServeFails(id) => id !in s.started && !s.serverFailed
    case TakeToken => s.answer.None? && |s.tokenCh| > 0
    case TakeError => s.answer.None? && |s.errCh| > 0
    case TimeOut => s.answer.None?
    case Cancel => s.answer.None?
  }

  function Begin(s: State, id: nat, task: Task): State { s.(tasks := s.tasks[id := task], started := s.started + {id}) }

  function End(s: State, id: nat): State { s.(tasks := s.tasks - {id}) }

  function Apply(s: State, st: Step): State
    requires Enabled(s, st)
  {
    match st
    case Arrive(id, token) => Begin(s, id, Validating(token))
    case Validated(id, ok) =>
      var token := s.tasks[id].token;
      if ok then s.(tasks := s.tasks[id := Offering(token)], accepted := s.accepted + {token})
      else s.(tasks := s.tasks[id := Failing(InvalidToken(token))], refused := s.refused + {token})
    case Offer(id) =>
      var token := s.tasks[id].token;
      if |s.tokenCh| < ROOM then End(s, id).(tokenCh := s.tokenCh + [token], sends := s.sends + [token]) else End(s, id)
    case Report(id) => End(s, id).(errCh := s.errCh + [s.tasks[id].cause])
    case ServeFails(id) => Begin(s, id, Failing(ServerError)).(serverFailed := true)
    case TakeToken => s.(tokenCh := s.tokenCh[1..], answer := Some(Token(s.tokenCh[0])))
    case TakeError => s.(errCh := s.errCh[1..], answer := Some(Error(s.errCh[0])))
    case TimeOut => s.(answer := Some(Timeout))
    case Cancel => s.(answer := Some(Cancelled))
  }

  function Exec(s: State, steps: seq<Step>): Option<State>
    decreases |steps|
  {
    if steps == [] then Some(s)
    else
      match Exec(s, steps[..|steps| - 1])
      case None => None
      case Some(s1) => if Enabled(s1, steps[|steps| - 1]) then Some(Apply(s1, steps[|steps| - 1])) else None
  }

  ghost predicate Reachable(s: State) { exists steps :: Exec(START, steps) == Some(s) }

  // ---------- What every step keeps ----------

  predicate CauseOk(s: State, c: Cause) {
    match c case InvalidToken(token) => token in s.refused case ServerError => s.serverFailed
  }

  predicate TaskOk(s: State, t: Task) {
    match t
    case Validating(token) => token != ""
    case Offering(token) => token != "" && token in s.accepted
    case Failing(cause) => CauseOk(s, cause)
  }

  predicate Channels(s: State) {
    && |s.tokenCh| <= ROOM && |s.errCh| <= ROOM
    && (forall i :: 0 <= i < |s.sends| ==> s.sends[i] != "" && s.sends[i] in s.accepted)
    && (forall i :: 0 <= i < |s.errCh| ==> CauseOk(s, s.errCh[i]))
  }

  /** Until a token is taken the channel holds the first one sent, and no other was sent. */
  predicate FirstWins(s: State) {
    if s.answer.Some? && s.answer.value.Token? then
      && |s.sends| > 0 && s.sends[0] == s.answer.value.token
      && (|s.tokenCh| > 0 ==> s.tokenCh[0] in s.sends[1..])
    else
      s.tokenCh == s.sends
  }

  ghost predicate Inv(s: State) {
    Channels(s) && FirstWins(s) && TasksOk(s) && AnswerOk(s)
  }

  ghost predicate TasksOk(s: State) { forall id | id in s.tasks :: TaskOk(s, s.tasks[id]) }

  /** What was accepted, refused or had failed stays so. */
  lemma MoreIsKnown(s: State, t: State)
    requires s.accepted <= t.accepted && s.refused <= t.refused && (s.serverFailed ==> t.serverFailed)
    ensures forall task :: TaskOk(s, task) ==> TaskOk(t, task)
    ensures forall c :: CauseOk(s, c) ==> CauseOk(t, c)
  {
  }

  lemma TasksKept(s: State, st: Step)
    requires TasksOk(s) && Enabled(s, st)
    ensures TasksOk(Apply(s, st))
  {
    var t := Apply(s, st);
    MoreIsKnown(s, t);
    forall id | id in t.tasks ensures TaskOk(t, t.tasks[id]) {
      if id in s.tasks && t.tasks[id] == s.tasks[id] { assert TaskOk(s, s.tasks[id]); }
      else if id in s.tasks { assert TaskOk(s, s.tasks[id]); }
    }
  }

  lemma ChannelsKept(s: State, st: Step)
    requires Channels(s) && TasksOk(s) && Enabled(s, st)
    ensures Channels(Apply(s, st))
  {
    MoreIsKnown(s, Apply(s, st));
  }

  lemma FirstKept(s: State, st: Step)
    requires FirstWins(s) && Enabled(s, st)
    ensures FirstWins(Apply(s, st))
  {
    var t := Apply(s, st);
    if st.Offer? && |s.tokenCh| < ROOM && s.answer.Some? && s.answer.value.Token? {
      assert t.sends[1..] == s.sends[1..] + [t.tokenCh[0]];
    }
  }

  lemma InvKept(s: State, st: Step)
    requires Inv(s) && Enabled(s, st)
    ensures Inv(Apply(s, st))
  {
    TasksKept(s, st);
    ChannelsKept(s, st);
    FirstKept(s, st);
    AnswerKept(s, st);
  }

  predicate AnswerOk(s: State) { s.answer.Some? && s.answer.value.Error? ==> CauseOk(s, s.answer.value.cause) }

  lemma AnswerKept(s: State, st: Step)
    requires AnswerOk(s) && Channels(s) && Enabled(s, st)
    ensures AnswerOk(Apply(s, st))
  {
    MoreIsKnown(s, Apply(s, st));
  }

  lemma {:induction false} InvExec(steps: seq<Step>)
    ensures Exec(START, steps).Some? ==> Inv(Exec(START, steps).value)
    decreases |steps|
  {
    if steps != [] {
      InvExec(steps[..|steps| - 1]);
      match Exec(START, steps[..|steps| - 1])
      case None =>
      case Some(s1) => if Enabled(s1, steps[|steps| - 1]) { InvKept(s1, steps[|steps| - 1]); }
    }
  }

  lemma InvReachable(s: State)
    requires Reachable(s)
    ensures Inv(s)
  {
    var steps :| Exec(START, steps) == Some(s);
    InvExec(steps);
  }

  // ---------- The race ----------

  /** On every interleaving: the token channel holds at most one token, and every token in it or
      returned from it is a non-empty one the server accepted; a returned token is the first that
      was sent; a returned error has its cause in a refused token or the server. */
  lemma RaceSafe(s: State)
    requires Reachable(s)
    ensures |s.tokenCh| <= ROOM && forall i :: 0 <= i < |s.tokenCh| ==> s.tokenCh[i] in s.accepted && s.tokenCh[i] != ""
    ensures s.answer.Some? && s.answer.value.Token? ==>
      |s.sends| > 0 && s.answer.value.token == s.sends[0] && s.answer.value.token in s.accepted
      && s.answer.value.token != ""
    ensures s.answer.Some? && s.answer.value.Error? ==> CauseOk(s, s.answer.value.cause)
  {
    InvReachable(s);
    if |s.tokenCh| > 0 && s.answer.Some? && s.answer.value.Token? {
      var i :| 0 <= i < |s.sends[1..]| && s.sends[1..][i] == s.tokenCh[0];
      assert s.sends[i + 1] == s.tokenCh[0];
    }
  }

  /** No handler waits on the token channel, and an offer is turned down only when another token was
      sent before it: an accepted token is never lost to nothing. */
  lemma OffersGoThrough(s: State, id: nat)
    requires Reachable(s) && id in s.tasks && s.tasks[id].Offering?
    ensures Enabled(s, Offer(id)) && id !in Apply(s, Offer(id)).tasks
    ensures |Apply(s, Offer(id)).sends| > 0
    ensures s.answer.None? ==> Enabled(Apply(s, Offer(id)), TakeToken)
  {
    InvReachable(s);
  }

  /** A report of a failure waits exactly when the error channel is full. */
  lemma ReportsWait(s: State, id: nat)
    requires Reachable(s) && id in s.tasks && s.tasks[id].Failing?
    ensures !Enabled(s, Report(id)) <==> |s.errCh| == ROOM
  {
    InvReachable(s);
  }

  /** What the call returned tells which of the four it was that ended the wait, in every run. */
  lemma {:induction false} AnswerTells(steps: seq<Step>)
    requires Exec(START, steps).Some?
    ensures var a := Exec(START, steps).value.answer;
      && (a == Some(Timeout) <==> TimeOut in steps) && (a == Some(Cancelled) <==> Cancel in steps)
      && (a.Some? && a.value.Token? <==> TakeToken in steps) && (a.Some? && a.value.Error? <==> TakeError in steps)
    decreases |steps|
  {
    if steps != [] {
      var front, last := steps[..|steps| - 1], steps[|steps| - 1];
      AnswerTells(front);
      assert steps == front + [last];
      assert forall st :: st in steps <==> st in front || st == last;
    }
  }

  /** The call returns at most once: what it returned stays, in every continuation of the run. */
  lemma {:induction false} OneAnswer(s: State, steps: seq<Step>)
    requires s.answer.Some? && Exec(s, steps).Some?
    ensures Exec(s, steps).value.answer == s.answer
    decreases |steps|
  {
    if steps != [] { OneAnswer(s, steps[..|steps| - 1]); }
  }

  lemma ReachStep(s: State, st: Step)
    requires Reachable(s) && Enabled(s, st)
    ensures Reachable(Apply(s, st))
  {
    var steps :| Exec(START, steps) == Some(s);
    var more := steps + [st];
    assert more[..|more| - 1] == steps;
    assert Exec(START, more) == Some(Apply(s, st));
  }

  /** Two requests that were accepted before the call timed out, and whose tokens are refused after it:
      the second report waits for ever, because nobody reads the error channel any more. */
  lemma ReportStuck(a: nat, b: nat) returns (s: State)
    requires a != b
    ensures Reachable(s) && s.answer == Some(Timeout) && b in s.tasks && s.tasks[b].Failing? && !Enabled(s, Report(b))
  {
    assert Exec(START, []) == Some(START);
    s := START;
    ReachStep(s, Arrive(a, "x"));
    s := Apply(s, Arrive(a, "x"));
    ReachStep(s, Arrive(b, "y"));
    s := Apply(s, Arrive(b, "y"));
    ReachStep(s, TimeOut);
    s := Apply(s, TimeOut);
    ReachStep(s, Validated(a, false));
    s := Apply(s, Validated(a, false));
    ReachStep(s, Validated(b, false));
    s := Apply(s, Validated(b, false));
    ReachStep(s, Report(a));
    s := Apply(s, Report(a));
  }

  /** In no continuation of the run can the handler report. */
  ghost predicate WaitsForEver(s: State, id: nat) {
    forall steps | Exec(s, steps).Some? :: !Enabled(Exec(s, steps).value, Report(id))
  }

  lemma {:induction false} TasksStarted(s: State, steps: seq<Step>)
    requires Exec(START, steps) == Some(s)
    ensures s.tasks.Keys <= s.started
    decreases |steps|
  {
    if steps != [] { TasksStarted(Exec(START, steps[..|steps| - 1]).value, steps[..|steps| - 1]); }
  }

  /** A handler waits for ever to report a failure if and only if the error channel is full and the call
      has returned. */
  lemma StuckExactly(s: State, id: nat)
    requires Reachable(s) && id in s.tasks && s.tasks[id].Failing?
    ensures WaitsForEver(s, id) <==> |s.errCh| == ROOM && s.answer.Some?
  {
    ReportsWait(s, id);
    var run :| Exec(START, run) == Some(s);
    TasksStarted(s, run);
    assert Exec(s, []) == Some(s);
    if |s.errCh| == ROOM && s.answer.Some? {
      forall steps | Exec(s, steps).Some?
        ensures !Enabled(Exec(s, steps).value, Report(id))
      {
        StaysStuck(s, id, steps);
      }
    } else if |s.errCh| == ROOM {
      var steps := [TakeError];
      assert steps[..|steps| - 1] == [];
      assert Exec(s, steps) == Some(Apply(s, TakeError));
      assert Enabled(Apply(s, TakeError), Report(id));
    }
  }

  /** Once nobody reads it, a full error channel stays full, and a handler that waits to report waits
      in every continuation of the run. */
  lemma {:induction false} StaysStuck(s: State, id: nat, steps: seq<Step>)
    requires s.answer.Some? && |s.errCh| == ROOM && id in s.started && id in s.tasks && s.tasks[id].Failing?
    requires Exec(s, steps).Some?
    ensures var t := Exec(s, steps).value;
      |t.errCh| == ROOM && t.answer.Some? && id in t.started && id in t.tasks && t.tasks[id] == s.tasks[id]
      && !Enabled(t, Report(id))
    decreases |steps|
  {
    if steps != [] { StaysStuck(s, id, steps[..|steps| - 1]); }
  }
}
