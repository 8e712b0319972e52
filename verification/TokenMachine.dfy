/** The command line client's token: in memory, in one file, in the environment, from the OAuth flow
    or typed in. Every use is checked against the server first. */
module TokenMachine {
  import opened Wrappers

  // ---------- The token file ----------

  datatype Cell = NoFile | Holds(token: string) | Garbled

  /** How a file operation goes. A write that fails may leave the file as it was, cut short, or
      written after all. */
  datatype Fate = Works | Fails | CutShort | FailsLate

  /** `token.json`. `fate` says how each operation on it goes, counted from the first. */
  class TokenStorage {
    const fate: nat -> Fate
    var cell: Cell
    var ops: nat

    constructor (fate: nat -> Fate, cell: Cell)
      ensures this.fate == fate && this.cell == cell && ops == 0
    {
      this.fate, this.cell, ops := fate, cell, 0;
    }

    method SaveToken(token: string) returns (ok: bool)
      modifies this
      ensures ops == old(ops) + 1 && (ok <==> fate(old(ops)).Works?)
      ensures cell == match fate(old(ops)) case Fails => old(cell) case CutShort => Garbled case _ => Holds(token)
    {
      var f := fate(ops);
      ops := ops + 1;
      if f.CutShort? {
        cell := Garbled;
      } else if !f.Fails? {
        cell := Holds(token);
      }
      ok := f.Works?;
    }

    /** No file is no error; a file that cannot be read or parsed is. */
    method LoadToken() returns (r: Result<Option<string>, ()>)
      modifies this`ops
      ensures ops == old(ops) + 1
      ensures r ==
        if cell.NoFile? then Ok(None) else if cell.Holds? && fate(old(ops)).Works? then Ok(Some(cell.token))
        else Err(())
    {
      var f := fate(ops);
      ops := ops + 1;
      if cell.NoFile? {
        return Ok(None);
      }
      r := if f.Works? && cell.Holds? then Ok(Some(cell.token)) else Err(());
    }

    method RemoveToken() returns (ok: bool)
      modifies this
      ensures ops == old(ops) + 1 && (ok <==> old(cell).NoFile? || fate(old(ops)).Works?)
      ensures cell == if ok then NoFile else old(cell)
    {
      ok := cell.NoFile? || fate(ops).Works?;
      ops := ops + 1;
      if ok { cell := NoFile; }
    }

    /** The last operation succeeded. */
    predicate LastWorked()
      reads this
    {
      ops > 0 && fate(ops - 1).Works?
    }

    function HasToken(): bool
      reads this
    {
      !cell.NoFile?
    }
  }

  // ---------- What happens ----------

  /** `Call` marks the start of a call of the client. */
  datatype Event = Call | Accepted(token: string) | Refused(token: string) | Sent(token: string) | Saved(token: string)

  /** The tokens the server accepted since the last call began. */
  function Fresh(trace: seq<Event>): set<string> {
    if trace == [] then {}
    else
      var before := trace[..|trace| - 1];
      match trace[|trace| - 1]
      case Call => {}
      case Accepted(token) => Fresh(before) + {token}
      case _ => Fresh(before)
  }

  function Ever(trace: seq<Event>): set<string> {
    if trace == [] then {}
    else
      var before := trace[..|trace| - 1];
      match trace[|trace| - 1] case Accepted(token) => Ever(before) + {token} case _ => Ever(before)
  }

  function SavedEver(trace: seq<Event>): set<string> {
    if trace == [] then {}
    else
      var before := trace[..|trace| - 1];
      match trace[|trace| - 1] case Saved(token) => SavedEver(before) + {token} case _ => SavedEver(before)
  }

  /** Every request carried a token accepted earlier in the same call, and every saved token had been
      accepted. */
  predicate TraceOk(trace: seq<Event>) {
    trace == [] || (TraceOk(trace[..|trace| - 1]) && EventOk(trace[..|trace| - 1], trace[|trace| - 1]))
  }

  predicate EventOk(before: seq<Event>, e: Event) {
    (e.Sent? ==> e.token in Fresh(before)) && (e.Saved? ==> e.token in Ever(before))
  }

  lemma Extend(trace: seq<Event>, e: Event)
    ensures TraceOk(trace + [e]) <==> TraceOk(trace) && EventOk(trace, e)
    ensures Fresh(trace + [e]) ==
      (if e.Call? then {} else if e.Accepted? then Fresh(trace) + {e.token} else Fresh(trace))
    ensures Ever(trace + [e]) == (if e.Accepted? then Ever(trace) + {e.token} else Ever(trace))
    ensures SavedEver(trace + [e]) == (if e.Saved? then SavedEver(trace) + {e.token} else SavedEver(trace))
  {
    assert (trace + [e])[..|trace|] == trace;
  }

  lemma {:induction false} FreshIsEver(trace: seq<Event>)
    ensures Fresh(trace) <= Ever(trace)
  {
    if trace != [] { FreshIsEver(trace[..|trace| - 1]); }
  }

  /** What the trace says, event by event: between the acceptance and the request no new call began. */
  lemma {:induction false} SentWasAccepted(trace: seq<Event>, i: nat)
    requires TraceOk(trace) && i < |trace| && trace[i].Sent?
    ensures exists k :: 0 <= k < i && trace[k] == Accepted(trace[i].token) && forall n :: k < n < i ==> !trace[n].Call?
    decreases |trace|
  {
    if i == |trace| - 1 {
      var k := FreshSince(trace[..i], trace[i].token);
      assert trace[k] == trace[..i][k];
      assert forall n :: k < n < i ==> trace[n] == trace[..i][n];
    } else {
      var front := trace[..|trace| - 1];
      SentWasAccepted(front, i);
      assert forall n :: 0 <= n < |front| ==> front[n] == trace[n];
    }
  }

  lemma {:induction false} FreshSince(trace: seq<Event>, token: string) returns (k: nat)
    requires token in Fresh(trace)
    ensures k < |trace| && trace[k] == Accepted(token) && forall n :: k < n < |trace| ==> !trace[n].Call?
    decreases |trace|
  {
    k := |trace| - 1;
    if trace[k] != Accepted(token) {
      k := FreshSince(trace[..|trace| - 1], token);
      assert trace[..|trace| - 1][k] == trace[k];
      assert forall n :: k < n < |trace| - 1 ==> trace[n] == trace[..|trace| - 1][n];
    }
  }

  // ---------- One authentication ----------

  /** Whose token the server accepted: the one in memory, the one of the environment, or the one given
      by the OAuth flow or, when that fails, typed in. */
  datatype Source = Memory | Environment | Given | Nobody

  /** What checking a new token leaves in the trace. */
  function Verdict(token: string, ok: bool, storage: bool): seq<Event> {
    if !ok then [Refused(token)] else if storage then [Accepted(token), Saved(token)] else [Accepted(token)]
  }

  function HeldPart(held: string, source: Source): seq<Event> {
    if held == "" then [] else [if source.Memory? then Accepted(held) else Refused(held)]
  }

  function EnvironmentPart(envToken: string, source: Source, storage: bool): seq<Event> {
    if envToken == "" || source.Memory? then [] else Verdict(envToken, source.Environment?, storage)
  }

  function GivenPart(given: Option<string>, source: Source, storage: bool): seq<Event> {
    if given.None? || source.Memory? || source.Environment? then [] else Verdict(given.value, source.Given?, storage)
  }

  /** The candidates are checked in order until one is accepted; a new one is then saved. */
  function Attempt(held: string, envToken: string, given: Option<string>, source: Source, storage: bool): seq<Event> {
    HeldPart(held, source) + EnvironmentPart(envToken, source, storage) + GivenPart(given, source, storage)
  }

  /** Only a token that is there can be accepted. */
  predicate Possible(held: string, envToken: string, given: Option<string>, source: Source) {
    (source.Memory? ==> held != "") && (source.Environment? ==> envToken != "") && (source.Given? ==> given.Some?)
  }

  /** The token in memory afterwards; that of the environment stays when everything is refused. */
  function TokenAfter(held: string, envToken: string, given: Option<string>, source: Source): string
    requires Possible(held, envToken, given, source)
  {
    match source case Memory => held case Given => given.value case _ => envToken
  }

  function GivenToken(flow: Option<string>, typed: Option<string>): Option<string> {
    if flow.Some? then flow else typed
  }

  lemma TwoMore(t: seq<Event>, a: Event, b: Event)
    ensures (t + [a]) + [b] == t + [a, b]
  {
  }

  lemma HeldAccepted(t: seq<Event>, held: string, envToken: string, given: Option<string>, storage: bool)
    ensures t + HeldPart(held, Memory) == t + Attempt(held, envToken, given, Memory, storage)
  {
    assert HeldPart(held, Memory) + [] + [] == HeldPart(held, Memory);
  }

  lemma EnvironmentAccepted(t: seq<Event>, held: string, envToken: string, given: Option<string>, storage: bool)
    requires envToken != ""
    ensures (t + HeldPart(held, Nobody)) + Verdict(envToken, true, storage)
         == t + Attempt(held, envToken, given, Environment, storage)
  {
    ThreeParts(t, HeldPart(held, Nobody), Verdict(envToken, true, storage), []);
  }

  lemma GivenChecked(t: seq<Event>, held: string, envToken: string, given: Option<string>, source: Source,
      storage: bool, e: seq<Event>)
    requires source.Given? || source.Nobody?
    requires e == EnvironmentPart(envToken, Nobody, storage)
    ensures ((t + HeldPart(held, Nobody)) + e) + GivenPart(given, source, storage)
         == t + Attempt(held, envToken, given, source, storage)
  {
    ThreeParts(t, HeldPart(held, Nobody), e, GivenPart(given, source, storage));
  }

  lemma ThreeParts(t: seq<Event>, h: seq<Event>, e: seq<Event>, g: seq<Event>)
    ensures ((t + h) + e) + g == t + (h + e + g)
    ensures (t + h) + e == t + (h + e + [])
  {
  }

  // ---------- The client ----------

  class Client {
    var bearerToken: string
    const storage: TokenStorage?
    ghost var trace: seq<Event>
    ghost const found: Cell  // what the file held when the client was made

    /** The file holds what it held at first, or a token that was saved, or nothing usable. */
    ghost predicate FileKnown()
      reads this, storage
    {
      storage != null && storage.cell.Holds? ==> storage.cell == found || storage.cell.token in SavedEver(trace)
    }

    ghost predicate Valid()
      reads this, storage
    {
      TraceOk(trace) && FileKnown()
    }

    /** The file holds the token, unless there is none or writing it failed. */
    predicate FileHas(token: string)
      reads this, storage
    {
      storage != null && storage.LastWorked() ==> storage.cell == Holds(token)
    }

    /** A client without storage when its directory cannot be made. */
    constructor (storage: TokenStorage?)
      modifies storage
      ensures Valid() && this.storage == storage && trace == []
      ensures storage != null ==> storage.cell == old(storage.cell)
      ensures bearerToken ==
        if storage != null && storage.cell.Holds? && storage.fate(old(storage.ops)).Works? then storage.cell.token
        else ""
    {
      this.storage := storage;
      bearerToken := "";
      trace := [];
      found := if storage == null then NoFile else storage.cell;
      new;
      if storage != null {
        var stored := storage.LoadToken();
        if stored.Ok? && stored.value.Some? {
          bearerToken := stored.value.value;
        }
      }
    }

    ghost method Log(e: Event)
      requires Valid() && EventOk(trace, e)
      modifies this`trace
      ensures Valid() && trace == old(trace) + [e]
    {
      Extend(trace, e);
      trace := trace + [e];
    }

    /** GET /v1alpha1/auth/me: the server's answer may be different every time. */
    method GetCurrentUser(token: string) returns (ok: bool)
      requires Valid()
      modifies this`trace
      ensures Valid() && trace == old(trace) + [if ok then Accepted(token) else Refused(token)]
      ensures Fresh(trace) == if ok then old(Fresh(trace)) + {token} else old(Fresh(trace))
    {
      ok := *;
      Extend(trace, if ok then Accepted(token) else Refused(token));
      Log(if ok then Accepted(token) else Refused(token));
    }

    /** A failed save is only logged. */
    method Save(token: string)
      requires Valid() && token in Fresh(trace)
      modifies this`trace, storage
      ensures Valid() && Fresh(trace) == old(Fresh(trace))
      ensures trace == if storage != null then old(trace) + [Saved(token)] else old(trace)
      ensures FileHas(token)
    {
      if storage != null {
        FreshIsEver(trace);
        Extend(trace, Saved(token));
        Log(Saved(token));
        var ok := storage.SaveToken(token);
      }
    }

    /** `envToken` is BEARER_TOKEN; `flow` what the OAuth flow returns, if it succeeds; `typed` what is
        typed in when it does not. */
    method EnsureAuthenticated(envToken: string, flow: Option<string>, typed: Option<string>)
      returns (ok: bool, ghost source: Source)
      requires Valid()
      modifies this`trace, this`bearerToken, storage
      ensures Valid() && (ok <==> !source.Nobody?) && (ok ==> bearerToken in Fresh(trace))
      ensures Possible(old(bearerToken), envToken, GivenToken(flow, typed), source)
      ensures bearerToken == TokenAfter(old(bearerToken), envToken, GivenToken(flow, typed), source)
      ensures storage != null && source.Memory? ==> storage.cell == old(storage.cell)
      ensures source.Environment? || source.Given? ==> FileHas(bearerToken)
      ensures trace ==
        old(trace) + Attempt(old(bearerToken), envToken, GivenToken(flow, typed), source, storage != null)
    {
      ghost var held, t, given := bearerToken, trace, GivenToken(flow, typed);
      ok := CheckHeld();
      if ok {
        source := Memory;
        HeldAccepted(t, held, envToken, given, storage != null);
        return;
      }
      ok, source := CheckOthers(envToken, flow, typed, t, held);
    }

    /** The candidates after the token in memory. */
    method CheckOthers(envToken: string, flow: Option<string>, typed: Option<string>, ghost t: seq<Event>,
        ghost held: string)
      returns (ok: bool, ghost source: Source)
      requires Valid() && bearerToken == "" && trace == t + HeldPart(held, Nobody)
      modifies this`trace, this`bearerToken, storage
      ensures Valid() && (ok <==> !source.Nobody?) && (ok ==> bearerToken in Fresh(trace)) && !source.Memory?
      ensures Possible("", envToken, GivenToken(flow, typed), source)
      ensures bearerToken == TokenAfter("", envToken, GivenToken(flow, typed), source)
      ensures source.Environment? || source.Given? ==> FileHas(bearerToken)
      ensures trace == t + Attempt(held, envToken, GivenToken(flow, typed), source, storage != null)
    {
      ghost var given, e := GivenToken(flow, typed), EnvironmentPart(envToken, Nobody, storage != null);
      if envToken != "" {
        ok := TryEnvironment(envToken);
        if ok {
          source := Environment;
          EnvironmentAccepted(t, held, envToken, given, storage != null);
          return;
        }
      }
      assert trace == (t + HeldPart(held, Nobody)) + e;
      ok := SignIn(flow, typed);
      source := if ok then Given else Nobody;
      GivenChecked(t, held, envToken, given, source, storage != null, e);
    }

    /** The token in memory, if there is one; a token that is refused is forgotten. */
    method CheckHeld() returns (ok: bool)
      requires Valid()
      modifies this`trace, this`bearerToken, storage
      ensures Valid() && (ok ==> old(bearerToken) != "" && bearerToken in Fresh(trace))
      ensures bearerToken == if ok then old(bearerToken) else ""
      ensures storage != null && ok ==> storage.cell == old(storage.cell)
      ensures trace == old(trace) + HeldPart(old(bearerToken), if ok then Memory else Nobody)
    {
      ok := false;
      if bearerToken != "" {
        ok := GetCurrentUser(bearerToken);
        if ok {
          return;
        }
        if storage != null {
          var removed := storage.RemoveToken();
        }
        bearerToken := "";
      }
    }

    /** The token of the environment, which stays in memory even when it is refused. */
    method TryEnvironment(envToken: string) returns (ok: bool)
      requires Valid()
      modifies this`trace, this`bearerToken, storage
      ensures Valid() && bearerToken == envToken && (ok ==> bearerToken in Fresh(trace))
      ensures ok ==> FileHas(bearerToken)
      ensures trace == old(trace) + Verdict(envToken, ok, storage != null)
    {
      bearerToken := envToken;
      ok := GetCurrentUser(bearerToken);
      if ok {
        TwoMore(old(trace), Accepted(envToken), Saved(envToken));
        Save(bearerToken);
      }
    }

    /** The OAuth flow, or what is typed in; memory changes only when the server accepts the token. */
    method SignIn(flow: Option<string>, typed: Option<string>) returns (ok: bool)
      requires Valid()
      modifies this`trace, this`bearerToken, storage
      ensures Valid() && (ok ==> GivenToken(flow, typed).Some? && bearerToken in Fresh(trace))
      ensures bearerToken == if ok then GivenToken(flow, typed).value else old(bearerToken)
      ensures ok ==> FileHas(bearerToken)
      ensures trace == old(trace) + GivenPart(GivenToken(flow, typed), if ok then Given else Nobody, storage != null)
    {
      var token := flow;
      if token.None? {
        token := typed;
        if token.None? {
          return false;
        }
      }
      ok := GetCurrentUser(token.value);
      if ok {
        TwoMore(old(trace), Accepted(token.value), Saved(token.value));
        bearerToken := token.value;
        Save(bearerToken);
      }
    }

    /** `get` and `post`: the request is sent with the token that was just checked. `built` tells
        whether the body could be marshalled and the request created. */
    method Request(envToken: string, flow: Option<string>, typed: Option<string>, built: bool)
      returns (sent: Option<string>, ghost source: Source)
      requires Valid()
      modifies this`trace, this`bearerToken, storage
      ensures Valid() && (sent.Some? <==> !source.Nobody? && built) && (sent.Some? ==> sent.value == bearerToken)
      ensures Possible(old(bearerToken), envToken, GivenToken(flow, typed), source)
      ensures bearerToken == TokenAfter(old(bearerToken), envToken, GivenToken(flow, typed), source)
      ensures trace ==
        (old(trace) + [Call]) + Attempt(old(bearerToken), envToken, GivenToken(flow, typed), source, storage != null)
                       + if sent.Some? then [Sent(sent.value)] else []
    {
      Log(Call);
      var ok;
      ok, source := EnsureAuthenticated(envToken, flow, typed);
      if !ok || !built {
        return None, source;
      }
      Extend(trace, Sent(bearerToken));
      Log(Sent(bearerToken));
      sent := Some(bearerToken);
    }

    /** The token in memory is dropped first, so it is not a candidate. */
    method Authenticate(envToken: string, flow: Option<string>, typed: Option<string>)
      returns (ok: bool, ghost source: Source)
      requires Valid()
      modifies this`trace, this`bearerToken, storage
      ensures Valid() && (ok <==> !source.Nobody?) && !source.Memory?
      ensures Possible("", envToken, GivenToken(flow, typed), source)
      ensures bearerToken == TokenAfter("", envToken, GivenToken(flow, typed), source)
      ensures trace == (old(trace) + [Call]) + Attempt("", envToken, GivenToken(flow, typed), source, storage != null)
    {
      Log(Call);
      bearerToken := "";
      ok, source := EnsureAuthenticated(envToken, flow, typed);
    }

    method SetBearerToken(token: string)
      requires Valid()
      modifies this`bearerToken
      ensures Valid() && bearerToken == token
    {
      bearerToken := token;
    }

    /** The token in memory goes in any case; success means that the file is gone too. */
    method Logout() returns (ok: bool)
      requires Valid()
      modifies this`trace, this`bearerToken, storage
      ensures Valid() && bearerToken == "" && trace == old(trace) + [Call]
      ensures ok <==> storage == null || old(storage.cell).NoFile? || storage.fate(old(storage.ops)).Works?
      ensures ok && storage != null ==> storage.cell == NoFile && !storage.HasToken()
      ensures !ok ==> storage.cell == old(storage.cell)
    {
      Log(Call);
      bearerToken := "";
      ok := true;
      if storage != null {
        ok := storage.RemoveToken();
      }
    }
  }
}
