/** From a request to a service method: the session middleware, the generated router, the generated
    security block and parameter decoding, in the order a request meets them. */
module Security {
  import opened Wrappers
  import opened PathText
  import opened RouteTable
  import opened Router
  import opened ClientPaths
  import JsonBits
  import opened SessionSystem
  import opened SessionTheorems

  /** What of a request these layers look at: every value of the Authorization header, and the value
      of the `session_id` cookie when there is one. */
  datatype Request = Request(verb: string, url: Url, authorization: seq<string>, cookie: Option<string>)

  // ---------- The session middleware ----------

  const PUBLIC_PATHS := [
    "/v1alpha1/health/liveness", "/v1alpha1/health/readiness", "/v1alpha1/auth/login", "/v1alpha1/auth/callback"]

  method IsPublicPath(path: string) returns (b: bool)
    ensures b <==> path in PUBLIC_PATHS
  {
    for i := 0 to |PUBLIC_PATHS|
      invariant path !in PUBLIC_PATHS[..i]
    {
      if path == PUBLIC_PATHS[i] {
        return true;
      }
      assert PUBLIC_PATHS[..i + 1] == PUBLIC_PATHS[..i] + [PUBLIC_PATHS[i]];
    }
    assert PUBLIC_PATHS[..|PUBLIC_PATHS|] == PUBLIC_PATHS;
    b := false;
  }

  const BEARER := "Bearer "

  /** The header wins over the cookie whenever its first value starts with the scheme. */
  function SessionId(req: Request): string {
    if |req.authorization| > 0 && HasPrefix(req.authorization[0], BEARER) then req.authorization[0][|BEARER|..]
    else if req.cookie.Some? then req.cookie.value
    else ""
  }

  predicate ByHeader(req: Request, id: string) { |req.authorization| > 0 && req.authorization[0] == "Bearer " + id }

  predicate ByCookie(req: Request, id: string) {
    req.cookie == Some(id) && (|req.authorization| > 0 ==> !("Bearer " <= req.authorization[0]))
  }

  /** The request names the session, by its header or, without a Bearer header, by its cookie. */
  predicate NamesSession(req: Request, id: string) { id != "" && (ByHeader(req, id) || ByCookie(req, id)) }

  lemma NamedExactly(req: Request, id: string)
    requires id != ""
    ensures NamesSession(req, id) <==> SessionId(req) == id
  {
    assert BEARER == "Bearer " && |BEARER| == 7;
    if |req.authorization| > 0 && "Bearer " <= req.authorization[0] {
      var v := req.authorization[0];
      assert v[..7] == BEARER && v == BEARER + v[7..];
      assert ("Bearer " + id)[7..] == id;
    }
  }

  datatype Gate = Public | MissingAuthentication | InvalidSession | StoreFailed | SessionExpired | Admit(sess: Session)

  /** The middleware's GET takes effect at `t1`, if the store answers at all, and its expiry check at
      `t2`. */
  method SessionMiddleware(req: Request, db: Db, storeUp: bool, t1: int, t2: int) returns (g: Gate)
    ensures g == GateOf(req, db, storeUp, t1, t2)
    ensures g == Public <==> req.url.path in PUBLIC_PATHS
    ensures g == MissingAuthentication <==> req.url.path !in PUBLIC_PATHS && forall id :: !NamesSession(req, id)
    ensures req.url.path !in PUBLIC_PATHS ==>
      forall id :: NamesSession(req, id) ==> g == Checked(db, id, storeUp, t1, t2)
  {
    if req.url.path !in PUBLIC_PATHS { GateByName(req, db, storeUp, t1, t2); }
    var open := IsPublicPath(req.url.path);
    if open {
      return Public;
    }
    var id := SessionId(req);
    if id == "" {
      return MissingAuthentication;
    }
    if !storeUp {
      return StoreFailed;
    }
    var found := GetCmd(db, Key(id), t1);
    if found.None? {
      return InvalidSession;
    }
    if t2 > found.value.expiresAt {
      return SessionExpired;
    }
    g := Admit(found.value);
  }

  function GateOf(req: Request, db: Db, storeUp: bool, t1: int, t2: int): Gate {
    if req.url.path in PUBLIC_PATHS then Public
    else if SessionId(req) == "" then MissingAuthentication
    else Checked(db, SessionId(req), storeUp, t1, t2)
  }

  /** The answer to a request that names a session. */
  function Checked(db: Db, id: string, storeUp: bool, t1: int, t2: int): (g: Gate)
    ensures !g.Public? && !g.MissingAuthentication?
  {
    if !storeUp then StoreFailed
    else
      match Admits(db, id, t1, t2)
      case Some(sess) => Admit(sess)
      case None => if GetCmd(db, Key(id), t1).Some? then SessionExpired else InvalidSession
  }

  lemma GateByName(req: Request, db: Db, storeUp: bool, t1: int, t2: int)
    requires req.url.path !in PUBLIC_PATHS
    ensures var g := GateOf(req, db, storeUp, t1, t2);
      (g == MissingAuthentication <==> forall id :: !NamesSession(req, id))
      && forall id :: NamesSession(req, id) ==> g == Checked(db, id, storeUp, t1, t2)
  {
    forall id | NamesSession(req, id) ensures SessionId(req) == id { NamedExactly(req, id); }
    if SessionId(req) != "" { NamedExactly(req, SessionId(req)); }
  }

  /** What `GetCurrentSession` returns behind the middleware. */
  function CurrentSession(g: Gate): Option<Session> {
    if g.Admit? then Some(g.sess) else None
  }

  // ---------- The generated security block ----------

  function Lower(c: char): char { if 'A' <= c <= 'Z' then (c as int + 32) as char else c }

  /** Equality of ASCII words up to case. */
  predicate EqualFold(a: string, b: string) {
    |a| == |b| && forall i :: 0 <= i < |a| ==> Lower(a[i]) == Lower(b[i])
  }

  function IndexSpace(s: string): (i: int)
    ensures -1 <= i < |s|
    ensures i >= 0 ==> s[i] == ' '
    ensures forall k :: 0 <= k < (if i >= 0 then i else |s|) ==> s[k] != ' '
  {
    if s == "" then -1 else if s[0] == ' ' then 0 else var i := IndexSpace(s[1..]); if i < 0 then -1 else i + 1
  }

  /** The credentials one header value carries for a scheme. */
  function Credentials(v: string, scheme: string): Option<string> {
    var i := IndexSpace(v);
    if i >= 0 && EqualFold(v[..i], scheme) then Some(v[i + 1..]) else None
  }

  /** "Bearer", in any case. */
  predicate SpellsBearer(w: string) {
    |w| == 6 && w[0] in "Bb" && w[1] in "Ee" && w[2] in "Aa" && w[3] in "Rr" && w[4] in "Ee" && w[5] in "Rr"
  }

  /** The credentials for the Bearer scheme are what follows the scheme and one blank. */
  lemma BearerCredentials(v: string)
    ensures Credentials(v, "Bearer") ==
      if |v| >= 7 && SpellsBearer(v[..6]) && v[6] == ' ' then Some(v[7..]) else None
  {
    var i := IndexSpace(v);
    if |v| >= 7 && SpellsBearer(v[..6]) && v[6] == ' ' {
      assert forall k :: 0 <= k < 6 ==> v[k] == v[..6][k];
      assert v[..6][0] != ' ' && v[..6][1] != ' ' && v[..6][2] != ' ' && v[..6][3] != ' ' && v[..6][4] != ' ';
      assert i == 6;
    }
    if i == 6 { FoldsBearer(v[..6]); }
  }

  lemma FoldsBearer(w: string)
    requires |w| == 6
    ensures EqualFold(w, "Bearer") <==> SpellsBearer(w)
  {
    assert EqualFold(w, "Bearer") <==> forall i :: 0 <= i < 6 ==> Lower(w[i]) == Lower("Bearer"[i]);
    assert "Bearer"[0] == 'B' && "Bearer"[1] == 'e' && "Bearer"[2] == 'a' && "Bearer"[3] == 'r' && "Bearer"[4] == 'e';
    assert "Bearer"[5] == 'r';
    if EqualFold(w, "Bearer") {
      LowerIs(w[0]); LowerIs(w[1]); LowerIs(w[2]); LowerIs(w[3]); LowerIs(w[4]); LowerIs(w[5]);
    }
  }

  lemma LowerIs(c: char)
    ensures Lower(c) == 'b' <==> c in "Bb"
    ensures Lower(c) == 'e' <==> c in "Ee"
    ensures Lower(c) == 'a' <==> c in "Aa"
    ensures Lower(c) == 'r' <==> c in "Rr"
  {
  }

  function FirstCredentials(values: seq<string>, scheme: string): Option<string> {
    if values == [] then None
    else if Credentials(values[0], scheme).Some? then Credentials(values[0], scheme)
    else FirstCredentials(values[1..], scheme)
  }

  method FindAuthorization(values: seq<string>, prefix: string) returns (r: Option<string>)
    ensures r == FirstCredentials(values, prefix)
  {
    for i := 0 to |values|
      invariant FirstCredentials(values, prefix) == FirstCredentials(values[i..], prefix)
    {
      var vv := values[i];
      assert values[i..][1..] == values[i + 1..];
      var cut := IndexSpace(vv);
      if cut < 0 || !EqualFold(vv[..cut], prefix) {
        continue;
      }
      return Some(vv[cut + 1..]);
    }
    r := None;
  }

  datatype Secured = Passed | BearerFailed | CookieFailed | NotSatisfied

  type Bitset = seq<bv8>

  predicate Has(satisfied: bv8, mask: bv8) { satisfied & mask == mask }

  /** Every bit of the mask is set. */
  lemma HasMeans(satisfied: bv8, mask: bv8)
    ensures Has(satisfied, mask) <==> JsonBits.Bits(mask) <= JsonBits.Bits(satisfied)
  {
    JsonBits.BitsLacking(satisfied, mask);
    JsonBits.SameByte(satisfied & mask, mask);
    JsonBits.NoBits((satisfied & mask) ^ mask);
  }

  predicate MeetsUpTo(satisfied: Bitset, requirement: Bitset, n: nat)
    requires n <= |requirement| == |satisfied|
  {
    forall i :: 0 <= i < n ==> Has(satisfied[i], requirement[i])
  }

  predicate Meets(satisfied: Bitset, requirement: Bitset)
    requires |satisfied| == |requirement|
  {
    MeetsUpTo(satisfied, requirement, |requirement|)
  }

  /** The inner loop, over the bytes of one requirement. */
  method MeetsRequirement(satisfied: Bitset, requirement: Bitset) returns (ok: bool)
    requires |requirement| == |satisfied|
    ensures ok <==> Meets(satisfied, requirement)
  {
    for i := 0 to |requirement|
      invariant MeetsUpTo(satisfied, requirement, i)
    {
      if !Has(satisfied[i], requirement[i]) {
        return false;
      }
    }
    ok := true;
  }

  /** The loop over the alternative requirements of an operation. */
  method SomeRequirement(satisfied: Bitset, requirements: seq<Bitset>) returns (ok: bool)
    requires forall j :: 0 <= j < |requirements| ==> |requirements[j]| == |satisfied|
    ensures ok <==> exists j :: 0 <= j < |requirements| && Meets(satisfied, requirements[j])
  {
    for j := 0 to |requirements|
      invariant forall k :: 0 <= k < j ==> !Meets(satisfied, requirements[k])
    {
      ok := MeetsRequirement(satisfied, requirements[j]);
      if ok {
        return;
      }
    }
    ok := false;
  }

  /** Bit 0 stands for the bearer scheme and bit 1 for the cookie; either one alone is enough. A
      credential that is present while no session is known is an error at once. */
  method SecurityBlock(values: seq<string>, cookie: Option<string>, sess: Option<Session>) returns (r: Secured)
    ensures r == SecuredOf(values, cookie, sess)
  {
    var satisfied: bv8 := 0;
    var token := FindAuthorization(values, "Bearer");
    if token.Some? {
      if sess.None? {
        return BearerFailed;
      }
      satisfied := satisfied | (1 << 0);
    }
    if cookie.Some? {
      if sess.None? {
        return CookieFailed;
      }
      satisfied := satisfied | (1 << 1);
    }
    var requirements := [[0x01], [0x02]];
    var ok := SomeRequirement([satisfied], requirements);
    BothBits(satisfied);
    assert requirements[0] == [0x01] && requirements[1] == [0x02];
    r := if ok then Passed else NotSatisfied;
  }

  lemma BothBits(satisfied: bv8)
    ensures Meets([satisfied], [0x01]) <==> satisfied & 0x01 == 0x01
    ensures Meets([satisfied], [0x02]) <==> satisfied & 0x02 == 0x02
  {
    assert [satisfied][0] == satisfied;
  }

  function SecuredOf(values: seq<string>, cookie: Option<string>, sess: Option<Session>): Secured {
    var bearer := FirstCredentials(values, "Bearer").Some?;
    if sess.None? then (if bearer then BearerFailed else if cookie.Some? then CookieFailed else NotSatisfied)
    else if bearer || cookie.Some? then Passed
    else NotSatisfied
  }

  // ---------- A request from end to end ----------

  /** The operations that declare a security requirement. */
  predicate HasSecurity(op: Op) {
    op.CreateProject? || op.CreateUser? || op.GetCurrentUser? || op.GetProject? || op.ListProjects? || op.ListUsers?
    || op.Logout? || op.RefreshToken? || op.UpdateProject?
  }

  predicate IsPublicOp(op: Op) {
    op.GetLivenessCheck? || op.GetReadinessCheck? || op.InitiateLogin? || op.HandleOAuthCallback?
  }

  datatype Reply =
    | Refused(gate: Gate)          // 401 from the middleware, or 500 when the store fails
    | Unrouted(outcome: Outcome)   // 404 or 405
    | Insecure(why: Secured)       // 401 from the security block
    | BadParameters | BadBody      // 400
    | Ran(op: Op, params: seq<string>, sess: Option<Session>)  // the service method is called

  predicate Decoded(args: seq<string>, escaped: bool, params: seq<string>) {
    |params| == |args| && forall i :: 0 <= i < |args| ==> DecodeParam(args[i], escaped) == Some(params[i])
  }

  predicate Undecodable(args: seq<string>, escaped: bool) {
    exists i :: 0 <= i < |args| && DecodeParam(args[i], escaped) == None
  }

  /** The reply the layers together must give: each reason to stop, exactly when no earlier one holds. */
  predicate Follows(req: Request, gate: Gate, out: Outcome, queryOk: bool, bodyOk: bool, r: Reply) {
    if !gate.Public? && !gate.Admit? then r == Refused(gate)
    else if !out.Dispatch? then r == Unrouted(out)
    else
      var secured := SecuredOf(req.authorization, req.cookie, CurrentSession(gate));
      if HasSecurity(out.op) && secured != Passed then r == Insecure(secured)
      else if Undecodable(out.args, out.escaped) || !queryOk then r == BadParameters
      else if !bodyOk then r == BadBody
      else r.Ran? && r.op == out.op && r.sess == CurrentSession(gate) && Decoded(out.args, out.escaped, r.params)
  }

  /** `queryOk` and `bodyOk` tell whether the query parameters and the request body decode. */
  method Handle(plain: char -> bool, req: Request, db: Db, storeUp: bool, t1: int, t2: int, queryOk: bool, bodyOk: bool)
    returns (r: Reply)
    ensures Follows(req, GateOf(req, db, storeUp, t1, t2), Served("", plain, req.verb, req.url), queryOk, bodyOk, r)
  {
    var gate := SessionMiddleware(req, db, storeUp, t1, t2);
    if !gate.Public? && !gate.Admit? {
      return Refused(gate);
    }
    var out := ServeHTTP("", plain, req.verb, req.url);
    if !out.Dispatch? {
      return Unrouted(out);
    }
    if HasSecurity(out.op) {
      var secured := SecurityBlock(req.authorization, req.cookie, CurrentSession(gate));
      if secured != Passed {
        return Insecure(secured);
      }
    }
    var params := DecodeParams(out.args, out.escaped);
    if params.Err? || !queryOk {
      return BadParameters;
    }
    if !bodyOk {
      return BadBody;
    }
    r := Ran(out.op, params.value, CurrentSession(gate));
  }
}
