/** What the layers promise together: public paths reach public operations only, and behind the
    middleware every other operation runs with a session that was stored, not deleted and not expired. */
module SecurityTheorems {
  import opened Wrappers
  import opened PathText
  import opened RouteTable
  import opened Router
  import opened RouterTheorems
  import opened ClientPaths
  import opened SessionSystem
  import opened SessionSafety
  import opened SessionHistory
  import opened SessionTheorems
  import opened Security

  /** What `net/url` guarantees of a parsed URL: the escaped form, when kept, decodes to the path. */
  predicate WellFormed(u: Url) { u.rawPath == "" || Unescape(u.rawPath) == Some(u.path) }

  predicate IsPublicPattern(p: Pattern) { p.LivenessPath? || p.ReadinessPath? || p.LoginPath? || p.CallbackPath? }

  lemma PublicOps(op: Op)
    ensures IsPublicOp(op) <==> IsPublicPattern(PatternOf(op))
  {
  }

  /** The element the router walks is the path, or decodes to it. */
  lemma ElementMeans(plain: char -> bool, u: Url)
    requires !plain('%') && WellFormed(u)
    ensures Element(plain, u).0 == u.path || Unescape(Element(plain, u).0) == Some(u.path)
  {
    if u.rawPath != "" { NormalizeMeaning(plain, u.rawPath); }
  }

  lemma PublicPathsSpelled()
    ensures PathOf(LivenessPath, []) == PUBLIC_PATHS[0] && PathOf(ReadinessPath, []) == PUBLIC_PATHS[1]
    ensures PathOf(LoginPath, []) == PUBLIC_PATHS[2] && PathOf(CallbackPath, []) == PUBLIC_PATHS[3]
  {
    FixedPath(LivenessPath);
    FixedPath(ReadinessPath);
    FixedPath(LoginPath);
    FixedPath(CallbackPath);
    AuthLiterals();
    OtherLiterals();
  }

  lemma FixedMatches(p: Pattern)
    requires Arity(p) == 0
    ensures Matches(p, PathOf(p, []))
  {
    ArityIs(p);
    RenderedMatches(p, []);
  }

  /** Of the parameterless patterns exactly four have a public path. */
  lemma FixedPublic(p: Pattern)
    requires Arity(p) == 0
    ensures PathOf(p, []) in PUBLIC_PATHS <==> IsPublicPattern(p)
  {
    PublicPathsSpelled();
    var path := PathOf(p, []);
    if path in PUBLIC_PATHS {
      var i :| 0 <= i < |PUBLIC_PATHS| && PUBLIC_PATHS[i] == path;
      var q := if i == 0 then LivenessPath else if i == 1 then ReadinessPath else if i == 2 then LoginPath
      else CallbackPath;
      FixedMatches(p);
      FixedMatches(q);
      PatternsDisjoint(p, q, path);
    }
  }

  /** A parameterless path is spelled in one way only. */
  lemma FixedIsPlain(p: Pattern)
    requires Arity(p) == 0
    ensures Unescape(PathOf(p, [])) == Some(PathOf(p, []))
  {
    FixedPath(p);
    ShapeLiterals(p);
    var s := Shape(p);
    assert '%' !in "/v1alpha1/" && '%' !in "/";
    RenderFixed(p, []);
    assert s[0].Lit? && Clean(s[0].text);
    assert |s| == 2 ==> Clean(s[1].text);
    assert '%' !in PathOf(p, []);
    UnescapePlain(PathOf(p, []));
  }

  lemma ProjectsElement(p: Pattern, elem: string)
    requires Arity(p) > 0 && Matches(p, elem)
    ensures HasPrefix(elem, "/v1alpha1/") && |elem| > 10 && elem[10] == 'p'
  {
    OnlyBelowBase(p, elem);
    var rest := elem[10..];
    assert elem == "/v1alpha1/" + rest;
    CutBase(rest);
    assert Split(rest)[0] == "projects";
    FirstSegmentPrefix(rest);
    assert "projects"[0] == 'p';
  }

  /** A letter after the base survives decoding where it stands. */
  lemma DecodedRoot(elem: string, path: string)
    requires HasPrefix(elem, "/v1alpha1/") && |elem| > 10 && elem[10] != '%'
    requires elem == path || Unescape(elem) == Some(path)
    ensures |path| > 10 && path[10] == elem[10]
  {
    if elem != path {
      var rest := elem[10..];
      assert elem == "/v1alpha1/" + rest;
      assert '%' !in "/v1alpha1/";
      LiteralPrefix(c => false, "/v1alpha1/", rest);
      assert rest[0] == elem[10];
    }
  }

  lemma PublicRoots(path: string)
    requires path in PUBLIC_PATHS
    ensures |path| > 10 && (path[10] == 'h' || path[10] == 'a')
  {
  }

  /** Whatever spelling of a path the router works on, the operation it dispatches to is public
      exactly when the decoded path, the one the middleware looks at, is one of the public four. */
  lemma PublicAgrees(plain: char -> bool, verb: string, u: Url)
    requires !plain('%') && WellFormed(u) && Served("", plain, verb, u).Dispatch?
    ensures IsPublicOp(Served("", plain, verb, u).op) <==> u.path in PUBLIC_PATHS
  {
    var (elem, escaped) := Element(plain, u);
    DispatchedMatch(elem, verb, escaped);
    ElementMeans(plain, u);
    var op := Served("", plain, verb, u).op;
    var p := PatternOf(op);
    PublicOps(op);
    if Arity(p) == 0 {
      FixedPathIs(p, elem);
      FixedIsPlain(p);
      FixedPublic(p);
    } else {
      ProjectsElement(p, elem);
      DecodedRoot(elem, u.path);
      if u.path in PUBLIC_PATHS { PublicRoots(u.path); }
    }
  }

  lemma FixedPathIs(p: Pattern, elem: string)
    requires Arity(p) == 0 && Matches(p, elem)
    ensures elem == PathOf(p, [])
  {
    MatchIsRendered(p, elem);
    ArityIs(p);
    assert ArgsOf(p, elem) == [];
  }

  predicate OnRolesOrGroups(op: Op) {
    op.CreateRole? || op.GetRole? || op.ListRoles? || op.UpdateRole?
    || op.CreateUserGroup? || op.GetUserGroup? || op.ListUserGroups? || op.UpdateUserGroup?
  }

  /** The operations on roles and user groups declare no security: only the middleware guards them. */
  lemma SecuredOps(op: Op)
    ensures HasSecurity(op) <==> !IsPublicOp(op) && !OnRolesOrGroups(op)
  {
  }

  /** Cutting "Bearer x" at its first space. */
  lemma BearerHeader(v: string)
    requires HasPrefix(v, BEARER)
    ensures Credentials(v, "Bearer") == Some(v[|BEARER|..])
  {
    assert BEARER[..6] == "Bearer" && v[..7][..6] == v[..6] && v[..7][6] == v[6] == ' ';
    assert forall k :: 0 <= k < 6 ==> v[k] == BEARER[k];
    assert IndexSpace(v) == 6;
  }

  /** A request that names a session, by header or by cookie, has a credential for the security
      block, and the header's credential is the same string. */
  lemma NamedIsSecured(req: Request, sess: Session)
    requires SessionId(req) != ""
    ensures SecuredOf(req.authorization, req.cookie, Some(sess)) == Passed
    ensures |req.authorization| > 0 && HasPrefix(req.authorization[0], BEARER)
      ==> FirstCredentials(req.authorization, "Bearer") == Some(SessionId(req))
  {
    if |req.authorization| > 0 && HasPrefix(req.authorization[0], BEARER) {
      BearerHeader(req.authorization[0]);
    }
  }

  /** A session named by cookie is as good as one named by header. */
  lemma CookieAsHeader(req: Request, id: string, db: Db, storeUp: bool, t1: int, t2: int)
    requires ByCookie(req, id)
    ensures GateOf(req, db, storeUp, t1, t2) ==
      GateOf(Request(req.verb, req.url, ["Bearer " + id], None), db, storeUp, t1, t2)
  {
    var other := Request(req.verb, req.url, ["Bearer " + id], None);
    assert ByHeader(other, id);
    if id != "" {
      NamedExactly(req, id);
      NamedExactly(other, id);
    } else {
      assert "Bearer " + id == BEARER;
      if SessionId(req) != "" { NamedExactly(req, SessionId(req)); }
    }
  }

  /** A Bearer header wins over any cookie, and over any further header value. */
  lemma HeaderWins(req: Request, id: string, db: Db, storeUp: bool, t1: int, t2: int)
    requires ByHeader(req, id)
    ensures GateOf(req, db, storeUp, t1, t2) ==
      GateOf(Request(req.verb, req.url, ["Bearer " + id], None), db, storeUp, t1, t2)
  {
  }

  /** No request the middleware lets through is stopped by the security block, whether it was
      admitted by header or by cookie. */
  lemma NeverInsecure(plain: char -> bool, req: Request, db: Db, storeUp: bool, t1: int, t2: int, queryOk: bool,
      bodyOk: bool, r: Reply)
    requires !plain('%') && WellFormed(req.url)
    requires Follows(req, GateOf(req, db, storeUp, t1, t2), Served("", plain, req.verb, req.url), queryOk, bodyOk, r)
    ensures !r.Insecure?
  {
    var gate, out := GateOf(req, db, storeUp, t1, t2), Served("", plain, req.verb, req.url);
    if out.Dispatch? {
      PublicAgrees(plain, req.verb, req.url);
      SecuredOps(out.op);
      if gate.Admit? { NamedIsSecured(req, gate.sess); }
    }
  }

  /** The middleware's answer to a request that is not public and names a session, in every state of
      every interleaving, in terms of the last SET under that identifier that no deletion followed. */
  lemma GateMeans(c: Config, s: State, req: Request, id: string, t1: int, t2: int)
    requires Reachable(c, s) && s.now <= t1 <= t2
    requires req.url.path !in PUBLIC_PATHS && NamesSession(req, id)
    ensures GateOf(req, s.db, true, t1, t2) ==
      match LastWrite(s.log, id)
      case None => InvalidSession
      case Some(e) =>
        if !InTime(e, t1) then InvalidSession else if t2 > e.sess.expiresAt then SessionExpired else Admit(e.sess)
  {
    NamedExactly(req, id);
    match LastWrite(s.log, id)
    case None => NothingStored(c, s, id);
    case Some(e) => EntryKnown(c, s, id, e);
  }

  /** From every reachable state, a request that is not public and names a session, by header or by cookie
      alone, is admitted with a record if and only if that record is readable under the name when the GET
      takes effect and has not expired when it is checked; and then it is the last one written there. */
  lemma AdmittedExactly(c: Config, s: State, req: Request, id: string, sess: Session, t1: int, t2: int)
    requires Reachable(c, s) && s.now <= t1 <= t2
    requires req.url.path !in PUBLIC_PATHS && NamesSession(req, id)
    ensures GateOf(req, s.db, true, t1, t2) == Admit(sess) <==>
      GetCmd(s.db, Key(id), t1) == Some(sess) && t2 <= sess.expiresAt
    ensures GateOf(req, s.db, true, t1, t2) == Admit(sess) ==> LastOf(s.log, id) == Some(sess)
  {
    NamedExactly(req, id);
    GateMeans(c, s, req, id, t1, t2);
    LastOfWrite(s.log, id);
  }

  lemma NothingStored(c: Config, s: State, id: string)
    requires Reachable(c, s) && LastWrite(s.log, id) == None
    ensures Key(id) !in s.db
  {
    InvReachable(c, s);
    LastOfWrite(s.log, id);
    assert Stored(s.db, id) == LastOf(s.log, id);
  }

  /** Under every interleaving: an admitted request carries a user's profile if and only if its
      identifier was generated by a callback. The other identifiers are those of logins, which the
      middleware admits all the same, with a record that is about no user. */
  lemma AdmittedProfile(c: Config, s: State, req: Request, t1: int, t2: int)
    requires Reachable(c, s) && s.now <= t1 <= t2 && GateOf(req, s.db, true, t1, t2).Admit?
    ensures var sess := GateOf(req, s.db, true, t1, t2).sess;
      && NamesSession(req, sess.id) && sess.id in s.issued && (sess.userID != "" <==> sess.id in s.tokens)
      && if sess.id in s.tokens then HasProfile(sess) else NoProfile(sess)
  {
    InvReachable(c, s);
    var later, id := s.(now := t1), SessionId(req);
    NamedExactly(req, id);
    GetIsOwn(later, id);
    RecordTells(s, GetCmd(s.db, Key(id), t1).value);
  }

  /** From every reachable state, a login alone leads to one in which a request that names its state is
      admitted, as nobody, wherever it goes. */
  lemma LoginIsAdmitted(c: Config, s: State, pid: nat, state: string, redirect: string, req: Request) returns (t: State)
    requires Reachable(c, s) && pid !in s.started && state !in s.issued && state != ""
    requires req.url.path !in PUBLIC_PATHS && NamesSession(req, state)
    ensures Reachable(c, t) && t.logins == s.logins + 1 && t.tokens == s.tokens && t.now == s.now
    ensures var g := GateOf(req, t.db, true, t.now, t.now);
      g.Admit? && g.sess.userID == ""
  {
    NamedExactly(req, state);
    ReachStep(c, s, BeginLogin(pid, state, redirect));
    t := Apply(c, s, BeginLogin(pid, state, redirect));
    t := LoginWrites(c, t, pid);
  }

  /** In every state of every interleaving of the session protocol: a service method outside the
      public four runs only with a session that is the last record written under the identifier the
      request names, that no deletion followed, and that had not expired when it was checked; the
      session is about a user if and only if the identifier was generated by a callback. */
  lemma RunsWithSession(c: Config, s: State, plain: char -> bool, req: Request, storeUp: bool, t1: int, t2: int,
                        queryOk: bool, bodyOk: bool, r: Reply)
    requires Reachable(c, s) && s.now <= t1 <= t2
    requires !plain('%') && WellFormed(req.url)
    requires Follows(req, GateOf(req, s.db, storeUp, t1, t2), Served("", plain, req.verb, req.url), queryOk, bodyOk, r)
    requires r.Ran? && !IsPublicOp(r.op)
    ensures r.sess.Some? && NamesSession(req, r.sess.value.id) && t2 <= r.sess.value.expiresAt
    ensures LastOf(s.log, r.sess.value.id) == r.sess
    ensures r.sess.value.userID != "" <==> r.sess.value.id in s.tokens
  {
    PublicAgrees(plain, req.verb, req.url);
    assert storeUp && r.sess == Some(GateOf(req, s.db, true, t1, t2).sess);
    AdmittedProfile(c, s, req, t1, t2);
    AdmittedExactly(c, s, req, r.sess.value.id, r.sess.value, t1, t2);
  }

  /** A public operation runs without one. */
  lemma PublicRunsBare(plain: char -> bool, req: Request, db: Db, storeUp: bool, t1: int, t2: int, queryOk: bool,
      bodyOk: bool, r: Reply)
    requires !plain('%') && WellFormed(req.url)
    requires Follows(req, GateOf(req, db, storeUp, t1, t2), Served("", plain, req.verb, req.url), queryOk, bodyOk, r)
    requires r.Ran? && IsPublicOp(r.op)
    ensures r.sess == None
  {
    PublicAgrees(plain, req.verb, req.url);
  }
}
