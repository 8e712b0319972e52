/** The API as a flat table: 14 path patterns, 21 operations. This is the reference that the two
    generated tries of the router are proved to agree with. */
module RouteTable {
  import opened Wrappers
  import opened PathText

  datatype Op =
    | CreateProject | CreateRole | CreateUser | CreateUserGroup | GetCurrentUser | GetLivenessCheck
    | GetProject | GetReadinessCheck | GetRole | GetUserGroup | HandleOAuthCallback | InitiateLogin
    | ListProjects | ListRoles | ListUserGroups | ListUsers | Logout | RefreshToken
    | UpdateProject | UpdateRole | UpdateUserGroup

  datatype Pattern =
    | CallbackPath | LoginPath | LogoutPath | MePath | RefreshPath
    | LivenessPath | ReadinessPath
    | ProjectsPath | ProjectPath | RolesPath | RolePath | GroupsPath | GroupPath
    | UsersPath

  datatype Seg = Lit(text: string) | Param

  /** What follows "/v1alpha1/" in a pattern. */
  function Shape(p: Pattern): seq<Seg> {
    match p
    case CallbackPath => [Lit("auth"), Lit("callback")]
    case LoginPath => [Lit("auth"), Lit("login")]
    case LogoutPath => [Lit("auth"), Lit("logout")]
    case MePath => [Lit("auth"), Lit("me")]
    case RefreshPath => [Lit("auth"), Lit("refresh")]
    case LivenessPath => [Lit("health"), Lit("liveness")]
    case ReadinessPath => [Lit("health"), Lit("readiness")]
    case ProjectsPath => [Lit("projects")]
    case ProjectPath => [Lit("projects"), Param]
    case RolesPath => [Lit("projects"), Param, Lit("roles")]
    case RolePath => [Lit("projects"), Param, Lit("roles"), Param]
    case GroupsPath => [Lit("projects"), Param, Lit("usergroups")]
    case GroupPath => [Lit("projects"), Param, Lit("usergroups"), Param]
    case UsersPath => [Lit("users")]
  }

  /** The methods a pattern serves, in the order the Allow header lists them. */
  function Methods(p: Pattern): seq<(string, Op)> {
    match p
    case CallbackPath => [("GET", HandleOAuthCallback)]
    case LoginPath => [("GET", InitiateLogin)]
    case LogoutPath => [("POST", Logout)]
    case MePath => [("GET", GetCurrentUser)]
    case RefreshPath => [("POST", RefreshToken)]
    case LivenessPath => [("GET", GetLivenessCheck)]
    case ReadinessPath => [("GET", GetReadinessCheck)]
    case ProjectsPath => [("GET", ListProjects), ("POST", CreateProject)]
    case ProjectPath => [("GET", GetProject), ("PUT", UpdateProject)]
    case RolesPath => [("GET", ListRoles), ("POST", CreateRole)]
    case RolePath => [("GET", GetRole), ("PUT", UpdateRole)]
    case GroupsPath => [("GET", ListUserGroups), ("POST", CreateUserGroup)]
    case GroupPath => [("GET", GetUserGroup), ("PUT", UpdateUserGroup)]
    case UsersPath => [("GET", ListUsers), ("POST", CreateUser)]
  }

  const BASE := ["", "v1alpha1"]

  /** The segments fit the pattern: same number, literals equal, parameters anything. */
  predicate Fits(shape: seq<Seg>, segs: seq<string>) {
    |shape| == |segs| && forall i :: 0 <= i < |shape| ==> shape[i].Param? || segs[i] == shape[i].text
  }

  predicate Matches(p: Pattern, path: string) {
    var segs := Split(path);
    |segs| >= 2 && segs[..2] == BASE && Fits(Shape(p), segs[2..])
  }

  /** The parameter segments of a path under the pattern, in order. */
  function Args(shape: seq<Seg>, segs: seq<string>): seq<string>
    requires |shape| == |segs|
  {
    if shape == [] then []
    else (if shape[0].Param? then [segs[0]] else []) + Args(shape[1..], segs[1..])
  }

  function ArgsOf(p: Pattern, path: string): seq<string>
    requires Matches(p, path)
  {
    Args(Shape(p), Split(path)[2..])
  }

  /** The path the pattern denotes for given parameters. */
  function Render(shape: seq<Seg>, args: seq<string>): seq<string> {
    if shape == [] then []
    else if shape[0].Lit? then [shape[0].text] + Render(shape[1..], args)
    else if args == [] then [""] + Render(shape[1..], args)
    else [args[0]] + Render(shape[1..], args[1..])
  }

  function PathOf(p: Pattern, args: seq<string>): string {
    Join(BASE + Render(Shape(p), args))
  }

  function Params(shape: seq<Seg>): nat {
    if shape == [] then 0 else (if shape[0].Param? then 1 else 0) + Params(shape[1..])
  }

  /** How many parameters a pattern has. */
  function Arity(p: Pattern): nat {
    match p
    case ProjectPath | RolesPath | GroupsPath => 1
    case RolePath | GroupPath => 2
    case _ => 0
  }

  lemma ArityIs(p: Pattern)
    ensures Params(Shape(p)) == Arity(p)
  {
    var s := Shape(p);
    if |s| == 1 {
      assert Params(s[1..]) == 0;
    } else if |s| == 2 {
      assert Params(s[1..][1..]) == 0;
    } else {
      assert Params(s[3..]) == (if |s| == 4 then 1 else 0) by { assert |s| == 4 ==> s[3..][1..] == []; }
      assert s[1..][1..][1..] == s[3..];
      assert Params(s[1..][1..]) == Params(s[3..]);
    }
  }

  function Find(ms: seq<(string, Op)>, verb: string): Option<Op> {
    if ms == [] then None else if ms[0].0 == verb then Some(ms[0].1) else Find(ms[1..], verb)
  }

  function Names(ms: seq<(string, Op)>): (names: seq<string>)
    ensures |names| == |ms| && forall i :: 0 <= i < |ms| ==> names[i] == ms[i].0
  {
    seq(|ms|, i requires 0 <= i < |ms| => ms[i].0)
  }

  function CommaJoin(names: seq<string>): string {
    if names == [] then "" else if |names| == 1 then names[0] else names[0] + "," + CommaJoin(names[1..])
  }

  /** The Allow header: the methods joined by commas. */
  function Allow(ms: seq<(string, Op)>): string { CommaJoin(Names(ms)) }

  datatype Outcome =
    | Dispatch(op: Op, args: seq<string>, escaped: bool)
    | NotAllowed(allow: string)
    | NotFound

  /** What a server with this table must answer at a pattern. */
  function Serve(p: Pattern, args: seq<string>, verb: string, escaped: bool): Outcome {
    match Find(Methods(p), verb)
    case Some(op) => Dispatch(op, args, escaped)
    case None => NotAllowed(Allow(Methods(p)))
  }

  /** The whole flat table as a relation: the outcome is that of a matching pattern, or not-found
      when no pattern matches. */
  ghost predicate Flat(path: string, verb: string, escaped: bool, out: Outcome) {
    || (exists p :: Matches(p, path) && out == Serve(p, ArgsOf(p, path), verb, escaped))
    || (out == NotFound && forall p :: !Matches(p, path))
  }

  // ---------- Facts about the table ----------

  /** No path matches two patterns. */
  lemma PatternsDisjoint(p: Pattern, q: Pattern, path: string)
    requires Matches(p, path) && Matches(q, path)
    ensures p == q
  {
    var segs := Split(path)[2..];
    assert segs[0] == Shape(p)[0].text == Shape(q)[0].text;
    if |segs| > 1 {
      assert Shape(p)[1].Lit? ==> segs[1] == Shape(p)[1].text;
      assert Shape(q)[1].Lit? ==> segs[1] == Shape(q)[1].text;
    }
    if |segs| > 2 {
      assert segs[2] == Shape(p)[2].text == Shape(q)[2].text;
    }
    FirstLetters(p, q);
  }

  /** Any two distinct shapes of one length differ at some literal. */
  lemma FirstLetters(p: Pattern, q: Pattern)
    requires |Shape(p)| == |Shape(q)| && Shape(p)[0] == Shape(q)[0]
    requires |Shape(p)| > 1 ==> Shape(p)[1] == Shape(q)[1]
    requires |Shape(p)| > 2 ==> Shape(p)[2] == Shape(q)[2]
    ensures p == q
  {
    assert "auth"[0] != "health"[0] && "auth"[0] != "projects"[0] && "auth"[0] != "users"[0];
    assert "projects"[0] != "users"[0];
    assert "callback"[0] != "login"[0] && "callback"[0] != "me"[0] && "callback"[0] != "refresh"[0];
    assert "login"[3] != "logout"[3] && "login"[0] != "me"[0] && "login"[0] != "refresh"[0] && "logout"[0] != "me"[0];
    assert "logout"[0] != "refresh"[0] && "me"[0] != "refresh"[0];
    assert "liveness"[0] != "readiness"[0] && "roles"[0] != "usergroups"[0];
  }

  /** The table answers every request, and answers it in one way only. */
  lemma FlatUnique(path: string, verb: string, escaped: bool, a: Outcome, b: Outcome)
    requires Flat(path, verb, escaped, a) && Flat(path, verb, escaped, b)
    ensures a == b
  {
    if a != NotFound && b != NotFound {
      var p :| Matches(p, path) && a == Serve(p, ArgsOf(p, path), verb, escaped);
      var q :| Matches(q, path) && b == Serve(q, ArgsOf(q, path), verb, escaped);
      PatternsDisjoint(p, q, path);
    }
  }

  lemma {:induction false} ArgsRender(shape: seq<Seg>, segs: seq<string>)
    requires Fits(shape, segs)
    ensures |Args(shape, segs)| == Params(shape)
    ensures Render(shape, Args(shape, segs)) == segs
    ensures (forall i :: 0 <= i < |segs| ==> NoSlash(segs[i]))
      ==> forall i :: 0 <= i < |Args(shape, segs)| ==> NoSlash(Args(shape, segs)[i])
  {
    if shape != [] {
      ArgsRender(shape[1..], segs[1..]);
      assert segs == [segs[0]] + segs[1..];
      if shape[0].Param? {
        assert Args(shape, segs)[1..] == Args(shape[1..], segs[1..]);
      } else {
        assert Args(shape, segs) == Args(shape[1..], segs[1..]);
      }
    }
  }

  lemma {:induction false} RenderArgs(shape: seq<Seg>, args: seq<string>)
    requires |args| == Params(shape)
    ensures Fits(shape, Render(shape, args)) && Args(shape, Render(shape, args)) == args
    ensures (forall i :: 0 <= i < |shape| ==> shape[i].Lit? ==> NoSlash(shape[i].text))
         && (forall i :: 0 <= i < |args| ==> NoSlash(args[i]))
      ==> forall i :: 0 <= i < |Render(shape, args)| ==> NoSlash(Render(shape, args)[i])
  {
    if shape != [] {
      if shape[0].Param? {
        RenderArgs(shape[1..], args[1..]);
        assert Render(shape, args)[1..] == Render(shape[1..], args[1..]);
        assert args == [args[0]] + args[1..];
      } else {
        RenderArgs(shape[1..], args);
        assert Render(shape, args)[1..] == Render(shape[1..], args);
      }
    }
  }

  predicate Clean(s: string) { NoSlash(s) && '%' !in s }

  lemma Words()
    ensures Clean("auth") && Clean("health") && Clean("projects") && Clean("users")
    ensures Clean("callback") && Clean("login") && Clean("logout") && Clean("me") && Clean("refresh")
    ensures Clean("liveness") && Clean("readiness") && Clean("roles") && Clean("usergroups")
  {
  }

  lemma ShapeLiterals(p: Pattern)
    ensures forall i :: 0 <= i < |Shape(p)| && Shape(p)[i].Lit? ==> Clean(Shape(p)[i].text)
  {
    Words();
  }

  /** A path that matches a pattern is that pattern's path for the parameters the table extracts,
      and those parameters hold no slash. */
  lemma MatchIsRendered(p: Pattern, path: string)
    requires Matches(p, path)
    ensures var args := ArgsOf(p, path);
      && |args| == Params(Shape(p))
      && (forall i :: 0 <= i < |args| ==> NoSlash(args[i]))
      && path == PathOf(p, args)
  {
    ArgsRender(Shape(p), Split(path)[2..]);
    assert Split(path) == BASE + Split(path)[2..];
    JoinSplit(path);
  }

  /** Conversely, the path built from slash-free parameters matches, and gives them back. */
  lemma RenderedMatches(p: Pattern, args: seq<string>)
    requires |args| == Params(Shape(p)) && forall i :: 0 <= i < |args| ==> NoSlash(args[i])
    ensures Matches(p, PathOf(p, args)) && ArgsOf(p, PathOf(p, args)) == args
  {
    ShapeLiterals(p);
    var shape := Shape(p);
    RenderArgs(shape, args);
    RenderedIsSplit(Render(shape, args));
  }

  lemma RenderedIsSplit(tail: seq<string>)
    requires AllNoSlash(tail)
    ensures Split(Join(BASE + tail)) == BASE + tail
    ensures (BASE + tail)[2..] == tail && (BASE + tail)[..2] == BASE
  {
    BaseNoSlash();
    ConcatNoSlash(BASE, tail);
    SplitJoin(BASE + tail);
  }

  lemma BaseNoSlash()
    ensures AllNoSlash(BASE)
  {
    assert NoSlash(BASE[0]) && NoSlash(BASE[1]);
  }
}
