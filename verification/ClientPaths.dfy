/** The generated client's path construction, and its inversion by the server's router and
    parameter decoders. */
module ClientPaths {
  import opened Wrappers
  import opened PathText
  import opened RouteTable
  import opened Router
  import opened RouterTheorems

  /** The method a client call is sent with. */
  function VerbOf(op: Op): string {
    match op
    case CreateProject | CreateRole | CreateUser | CreateUserGroup | Logout | RefreshToken => "POST"
    case UpdateProject | UpdateRole | UpdateUserGroup => "PUT"
    case _ => "GET"
  }

  function EscapeAll(keep: char -> bool, params: seq<string>): (r: seq<string>)
    ensures |r| == |params| && forall i :: 0 <= i < |params| ==> r[i] == Escape(keep, params[i])
  {
    seq(|params|, i requires 0 <= i < |params| => Escape(keep, params[i]))
  }

  // ---------- The paths, spelled out ----------

  lemma BaseWord()
    ensures "/" + "v1alpha1" + "/" == "/v1alpha1/" && BASE[0] == "" && BASE[1] == "v1alpha1"
  {
  }

  lemma JoinBase(tail: seq<string>)
    requires |tail| >= 1
    ensures Join(BASE + tail) == "/v1alpha1/" + Join(tail)
  {
    BaseWord();
    JoinPair(BASE[0], BASE[1], tail);
    assert BASE + tail == [BASE[0], BASE[1]] + tail;
    SlashWord(BASE[1], Join(tail));
  }

  lemma JoinPair(x: string, y: string, tail: seq<string>)
    requires |tail| >= 1
    ensures Join([x, y] + tail) == x + "/" + (y + "/" + Join(tail))
  {
    var segs := [x, y] + tail;
    assert segs[2..] == tail;
    JoinTwo(segs, Join(tail));
  }

  lemma JoinTwoWords(x: string, y: string)
    ensures Join([x]) == x && Join([x, y]) == x + "/" + y
  {
    assert [x, y][1..] == [y];
  }

  lemma JoinMore(x: string, a: string, y: string, b: string)
    ensures Join([x, a, y]) == x + "/" + a + "/" + y
    ensures Join([x, a, y, b]) == x + "/" + a + "/" + y + "/" + b
  {
    JoinTwoWords(a, y);
    assert [x, a, y][1..] == [a, y];
    JoinTwoWords(y, b);
    assert [x, a, y, b][1..] == [a, y, b] && [a, y, b][1..] == [y, b];
  }

  lemma RenderFixed(p: Pattern, a: seq<string>)
    requires Arity(p) == 0
    ensures |Shape(p)| == 1 ==> Render(Shape(p), a) == [Shape(p)[0].text]
    ensures |Shape(p)| == 2 ==> Render(Shape(p), a) == [Shape(p)[0].text, Shape(p)[1].text]
    ensures 1 <= |Shape(p)| <= 2
  {
    var s := Shape(p);
    if |s| == 2 {
      assert Render(s[1..][1..], a) == [];
    } else {
      assert Render(s[1..], a) == [];
    }
  }

  lemma RenderOne(s: seq<Seg>, a: string)
    requires |s| == 2 && s[0].Lit? && s[1].Param?
    ensures Render(s, [a]) == [s[0].text, a]
  {
    assert Render(s[1..][1..], [a][1..]) == [];
  }

  lemma RenderList(s: seq<Seg>, a: string)
    requires |s| == 3 && s[0].Lit? && s[1].Param? && s[2].Lit?
    ensures Render(s, [a]) == [s[0].text, a, s[2].text]
  {
    var s1, s2 := s[1..], s[1..][1..];
    assert Render(s2[1..], [a][1..]) == [];
    assert Render(s2, [a][1..]) == [s[2].text];
  }

  lemma RenderItem(s: seq<Seg>, a: string, b: string)
    requires |s| == 4 && s[0].Lit? && s[1].Param? && s[2].Lit? && s[3].Param?
    ensures Render(s, [a, b]) == [s[0].text, a, s[2].text, b]
  {
    var s1, s2, s3 := s[1..], s[1..][1..], s[1..][1..][1..];
    assert [a, b][1..] == [b] && s3[1..] == [] && [b][1..] == [];
    assert Render(s3, [b]) == [b];
    assert Render(s2, [b]) == [s[2].text, b];
  }

  lemma FixedPath(p: Pattern)
    requires Arity(p) == 0
    ensures PathOf(p, []) == "/v1alpha1/" +
      (if |Shape(p)| == 1 then Shape(p)[0].text else Shape(p)[0].text + "/" + Shape(p)[1].text)
  {
    RenderFixed(p, []);
    JoinBase(Render(Shape(p), []));
    if |Shape(p)| == 2 { JoinTwoWords(Shape(p)[0].text, Shape(p)[1].text); }
  }

  lemma Regroup(base: string, root: string, a: string, word: string, b: string)
    ensures base + (root + "/" + a) == base + root + "/" + a
    ensures base + (root + "/" + a + "/" + word) == base + root + "/" + a + ("/" + word)
    ensures base + (root + "/" + a + "/" + word + "/" + b) == base + root + "/" + a + ("/" + word + "/") + b
  {
  }

  lemma ProjectsBase()
    ensures "/v1alpha1/" + "projects" + "/" == "/v1alpha1/projects/"
  {
  }

  lemma ProjectItemPath(a: string)
    ensures PathOf(ProjectPath, [a]) == "/v1alpha1/projects/" + a
  {
    RenderOne(Shape(ProjectPath), a);
    JoinBase(["projects", a]);
    JoinTwoWords("projects", a);
    Regroup("/v1alpha1/", "projects", a, "", "");
    ProjectsBase();
  }

  lemma ListPath(p: Pattern, word: string, a: string)
    requires Shape(p) == [Lit("projects"), Param, Lit(word)]
    ensures PathOf(p, [a]) == "/v1alpha1/projects/" + a + ("/" + word)
  {
    var s := Shape(p);
    assert s[0] == Lit("projects") && s[1] == Param && s[2] == Lit(word);
    RenderList(s, a);
    JoinBase(["projects", a, word]);
    JoinMore("projects", a, word, "");
    Regroup("/v1alpha1/", "projects", a, word, "");
    ProjectsBase();
  }

  lemma ItemPath(p: Pattern, word: string, a: string, b: string)
    requires Shape(p) == [Lit("projects"), Param, Lit(word), Param]
    ensures PathOf(p, [a, b]) == "/v1alpha1/projects/" + a + ("/" + word + "/") + b
  {
    var s := Shape(p);
    assert s[0] == Lit("projects") && s[1] == Param && s[2] == Lit(word) && s[3] == Param;
    RenderItem(s, a, b);
    JoinBase(["projects", a, word, b]);
    JoinMore("projects", a, word, b);
    Regroup("/v1alpha1/", "projects", a, word, b);
    ProjectsBase();
  }

  // ---------- The send functions ----------

  lemma AuthLiterals()
    ensures "/v1alpha1/" + ("auth" + "/" + "me") == "/v1alpha1/auth/me"
    ensures "/v1alpha1/" + ("auth" + "/" + "callback") == "/v1alpha1/auth/callback"
    ensures "/v1alpha1/" + ("auth" + "/" + "login") == "/v1alpha1/auth/login"
    ensures "/v1alpha1/" + ("auth" + "/" + "logout") == "/v1alpha1/auth/logout"
    ensures "/v1alpha1/" + ("auth" + "/" + "refresh") == "/v1alpha1/auth/refresh"
  {
  }

  lemma OtherLiterals()
    ensures "/v1alpha1/" + ("health" + "/" + "liveness") == "/v1alpha1/health/liveness"
    ensures "/v1alpha1/" + ("health" + "/" + "readiness") == "/v1alpha1/health/readiness"
    ensures "/v1alpha1/" + "projects" == "/v1alpha1/projects" && "/v1alpha1/" + "users" == "/v1alpha1/users"
  {
  }

  /** Calls without path parameters have a one-slot `pathParts`. */
  method FixedParts(op: Op) returns (raw: string)
    requires Arity(PatternOf(op)) == 0
    ensures raw == PathOf(PatternOf(op), [])
  {
    FixedPath(PatternOf(op));
    AuthLiterals();
    OtherLiterals();
    var pathParts := new string[1](_ => "");
    match op {
      case ListProjects | CreateProject => pathParts[0] := "/v1alpha1/projects";
      case ListUsers | CreateUser => pathParts[0] := "/v1alpha1/users";
      case GetCurrentUser => pathParts[0] := "/v1alpha1/auth/me";
      case GetLivenessCheck => pathParts[0] := "/v1alpha1/health/liveness";
      case GetReadinessCheck => pathParts[0] := "/v1alpha1/health/readiness";
      case HandleOAuthCallback => pathParts[0] := "/v1alpha1/auth/callback";
      case InitiateLogin => pathParts[0] := "/v1alpha1/auth/login";
      case Logout => pathParts[0] := "/v1alpha1/auth/logout";
      case RefreshToken => pathParts[0] := "/v1alpha1/auth/refresh";
    }
    raw := pathParts[0];
  }

  lemma PartWords()
    ensures "/" + "roles" == "/roles" && "/" + "usergroups" == "/usergroups"
    ensures "/" + "roles" + "/" == "/roles/" && "/" + "usergroups" + "/" == "/usergroups/"
  {
  }

  /** The paths with one parameter, by what stands after it. */
  lemma OneParamPaths(a: string)
    ensures PathOf(ProjectPath, [a]) == "/v1alpha1/projects/" + a
    ensures PathOf(RolesPath, [a]) == "/v1alpha1/projects/" + a + "/roles"
    ensures PathOf(GroupsPath, [a]) == "/v1alpha1/projects/" + a + "/usergroups"
  {
    PartWords();
    ProjectItemPath(a);
    ListPath(RolesPath, "roles", a);
    ListPath(GroupsPath, "usergroups", a);
  }

  lemma TwoParamPaths(a: string, b: string)
    ensures PathOf(RolePath, [a, b]) == "/v1alpha1/projects/" + a + "/roles/" + b
    ensures PathOf(GroupPath, [a, b]) == "/v1alpha1/projects/" + a + "/usergroups/" + b
  {
    PartWords();
    ItemPath(RolePath, "roles", a, b);
    ItemPath(GroupPath, "usergroups", a, b);
  }

  method OneParam(op: Op, encoded: string) returns (raw: string)
    requires Arity(PatternOf(op)) == 1
    ensures raw == PathOf(PatternOf(op), [encoded])
  {
    OneParamPaths(encoded);
    var pathParts := new string[3](_ => "");
    pathParts[0] := "/v1alpha1/projects/";
    pathParts[1] := encoded;
    match op {
      case GetProject | UpdateProject =>
        raw := pathParts[0] + pathParts[1];
      case ListRoles | CreateRole =>
        pathParts[2] := "/roles";
        raw := pathParts[0] + pathParts[1] + pathParts[2];
      case ListUserGroups | CreateUserGroup =>
        pathParts[2] := "/usergroups";
        raw := pathParts[0] + pathParts[1] + pathParts[2];
    }
  }

  method TwoParams(op: Op, first: string, second: string) returns (raw: string)
    requires Arity(PatternOf(op)) == 2
    ensures raw == PathOf(PatternOf(op), [first, second])
  {
    TwoParamPaths(first, second);
    var pathParts := new string[4](_ => "");
    pathParts[0] := "/v1alpha1/projects/";
    pathParts[1] := first;
    match op {
      case GetRole | UpdateRole => pathParts[2] := "/roles/";
      case GetUserGroup | UpdateUserGroup => pathParts[2] := "/usergroups/";
    }
    pathParts[3] := second;
    raw := pathParts[0] + pathParts[1] + pathParts[2] + pathParts[3];
  }

  /** The URL path a generated call is sent to. */
  method BuildPath(keep: char -> bool, op: Op, params: seq<string>) returns (raw: string)
    requires |params| == Arity(PatternOf(op))
    ensures raw == PathOf(PatternOf(op), EscapeAll(keep, params))
  {
    ghost var enc := EscapeAll(keep, params);
    if |params| == 0 {
      raw := FixedParts(op);
      assert enc == [];
    } else if |params| == 1 {
      raw := OneParam(op, Escape(keep, params[0]));
      assert enc == [enc[0]];
    } else {
      raw := TwoParams(op, Escape(keep, params[0]), Escape(keep, params[1]));
      assert enc == [enc[0], enc[1]];
    }
  }

  // ---------- Decoding a joined path piece by piece ----------

  ghost predicate Unescapes(from: seq<string>, to: seq<string>) {
    |from| == |to| && forall i :: 0 <= i < |from| ==> Unescape(from[i]) == Some(to[i])
  }

  ghost predicate Normalizes(plain: char -> bool, from: seq<string>, to: seq<string>) {
    |from| == |to| && forall i :: 0 <= i < |from| ==> Normalize(plain, from[i]) == Some(to[i])
  }

  lemma {:induction false} UnescapeJoin(from: seq<string>, to: seq<string>)
    requires |from| >= 1 && Unescapes(from, to)
    ensures Unescape(Join(from)) == Some(Join(to))
  {
    if |from| > 1 {
      UnescapeJoin(from[1..], to[1..]);
      var rest := Join(from[1..]);
      assert Unescape(from[0]) == Some(to[0]);
      UnescapeConcat(from[0], "/" + rest);
      LiteralPrefix(c => false, "/", rest);
      assert from[0] + "/" + rest == from[0] + ("/" + rest);
      assert to[0] + "/" + Join(to[1..]) == to[0] + ("/" + Join(to[1..]));
    }
  }

  lemma {:induction false} NormalizeJoin(plain: char -> bool, from: seq<string>, to: seq<string>)
    requires |from| >= 1 && Normalizes(plain, from, to)
    ensures Normalize(plain, Join(from)) == Some(Join(to))
  {
    if |from| > 1 {
      NormalizeJoin(plain, from[1..], to[1..]);
      var rest := Join(from[1..]);
      assert Normalize(plain, from[0]) == Some(to[0]);
      NormalizeConcat(plain, from[0], "/" + rest);
      LiteralPrefix(plain, "/", rest);
      assert from[0] + "/" + rest == from[0] + ("/" + rest);
      assert to[0] + "/" + Join(to[1..]) == to[0] + ("/" + Join(to[1..]));
    }
  }

  /** Slashes of a joined path: one between each two segments, and those inside segments. */
  function Inner(segs: seq<string>): (n: nat)
    ensures n == 0 <==> forall i :: 0 <= i < |segs| ==> NoSlash(segs[i])
  {
    if segs == [] then 0 else Slashes(segs[0]) + Inner(segs[1..])
  }

  lemma {:induction false} SlashesJoin(segs: seq<string>)
    requires |segs| >= 1
    ensures Slashes(Join(segs)) == |segs| - 1 + Inner(segs)
  {
    if |segs| > 1 {
      SlashesJoin(segs[1..]);
      SlashesConcat(segs[0] + "/", Join(segs[1..]));
      SlashesConcat(segs[0], "/");
      assert Slashes("/") == 1;
    } else {
      assert Inner(segs[1..]) == 0;
    }
  }

  /** A rendering with plain literals decodes parameter by parameter. */
  lemma {:induction false} RenderDecodes(plain: char -> bool, shape: seq<Seg>, from: seq<string>, to: seq<string>)
    requires forall i :: 0 <= i < |shape| && shape[i].Lit? ==> '%' !in shape[i].text
    requires |from| == |to| == Params(shape)
    ensures Unescapes(from, to) ==> Unescapes(Render(shape, from), Render(shape, to))
    ensures Normalizes(plain, from, to) ==> Normalizes(plain, Render(shape, from), Render(shape, to))
    ensures |Render(shape, from)| == |shape|
  {
    if shape != [] {
      if shape[0].Lit? {
        RenderDecodes(plain, shape[1..], from, to);
        LiteralOnly(plain, shape[0].text);
      } else {
        RenderDecodes(plain, shape[1..], from[1..], to[1..]);
      }
    }
  }

  lemma PathDecodes(plain: char -> bool, p: Pattern, from: seq<string>, to: seq<string>)
    requires |from| == |to| == Arity(p)
    ensures Unescapes(from, to) ==> Unescape(PathOf(p, from)) == Some(PathOf(p, to))
    ensures Normalizes(plain, from, to) ==> Normalize(plain, PathOf(p, from)) == Some(PathOf(p, to))
  {
    ArityIs(p);
    ShapeLiterals(p);
    RenderDecodes(plain, Shape(p), from, to);
    var f, t := Render(Shape(p), from), Render(Shape(p), to);
    BaseDecodes(plain);
    if Unescapes(from, to) { UnescapeJoin(BASE + f, BASE + t); }
    if Normalizes(plain, from, to) { NormalizeJoin(plain, BASE + f, BASE + t); }
  }

  lemma BaseDecodes(plain: char -> bool)
    ensures forall i :: 0 <= i < |BASE| ==>
      Unescape(BASE[i]) == Some(BASE[i]) && Normalize(plain, BASE[i]) == Some(BASE[i])
  {
    LiteralOnly(plain, BASE[0]);
    LiteralOnly(plain, BASE[1]);
  }

  // ---------- The server's side ----------

  /** What parsing the request line gives: the decoded path, and the escaped form only where the
      default encoder would spell the path differently (`url.URL.Path` and `RawPath`). */
  predicate ParsedAs(dflt: char -> bool, wire: string, u: Url) {
    && Unescape(wire) == Some(u.path)
    && u.rawPath == if Escape(dflt, u.path) == wire then "" else wire
  }

  /** A path parameter as its decoder sees it: unescaped when needed, and never empty. */
  function DecodeParam(arg: string, escaped: bool): Option<string> {
    match Handed(arg, escaped)
    case None => None
    case Some(param) => if |param| > 0 then Some(param) else None
  }

  /** A parameter is handed over decoded, or as it stands when nothing was escaped, unless it is empty. */
  lemma ParamExact(arg: string, escaped: bool, param: string)
    ensures DecodeParam(arg, escaped) == Some(param) <==>
      param != "" && if escaped then Unescape(arg) == Some(param) else arg == param
  {
  }

  /** The decode*Params functions: the parameters in order, or the index of the first bad one. */
  method DecodeParams(args: seq<string>, argsEscaped: bool) returns (r: Result<seq<string>, nat>)
    ensures r.Ok? ==>
      |r.value| == |args| && forall i :: 0 <= i < |args| ==> DecodeParam(args[i], argsEscaped) == Some(r.value[i])
    ensures r.Err? ==> r.error < |args| && DecodeParam(args[r.error], argsEscaped) == None
    ensures r.Err? ==> forall i :: 0 <= i < r.error ==> DecodeParam(args[i], argsEscaped).Some?
  {
    var params: seq<string> := [];
    for i := 0 to |args|
      invariant |params| == i && forall k :: 0 <= k < i ==> DecodeParam(args[k], argsEscaped) == Some(params[k])
    {
      var param := args[i];
      if argsEscaped {
        var unescaped := Unescape(args[i]);
        if unescaped.None? { return Err(i); }
        param := unescaped.value;
      }
      if |param| > 0 {
        params := params + [param];
      } else {
        return Err(i);
      }
    }
    r := Ok(params);
  }

  lemma VerbFinds(op: Op)
    ensures Find(Methods(PatternOf(op)), VerbOf(op)) == Some(op)
  {
    var ms := Methods(PatternOf(op));
    if |ms| == 2 { assert ms[1..][0] == ms[1]; }
    assert "GET"[0] != "POST"[0] && "GET"[0] != "PUT"[0];
  }

  /** The router at a path rendered from slash-free arguments. */
  lemma RoutesRendered(op: Op, args: seq<string>, escaped: bool)
    requires |args| == Arity(PatternOf(op)) && forall i :: 0 <= i < |args| ==> NoSlash(args[i])
    ensures FlatAnswer(PathOf(PatternOf(op), args), VerbOf(op), escaped) == Dispatch(op, args, escaped)
  {
    var p := PatternOf(op);
    ArityIs(p);
    RenderedMatches(p, args);
    SamePattern(PathOf(p, args), VerbOf(op), p, escaped);
    VerbFinds(op);
  }

  /** Literals add no slashes, so a path has those between its segments and those in its
      parameters. */
  lemma {:induction false} RenderInner(shape: seq<Seg>, args: seq<string>)
    requires forall i :: 0 <= i < |shape| && shape[i].Lit? ==> NoSlash(shape[i].text)
    requires |args| == Params(shape)
    ensures |Render(shape, args)| == |shape| && Inner(Render(shape, args)) == Inner(args)
  {
    if shape != [] {
      var r := Render(shape, args);
      if shape[0].Lit? {
        RenderInner(shape[1..], args);
        assert r[1..] == Render(shape[1..], args) && r[0] == shape[0].text;
      } else {
        RenderInner(shape[1..], args[1..]);
        assert r[1..] == Render(shape[1..], args[1..]) && r[0] == args[0];
      }
    }
  }

  lemma PathSlashes(p: Pattern, args: seq<string>)
    requires |args| == Arity(p)
    ensures Slashes(PathOf(p, args)) == |Shape(p)| + 1 + Inner(args)
  {
    ArityIs(p);
    ShapeLiterals(p);
    RenderInner(Shape(p), args);
    var tail := Render(Shape(p), args);
    SlashesJoin(BASE + tail);
    InnerBase(tail);
  }

  lemma InnerBase(tail: seq<string>)
    ensures Inner(BASE + tail) == Inner(tail)
  {
    var segs := BASE + tail;
    assert NoSlash(BASE[0]) && NoSlash(BASE[1]);
    assert segs[0] == BASE[0] && segs[1..][0] == BASE[1] && segs[1..][1..] == tail;
  }

  /** Parameters whose path has as many slashes as one with slash-free parameters are slash-free. */
  lemma FewSlashes(p: Pattern, from: seq<string>, to: seq<string>)
    requires |from| == |to| == Arity(p)
    requires forall i :: 0 <= i < |from| ==> NoSlash(from[i])
    requires Slashes(PathOf(p, from)) == Slashes(PathOf(p, to))
    ensures forall i :: 0 <= i < |to| ==> NoSlash(to[i])
  {
    PathSlashes(p, from);
    PathSlashes(p, to);
    assert Inner(from) == 0;
  }

  /** The round trip. For every operation and all non-empty parameters, whatever slashes, percent
      signs or other bytes they hold, the path the client sends is routed to that operation, and the
      decoded parameters are the ones the client was given. This holds for every segment encoder
      that escapes `/` and `%`, every default encoder that escapes `%` and keeps `/`, and every
      normaliser that decodes neither; both the plain and the escaped branch of the router are
      taken, depending on the parameters. */
  lemma RoundTrip(keep: char -> bool, dflt: char -> bool, plain: char -> bool, op: Op, params: seq<string>, u: Url)
    requires !keep('/') && !keep('%') && dflt('/') && !dflt('%') && !plain('/') && !plain('%')
    requires |params| == Arity(PatternOf(op))
    requires forall i :: 0 <= i < |params| ==> params[i] != "" && IsBytes(params[i])
    requires ParsedAs(dflt, PathOf(PatternOf(op), EscapeAll(keep, params)), u)
    ensures var out := Served("", plain, VerbOf(op), u);
      && out.Dispatch? && out.op == op && |out.args| == |params|
      && forall i :: 0 <= i < |params| ==> DecodeParam(out.args[i], out.escaped) == Some(params[i])
  {
    var p, enc := PatternOf(op), EscapeAll(keep, params);
    var wire := PathOf(p, enc);
    forall i | 0 <= i < |params| ensures Unescape(enc[i]) == Some(params[i]) && NoSlash(enc[i]) {
      UnescapeEscape(keep, params[i]);
      SlashesEscape(keep, params[i]);
    }
    PathDecodes(plain, p, enc, params);
    if u.rawPath == "" {
      SlashesEscape(dflt, u.path);
      WireNonEmpty(p, enc);
      FewSlashes(p, enc, params);
      RoutesRendered(op, params, false);
    } else {
      RawBranch(plain, op, enc, params, u);
    }
  }

  lemma WireNonEmpty(p: Pattern, args: seq<string>)
    requires |args| == Arity(p)
    ensures PathOf(p, args) != ""
  {
    ArityIs(p);
    JoinBase(Render(Shape(p), args)) by { assert Render(Shape(p), args) != []; }
  }

  lemma RawBranch(plain: char -> bool, op: Op, enc: seq<string>, params: seq<string>, u: Url)
    requires !plain('/') && !plain('%')
    requires |enc| == |params| == Arity(PatternOf(op))
    requires forall i :: 0 <= i < |params| ==> params[i] != "" && Unescape(enc[i]) == Some(params[i]) && NoSlash(enc[i])
    requires u.rawPath != "" && u.rawPath == PathOf(PatternOf(op), enc)
    ensures var out := Served("", plain, VerbOf(op), u);
      && out.Dispatch? && out.op == op && |out.args| == |params|
      && forall i :: 0 <= i < |params| ==> DecodeParam(out.args[i], out.escaped) == Some(params[i])
  {
    var p := PatternOf(op);
    forall i | 0 <= i < |enc| ensures Normalize(plain, enc[i]).Some? { NormalizeMeaning(plain, enc[i]); }
    var norm := seq(|enc|, i requires 0 <= i < |enc| => Normalize(plain, enc[i]).value);
    forall i | 0 <= i < |enc|
      ensures NoSlash(norm[i]) && Unescape(norm[i]) == Some(params[i])
    {
      NormalizeMeaning(plain, enc[i]);
    }
    PathDecodes(plain, p, enc, norm);
    var elem := PathOf(p, norm);
    var escaped := '%' in elem;
    RoutesRendered(op, norm, escaped);
    if !escaped {
      ArityIs(p);
      RenderedMatches(p, norm);
      ArgsAreSegments(Shape(p), Split(elem)[2..]);
      PlainSegments(elem);
      forall i | 0 <= i < |norm| ensures Unescape(norm[i]) == Some(norm[i]) {
        assert norm[i] in Split(elem)[2..];
        var k :| 0 <= k < |Split(elem)| && Split(elem)[k] == norm[i];
        UnescapePlain(norm[i]);
      }
    }
  }
}
