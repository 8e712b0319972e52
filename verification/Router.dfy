/** The generated router: the `ServeHTTP` trie and the `FindPath` trie. The generator unrolls each
    as one nested switch; here each is cut at the four children of the "/v1alpha1/" node. */
module Router {
  import opened Wrappers
  import opened PathText
  import opened RouteTable

  /** The two path fields of `url.URL`: the decoded path, and the escaped one when it cannot be
      recomputed from the decoded one. */
  datatype Url = Url(path: string, rawPath: string)

  function HasPrefix(s: string, p: string): (b: bool) { |s| >= |p| && s[..|p|] == p }

  // ---------- Matching below "/v1alpha1/" ----------

  predicate MatchesTail(p: Pattern, rest: string) { Fits(Shape(p), Split(rest)) }

  ghost predicate FlatTail(rest: string, verb: string, escaped: bool, out: Outcome) {
    || (exists p :: MatchesTail(p, rest) && out == Serve(p, Args(Shape(p), Split(rest)), verb, escaped))
    || (out == NotFound && forall p :: !MatchesTail(p, rest))
  }

  lemma CutBase(rest: string)
    ensures Split("/v1alpha1/" + rest) == BASE + Split(rest)
    ensures forall p :: Matches(p, "/v1alpha1/" + rest) <==> MatchesTail(p, rest)
  {
    BaseSpelled(rest);
    SplitCons("", "v1alpha1" + "/" + rest);
    SplitCons("v1alpha1", rest);
    TwoInFront("", "v1alpha1", Split(rest));
    BaseFits("/v1alpha1/" + rest, rest);
  }

  lemma BaseSpelled(rest: string)
    ensures "/v1alpha1/" + rest == "" + "/" + ("v1alpha1" + "/" + rest)
  {
  }

  lemma TwoInFront(a: string, b: string, segs: seq<string>)
    ensures [a] + ([b] + segs) == [a, b] + segs
  {
  }

  lemma BaseFits(path: string, rest: string)
    requires Split(path) == BASE + Split(rest)
    ensures forall p :: Matches(p, path) <==> MatchesTail(p, rest)
  {
    var segs := BASE + Split(rest);
    assert segs[..2] == BASE && segs[2..] == Split(rest);
  }

  lemma OnlyBelowBase(p: Pattern, path: string)
    requires Matches(p, path)
    ensures HasPrefix(path, "/v1alpha1/")
  {
    assert |Shape(p)| > 0;
    BelowBase(path);
  }

  lemma BelowBase(path: string)
    requires |Split(path)| > 2 && Split(path)[..2] == BASE
    ensures HasPrefix(path, "/v1alpha1/")
  {
    var segs := Split(path);
    JoinSplit(path);
    JoinTwo(segs, Join(segs[2..]));
    BaseParts(segs);
    SlashWord("v1alpha1", Join(segs[2..]));
    PrefixOf("/v1alpha1/", Join(segs[2..]), path);
  }

  lemma BaseParts(segs: seq<string>)
    requires |segs| > 2 && segs[..2] == BASE
    ensures segs[0] == "" && segs[1] == "v1alpha1"
  {
    assert segs[0] == segs[..2][0] && segs[1] == segs[..2][1];
  }

  lemma SlashWord(word: string, rest: string)
    ensures "" + "/" + (word + "/" + rest) == "/" + word + "/" + rest
  {
  }

  lemma JoinTwo(segs: seq<string>, rest: string)
    requires |segs| > 2 && rest == Join(segs[2..])
    ensures Join(segs) == segs[0] + "/" + (segs[1] + "/" + rest)
  {
    assert segs[1..][1..] == segs[2..];
  }

  lemma PrefixOf(p: string, rest: string, s: string)
    requires s == p + rest
    ensures HasPrefix(s, p)
  {
  }

  /** A remainder is one given word exactly when it is that single segment. */
  lemma OneSegment(e: string)
    ensures |Split(e)| == 1 <==> NoSlash(e)
    ensures NoSlash(e) ==> Split(e) == [e]
  {
  }

  /** Under a literal segment, a one-literal pattern matches exactly its literal. */
  lemma LiteralLeaf(shape: seq<Seg>, root: string, word: string, e: string)
    requires shape == [Lit(root), Lit(word)] && NoSlash(root) && NoSlash(word)
    ensures Fits(shape, Split(root + "/" + e)) <==> e == word
  {
    SplitCons(root, e);
    OneSegment(e);
    var segs := Split(root + "/" + e);
    assert segs[0] == root && segs[1] == Split(e)[0];
    assert shape[0] == Lit(root) && shape[1] == Lit(word);
  }

  lemma OtherRoot(p: Pattern, root: string, e: string)
    requires Clean(root) && Shape(p)[0] != Lit(root)
    ensures !MatchesTail(p, root + "/" + e)
  {
    SplitCons(root, e);
    FirstIsLit(p);
    FirstDiffers(Shape(p), Split(root + "/" + e), root);
  }

  lemma FirstIsLit(p: Pattern)
    ensures |Shape(p)| > 0 && Shape(p)[0].Lit?
  {
  }

  lemma FirstDiffers(shape: seq<Seg>, segs: seq<string>, root: string)
    requires |shape| > 0 && |segs| > 0 && segs[0] == root && shape[0].Lit? && shape[0] != Lit(root)
    ensures !Fits(shape, segs)
  {
  }

  /** The four words under "/v1alpha1/" differ in their first letter. */
  lemma FourRoots()
    ensures "auth" != "health" && "auth" != "projects" && "auth" != "users"
    ensures "health" != "projects" && "health" != "users" && "projects" != "users"
  {
    assert "auth"[0] != "health"[0] && "auth"[0] != "projects"[0] && "auth"[0] != "users"[0];
    assert "health"[0] != "projects"[0] && "health"[0] != "users"[0] && "projects"[0] != "users"[0];
  }

  // ---------- The table below each node, by whole words ----------

  function AuthOf(e: string): Option<Pattern> {
    if e == "callback" then Some(CallbackPath)
    else if e == "login" then Some(LoginPath)
    else if e == "logout" then Some(LogoutPath)
    else if e == "me" then Some(MePath)
    else if e == "refresh" then Some(RefreshPath)
    else None
  }

  function HealthOf(e: string): Option<Pattern> {
    if e == "liveness" then Some(LivenessPath) else if e == "readiness" then Some(ReadinessPath) else None
  }

  function ChildOf(us: seq<string>): Option<Pattern>
    requires |us| >= 1
  {
    if us[0] == "roles" then
      if |us| == 1 then Some(RolesPath) else if |us| == 2 then Some(RolePath) else None
    else if us[0] == "usergroups" then
      if |us| == 1 then Some(GroupsPath) else if |us| == 2 then Some(GroupPath) else None
    else None
  }

  function Answer(found: Option<Pattern>, args: seq<string>, verb: string, escaped: bool): Outcome {
    match found case None => NotFound case Some(p) => Serve(p, args, verb, escaped)
  }

  lemma AuthTail(e: string, p: Pattern)
    ensures MatchesTail(p, "auth" + "/" + e) <==> AuthOf(e) == Some(p)
  {
    Words();
    AuthWords(e);
    if Shape(p)[0] == Lit("auth") {
      FourRoots();
      LiteralLeaf(Shape(p), "auth", Shape(p)[1].text, e);
    } else {
      OtherRoot(p, "auth", e);
    }
  }

  lemma AuthWords(e: string)
    ensures AuthOf(e) == Some(CallbackPath) <==> e == "callback"
    ensures AuthOf(e) == Some(LoginPath) <==> e == "login"
    ensures AuthOf(e) == Some(LogoutPath) <==> e == "logout"
    ensures AuthOf(e) == Some(MePath) <==> e == "me"
    ensures AuthOf(e) == Some(RefreshPath) <==> e == "refresh"
  {
    assert |"callback"| == 8 && |"login"| == 5 && |"logout"| == 6 && |"me"| == 2 && |"refresh"| == 7;
  }

  /** The words that share the node "log". */
  lemma LogWords(rest: string)
    requires HasPrefix(rest, "log")
    ensures AuthOf(rest) ==
      if rest[3..] == "in" then Some(LoginPath) else if rest[3..] == "out" then Some(LogoutPath) else None
  {
    assert rest == "log" + rest[3..];
    assert "login" == "log" + "in" && "logout" == "log" + "out";
    assert "login"[3..] == "in" && "logout"[3..] == "out";
    assert rest[0] == 'l';
  }

  lemma HealthTail(e: string, p: Pattern)
    ensures MatchesTail(p, "health" + "/" + e) <==> HealthOf(e) == Some(p)
  {
    Words();
    assert |"liveness"| == 8 && |"readiness"| == 9;
    if Shape(p)[0] == Lit("health") {
      FourRoots();
      LiteralLeaf(Shape(p), "health", Shape(p)[1].text, e);
    } else {
      OtherRoot(p, "health", e);
    }
  }

  /** Knowing which single pattern matches settles the outcome. */
  lemma ByTail(rest: string, found: Option<Pattern>, args: seq<string>, verb: string, escaped: bool)
    requires forall p :: MatchesTail(p, rest) <==> found == Some(p)
    requires found.Some? ==> MatchesTail(found.value, rest) && Args(Shape(found.value), Split(rest)) == args
    ensures FlatTail(rest, verb, escaped, Answer(found, args, verb, escaped))
  {
    if found.Some? {
      assert MatchesTail(found.value, rest);
    }
  }

  lemma AuthFlat(e: string, verb: string, escaped: bool)
    ensures FlatTail("auth" + "/" + e, verb, escaped, Answer(AuthOf(e), [], verb, escaped))
  {
    var rest := "auth" + "/" + e;
    forall p ensures MatchesTail(p, rest) <==> AuthOf(e) == Some(p) { AuthTail(e, p); }
    if AuthOf(e).Some? {
      assert MatchesTail(AuthOf(e).value, rest);
      NoArgs(Shape(AuthOf(e).value), Split(rest));
    }
    ByTail(rest, AuthOf(e), [], verb, escaped);
  }

  lemma HealthFlat(e: string, verb: string, escaped: bool)
    ensures FlatTail("health" + "/" + e, verb, escaped, Answer(HealthOf(e), [], verb, escaped))
  {
    var rest := "health" + "/" + e;
    forall p ensures MatchesTail(p, rest) <==> HealthOf(e) == Some(p) { HealthTail(e, p); }
    if HealthOf(e).Some? {
      assert MatchesTail(HealthOf(e).value, rest);
      NoArgs(Shape(HealthOf(e).value), Split(rest));
    }
    ByTail(rest, HealthOf(e), [], verb, escaped);
  }

  lemma NoArgs(shape: seq<Seg>, segs: seq<string>)
    requires |shape| == |segs| == 2 && shape[0].Lit? && shape[1].Lit?
    ensures Args(shape, segs) == []
  {
    assert Args(shape[1..], segs[1..]) == Args(shape[1..][1..], segs[1..][1..]);
  }

  /** The first segment is a given word exactly when the word is followed by a slash or the end. */
  lemma FirstSegmentIs(word: string, v: string)
    requires NoSlash(word)
    ensures Split(word + v)[0] == word <==> v == "" || v[0] == '/'
    ensures v == "" ==> Split(word + v) == [word]
    ensures v != "" && v[0] == '/' ==> Split(word + v) == [word] + Split(v[1..])
  {
    var u := word + v;
    if v == "" {
      assert u == word;
    } else if v[0] == '/' {
      assert u == word + "/" + v[1..];
      SplitCons(word, v[1..]);
    } else {
      var i := IndexSlash(u);
      if 0 <= i {
        assert forall k :: 0 <= k < |word| ==> u[k] == word[k] != '/';
        assert u[i] == '/' != u[|word|];
      }
      assert |Split(u)[0]| > |word|;
    }
  }

  lemma FirstSegmentPrefix(u: string)
    ensures HasPrefix(u, Split(u)[0])
  {
    var i := IndexSlash(u);
    assert i < 0 ==> u[..|u|] == u;
  }

  lemma ProjectsOnly(p: Pattern, segs: seq<string>)
    requires |segs| > 0 && segs[0] == "projects"
    ensures Fits(Shape(p), segs) ==>
      p == ProjectsPath || p == ProjectPath || p == RolesPath || p == RolePath || p == GroupsPath || p == GroupPath
  {
    FourRoots();
    if Fits(Shape(p), segs) {
      assert Shape(p)[0] == Lit("projects");
    }
  }

  lemma NotARoot(p: Pattern, segs: seq<string>)
    requires |segs| > 0
    requires segs[0] != "auth" && segs[0] != "health" && segs[0] != "projects" && segs[0] != "users"
    ensures !Fits(Shape(p), segs)
  {
    assert Shape(p)[0].Lit?;
  }

  lemma ChildTail(a: string, u: string, p: Pattern)
    requires NoSlash(a)
    ensures Split("projects" + "/" + (a + "/" + u)) == ["projects", a] + Split(u)
    ensures MatchesTail(p, "projects" + "/" + (a + "/" + u)) <==> ChildOf(Split(u)) == Some(p)
    ensures ChildOf(Split(u)) == Some(p) ==>
      Args(Shape(p), ["projects", a] + Split(u)) == [a] + Split(u)[1..]
  {
    TwoSegments("projects", a, u);
    ChildShape(p, a, Split(u));
  }

  lemma TwoSegments(x: string, a: string, u: string)
    requires NoSlash(x) && NoSlash(a)
    ensures Split(x + "/" + (a + "/" + u)) == [x, a] + Split(u)
  {
    SplitCons(x, a + "/" + u);
    SplitCons(a, u);
  }

  lemma ChildShape(p: Pattern, a: string, us: seq<string>)
    requires |us| >= 1
    ensures Fits(Shape(p), ["projects", a] + us) <==> ChildOf(us) == Some(p)
    ensures ChildOf(us) == Some(p) ==> Args(Shape(p), ["projects", a] + us) == [a] + us[1..]
  {
    var segs := ["projects", a] + us;
    PairThen("projects", a, us);
    ChildIff(p, segs, us);
    if ChildOf(us) == Some(p) { ChildArgs(Shape(p), segs); }
  }

  lemma PairThen(x: string, a: string, us: seq<string>)
    requires |us| >= 1
    ensures var segs := [x, a] + us;
      segs[0] == x && segs[1] == a && segs[2] == us[0] && segs[3..] == us[1..]
  {
  }

  lemma ChildIff(p: Pattern, segs: seq<string>, us: seq<string>)
    requires |us| >= 1 && |segs| == |us| + 2 && segs[0] == "projects" && segs[2] == us[0]
    ensures Fits(Shape(p), segs) <==> ChildOf(us) == Some(p)
    ensures ChildOf(us) == Some(p) ==> ChildArgsOk(Shape(p), segs)
  {
    if Fits(Shape(p), segs) { ChildOnly(p, segs, us); }
    if ChildOf(us) == Some(p) { ChildFits(p, segs, us); }
  }

  predicate ChildArgsOk(shape: seq<Seg>, segs: seq<string>) {
    && |shape| == |segs| && (|shape| == 3 || |shape| == 4)
    && shape[0].Lit? && shape[1].Param? && shape[2].Lit? && (|shape| == 4 ==> shape[3].Param?)
  }

  lemma ChildOnly(p: Pattern, segs: seq<string>, us: seq<string>)
    requires |us| >= 1 && |segs| == |us| + 2 && segs[0] == "projects" && segs[2] == us[0]
    requires Fits(Shape(p), segs)
    ensures ChildOf(us) == Some(p)
  {
    ProjectsOnly(p, segs);
    assert "roles"[0] != "usergroups"[0];
    assert |Shape(p)| == |us| + 2;
    assert Shape(p)[2].Lit? && segs[2] == Shape(p)[2].text;
  }

  lemma ChildFits(p: Pattern, segs: seq<string>, us: seq<string>)
    requires |us| >= 1 && |segs| == |us| + 2 && segs[0] == "projects" && segs[2] == us[0]
    requires ChildOf(us) == Some(p)
    ensures Fits(Shape(p), segs)
    ensures Shape(p)[0].Lit? && Shape(p)[1].Param? && Shape(p)[2].Lit? && (|us| == 2 ==> Shape(p)[3].Param?)
    ensures |us| <= 2
  {
    assert Shape(p)[0] == Lit("projects") && Shape(p)[1] == Param && Shape(p)[2] == Lit(us[0]);
  }

  lemma ChildArgs(shape: seq<Seg>, segs: seq<string>)
    requires ChildArgsOk(shape, segs)
    ensures Args(shape, segs) == [segs[1]] + segs[3..]
  {
    var s1, g1 := shape[1..], segs[1..];
    var s2, g2 := s1[1..], g1[1..];
    var s3, g3 := s2[1..], g2[1..];
    assert Args(s2, g2) == Args(s3, g3);
    if |shape| == 4 {
      assert s3[1..] == [] && g3[1..] == [] && g3 == segs[3..] == [segs[3]];
    } else {
      assert s3 == [] && g3 == segs[3..] == [];
    }
  }

  lemma ChildFlat(a: string, u: string, verb: string, escaped: bool)
    requires NoSlash(a)
    ensures FlatTail("projects" + "/" + (a + "/" + u), verb, escaped,
                     Answer(ChildOf(Split(u)), [a] + Split(u)[1..], verb, escaped))
  {
    var rest := "projects" + "/" + (a + "/" + u);
    forall p ensures MatchesTail(p, rest) <==> ChildOf(Split(u)) == Some(p) { ChildTail(a, u, p); }
    if ChildOf(Split(u)).Some? { ChildTail(a, u, ChildOf(Split(u)).value); }
    ByTail(rest, ChildOf(Split(u)), [a] + Split(u)[1..], verb, escaped);
  }

  lemma ShortProjects(p: Pattern, segs: seq<string>)
    requires 1 <= |segs| <= 2 && segs[0] == "projects"
    ensures Fits(Shape(p), segs) <==> p == if |segs| == 1 then ProjectsPath else ProjectPath
    ensures |segs| == 1 ==> Args(Shape(ProjectsPath), segs) == []
    ensures |segs| == 2 ==> Args(Shape(ProjectPath), segs) == [segs[1]]
  {
    ProjectsOnly(p, segs);
    var shape := if |segs| == 1 then Shape(ProjectsPath) else Shape(ProjectPath);
    assert Args(shape[1..], segs[1..]) == if |segs| == 1 then [] else [segs[1]];
  }

  lemma ProjectFlat(rest: string, verb: string, escaped: bool)
    requires Split(rest)[0] == "projects" && |Split(rest)| <= 2
    ensures FlatTail(rest, verb, escaped,
      if |Split(rest)| == 1 then Serve(ProjectsPath, [], verb, escaped)
      else Serve(ProjectPath, [Split(rest)[1]], verb, escaped))
  {
    var p, args := if |Split(rest)| == 1 then ProjectsPath else ProjectPath, Split(rest)[1..];
    forall q ensures MatchesTail(q, rest) <==> Some(p) == Some(q) { ShortProjects(q, Split(rest)); }
    ShortProjects(p, Split(rest));
    ByTail(rest, Some(p), args, verb, escaped);
  }

  lemma UsersFlat(rest: string, verb: string, escaped: bool)
    requires Split(rest)[0] == "users"
    ensures FlatTail(rest, verb, escaped,
        Answer(if |Split(rest)| == 1 then Some(UsersPath) else None, [], verb, escaped))
  {
    var found := if |Split(rest)| == 1 then Some(UsersPath) else None;
    forall p ensures MatchesTail(p, rest) <==> found == Some(p) { OnlyUsers(p, Split(rest)); }
    if found.Some? { OnlyUsers(UsersPath, Split(rest)); }
    ByTail(rest, found, [], verb, escaped);
  }

  lemma OnlyUsers(p: Pattern, segs: seq<string>)
    requires |segs| >= 1 && segs[0] == "users"
    ensures Fits(Shape(p), segs) <==> p == UsersPath && |segs| == 1
    ensures |segs| == 1 ==> Args(Shape(UsersPath), segs) == []
  {
    FourRoots();
    if Fits(Shape(p), segs) { assert Shape(p)[0] == Lit("users"); }
    assert |segs| == 1 ==> Args(Shape(UsersPath)[1..], segs[1..]) == [];
  }

  lemma NoFlat(rest: string, verb: string, escaped: bool)
    requires var s := Split(rest)[0]; s != "auth" && s != "health" && s != "projects" && s != "users"
    ensures FlatTail(rest, verb, escaped, NotFound)
  {
    forall p ensures !MatchesTail(p, rest) { NotARoot(p, Split(rest)); }
  }

  /** "roles" or "usergroups" followed by nothing, by one segment, or by anything else. */
  lemma ChildAfter(word: string, v: string, list: Pattern, item: Pattern)
    requires (word == "roles" && list == RolesPath && item == RolePath)
          || (word == "usergroups" && list == GroupsPath && item == GroupPath)
    ensures v == "" ==> ChildOf(Split(word + v)) == Some(list) && Split(word + v)[1..] == []
    ensures v != "" && v[0] == '/' && NoSlash(v[1..]) ==>
      ChildOf(Split(word + v)) == Some(item) && Split(word + v)[1..] == [v[1..]]
    ensures v != "" && (v[0] != '/' || !NoSlash(v[1..])) ==> ChildOf(Split(word + v)) == None
  {
    Words();
    TwoWords();
    FirstSegmentIs(word, v);
    if v != "" {
      OneSegment(v[1..]);
      if v[0] != '/' { NeitherWord(word, v); }
    }
  }

  lemma TwoWords()
    ensures "roles" != "usergroups"
  {
    assert "roles"[0] != "usergroups"[0];
  }

  /** A first segment that goes on after one of the two words is neither of them. */
  lemma NeitherWord(word: string, v: string)
    requires word == "roles" || word == "usergroups"
    requires v != "" && v[0] != '/'
    ensures Split(word + v)[0] != "roles" && Split(word + v)[0] != "usergroups"
  {
    Words();
    FirstSegmentIs(word, v);
    FirstSegmentPrefix(word + v);
    var s := Split(word + v)[0];
    assert (word + v)[0] == word[0] && "roles"[0] == 'r' && "usergroups"[0] == 'u';
    assert s != "" ==> s[0] == (word + v)[0];
  }

  lemma ChildNone(u: string)
    requires !HasPrefix(u, "roles") && !HasPrefix(u, "usergroups")
    ensures ChildOf(Split(u)) == None
  {
    FirstSegmentPrefix(u);
  }

  /** A first segment that goes on after a root word is no root. */
  lemma LongerRoot(word: string, v: string)
    requires word == "projects" || word == "users"
    requires v != "" && v[0] != '/'
    ensures var s := Split(word + v)[0]; s != "auth" && s != "health" && s != "projects" && s != "users"
  {
    Words();
    FirstSegmentIs(word, v);
    FirstSegmentPrefix(word + v);
    var s := Split(word + v)[0];
    assert "projects"[0] == 'p' && "users"[0] == 'u';
    assert s != "" ==> s[0] == (word + v)[0];
  }

  /** A list pattern, its item pattern, or nothing, by what follows the list's word. */
  function ListOrItem(list: Pattern, item: Pattern, v: string, a: string, verb: string, escaped: bool): Outcome {
    if v == "" then Serve(list, [a], verb, escaped)
    else if v[0] == '/' && NoSlash(v[1..]) then Serve(item, [a, v[1..]], verb, escaped)
    else NotFound
  }

  function ChildAnswer(u: string, a: string, verb: string, escaped: bool): Outcome {
    if HasPrefix(u, "roles") then ListOrItem(RolesPath, RolePath, u[5..], a, verb, escaped)
    else if HasPrefix(u, "usergroups") then ListOrItem(GroupsPath, GroupPath, u[10..], a, verb, escaped)
    else NotFound
  }

  /** What the table says about a remainder after "projects". */
  function ProjectsAnswer(rest: string, verb: string, escaped: bool): Outcome {
    if rest == "" then Serve(ProjectsPath, [], verb, escaped)
    else if rest[0] != '/' then NotFound
    else
      var e := rest[1..];
      var i := IndexSlash(e);
      if i < 0 then Serve(ProjectPath, [e], verb, escaped)
      else ChildAnswer(e[i + 1..], e[..i], verb, escaped)
  }

  lemma ListOrItemIs(word: string, list: Pattern, item: Pattern, v: string, a: string, verb: string, escaped: bool)
    requires (word == "roles" && list == RolesPath && item == RolePath)
          || (word == "usergroups" && list == GroupsPath && item == GroupPath)
    ensures ListOrItem(list, item, v, a, verb, escaped)
         == Answer(ChildOf(Split(word + v)), [a] + Split(word + v)[1..], verb, escaped)
  {
    ChildAfter(word, v, list, item);
    var tail := Split(word + v)[1..];
    assert tail == [] ==> [a] + tail == [a];
    assert v != "" && tail == [v[1..]] ==> [a] + tail == [a, v[1..]];
  }

  lemma ChildAnswerIs(u: string, a: string, verb: string, escaped: bool)
    ensures ChildAnswer(u, a, verb, escaped) == Answer(ChildOf(Split(u)), [a] + Split(u)[1..], verb, escaped)
  {
    if HasPrefix(u, "roles") {
      assert u == "roles" + u[5..];
      ListOrItemIs("roles", RolesPath, RolePath, u[5..], a, verb, escaped);
    } else if HasPrefix(u, "usergroups") {
      assert u == "usergroups" + u[10..];
      ListOrItemIs("usergroups", GroupsPath, GroupPath, u[10..], a, verb, escaped);
    } else {
      ChildNone(u);
    }
  }

  lemma ProjectsFlat(rest: string, verb: string, escaped: bool)
    ensures FlatTail("projects" + rest, verb, escaped, ProjectsAnswer(rest, verb, escaped))
  {
    if rest == "" || rest[0] != '/' || IndexSlash(rest[1..]) < 0 {
      ProjectsFlatShort(rest, verb, escaped);
    } else {
      var e := rest[1..];
      var i := IndexSlash(e);
      assert "projects" + rest == "projects" + "/" + (e[..i] + "/" + e[i + 1..]);
      ChildFlat(e[..i], e[i + 1..], verb, escaped);
      ChildAnswerIs(e[i + 1..], e[..i], verb, escaped);
    }
  }

  lemma ProjectsFlatShort(rest: string, verb: string, escaped: bool)
    requires rest == "" || rest[0] != '/' || IndexSlash(rest[1..]) < 0
    ensures FlatTail("projects" + rest, verb, escaped, ProjectsAnswer(rest, verb, escaped))
  {
    Words();
    FirstSegmentIs("projects", rest);
    if rest != "" && rest[0] != '/' {
      LongerRoot("projects", rest);
      NoFlat("projects" + rest, verb, escaped);
    } else {
      if rest != "" { OneSegment(rest[1..]); }
      ProjectFlat("projects" + rest, verb, escaped);
    }
  }

  function UsersAnswer(rest: string, verb: string, escaped: bool): Outcome {
    if rest == "" then Serve(UsersPath, [], verb, escaped) else NotFound
  }

  lemma UsersAnswerFlat(rest: string, verb: string, escaped: bool)
    ensures FlatTail("users" + rest, verb, escaped, UsersAnswer(rest, verb, escaped))
  {
    Words();
    FirstSegmentIs("users", rest);
    if rest == "" || rest[0] == '/' {
      UsersFlat("users" + rest, verb, escaped);
    } else {
      LongerRoot("users", rest);
      NoFlat("users" + rest, verb, escaped);
    }
  }

  lemma FirstLetter(s: string, word: string)
    requires HasPrefix(s, word) && word != ""
    ensures s[0] == word[0]
  {
    assert s[0] == s[..|word|][0];
  }

  /** The four children are told apart by their first letter. */
  lemma ByLetter(rest: string)
    requires rest != ""
    ensures HasPrefix(rest, "auth/") ==> rest[0] == 'a'
    ensures HasPrefix(rest, "health/") ==> rest[0] == 'h'
    ensures HasPrefix(rest, "projects") ==> rest[0] == 'p'
    ensures HasPrefix(rest, "users") ==> rest[0] == 'u'
  {
    if HasPrefix(rest, "auth/") { FirstLetter(rest, "auth/"); }
    if HasPrefix(rest, "health/") { FirstLetter(rest, "health/"); }
    if HasPrefix(rest, "projects") { FirstLetter(rest, "projects"); }
    if HasPrefix(rest, "users") { FirstLetter(rest, "users"); }
  }

  /** What the table says about a remainder after "/v1alpha1/". */
  function TailAnswer(rest: string, verb: string, escaped: bool): Outcome {
    if HasPrefix(rest, "auth/") then Answer(AuthOf(rest[5..]), [], verb, escaped)
    else if HasPrefix(rest, "health/") then Answer(HealthOf(rest[7..]), [], verb, escaped)
    else if HasPrefix(rest, "projects") then ProjectsAnswer(rest[8..], verb, escaped)
    else if HasPrefix(rest, "users") then UsersAnswer(rest[5..], verb, escaped)
    else NotFound
  }

  lemma TailAnswerFlat(rest: string, verb: string, escaped: bool)
    ensures FlatTail(rest, verb, escaped, TailAnswer(rest, verb, escaped))
  {
    if HasPrefix(rest, "auth/") {
      assert rest == "auth" + "/" + rest[5..];
      AuthFlat(rest[5..], verb, escaped);
    } else if HasPrefix(rest, "health/") {
      assert rest == "health" + "/" + rest[7..];
      HealthFlat(rest[7..], verb, escaped);
    } else if HasPrefix(rest, "projects") {
      assert rest == "projects" + rest[8..];
      ProjectsFlat(rest[8..], verb, escaped);
    } else if HasPrefix(rest, "users") {
      assert rest == "users" + rest[5..];
      UsersAnswerFlat(rest[5..], verb, escaped);
    } else {
      forall p ensures !MatchesTail(p, rest) { NoRoot(rest, p); }
    }
  }

  lemma NoRoot(rest: string, p: Pattern)
    requires !HasPrefix(rest, "auth/") && !HasPrefix(rest, "health/")
    requires !HasPrefix(rest, "projects") && !HasPrefix(rest, "users")
    ensures !MatchesTail(p, rest)
  {
    var segs := Split(rest);
    FirstSegmentPrefix(rest);
    if segs[0] != "auth" && segs[0] != "health" {
      NotARoot(p, segs);
    } else {
      LoneSegment(rest, segs[0]);
      LoneFits(p, segs);
    }
  }

  lemma LoneSegment(rest: string, word: string)
    requires word == Split(rest)[0] && !HasPrefix(rest, word + "/")
    ensures |Split(rest)| == 1
  {
    if |Split(rest)| > 1 { MoreSegments(rest); }
  }

  lemma LoneFits(p: Pattern, segs: seq<string>)
    requires |segs| == 1 && (segs[0] == "auth" || segs[0] == "health")
    ensures !Fits(Shape(p), segs)
  {
    FourRoots();
    LoneRoots(p);
  }

  lemma LoneRoots(p: Pattern)
    ensures |Shape(p)| == 1 ==> Shape(p)[0] == Lit("projects") || Shape(p)[0] == Lit("users")
  {
  }

  lemma MoreSegments(rest: string)
    requires |Split(rest)| > 1
    ensures HasPrefix(rest, Split(rest)[0] + "/")
  {
    var i := IndexSlash(rest);
    assert rest[..i + 1] == rest[..i] + "/";
  }

  /** The outcome of the whole table for a path. */
  function FlatAnswer(path: string, verb: string, escaped: bool): Outcome {
    if HasPrefix(path, "/v1alpha1/") then TailAnswer(path[10..], verb, escaped) else NotFound
  }

  lemma FlatAnswerIsFlat(path: string, verb: string, escaped: bool)
    ensures Flat(path, verb, escaped, FlatAnswer(path, verb, escaped))
  {
    if HasPrefix(path, "/v1alpha1/") {
      var rest := path[10..];
      assert path == "/v1alpha1/" + rest;
      CutBase(rest);
      TailAnswerFlat(rest, verb, escaped);
      TailToFlat(path, rest, verb, escaped, TailAnswer(rest, verb, escaped));
    } else {
      forall p ensures !Matches(p, path) { if Matches(p, path) { OnlyBelowBase(p, path); } }
    }
  }

  lemma TailToFlat(path: string, rest: string, verb: string, escaped: bool, out: Outcome)
    requires Split(path) == BASE + Split(rest)
    requires FlatTail(rest, verb, escaped, out)
    ensures Flat(path, verb, escaped, out)
  {
    var segs := BASE + Split(rest);
    assert segs[..2] == BASE && segs[2..] == Split(rest);
    forall p ensures Matches(p, path) <==> MatchesTail(p, rest) {}
    if out != NotFound || exists p :: MatchesTail(p, rest) {
      var p :| MatchesTail(p, rest) && out == Serve(p, Args(Shape(p), Split(rest)), verb, escaped);
      assert Matches(p, path);
    }
  }

  // ---------- Leaves ----------

  lemma OneVerb(p: Pattern, m: string, op: Op, args: seq<string>, verb: string, escaped: bool)
    requires Methods(p) == [(m, op)]
    ensures Serve(p, args, verb, escaped) == if verb == m then Dispatch(op, args, escaped) else NotAllowed(m)
  {
    var ms := Methods(p);
    assert ms[0] == (m, op) && ms[1..] == [];
    assert Find(ms[1..], verb) == None;
  }

  lemma TwoVerbs(p: Pattern, m: string, op: Op, n: string, oq: Op, args: seq<string>, verb: string, escaped: bool)
    requires Methods(p) == [(m, op), (n, oq)]
    ensures Serve(p, args, verb, escaped)
      == if verb == m then Dispatch(op, args, escaped) else if verb == n then Dispatch(oq, args, escaped)
         else NotAllowed(m + "," + n)
  {
    var ms := Methods(p);
    var ns := ms[1..];
    assert ms[0] == (m, op) && ns == [(n, oq)] && ns[0] == (n, oq) && ns[1..] == [];
    assert Find(ns[1..], verb) == None;
    assert Find(ns, verb) == if verb == n then Some(oq) else None;
    assert Names(ms) == [m, n] && [m, n][1..] == [n];
    assert CommaJoin([n]) == n && CommaJoin([m, n]) == m + "," + n;
  }

  // ---------- ServeHTTP ----------

  method ServeAuth(rest: string, verb: string, elemIsEscaped: bool) returns (out: Outcome)
    ensures out == Answer(AuthOf(rest), [], verb, elemIsEscaped)
  {
    var elem := rest;
    out := NotFound;
    if |elem| == 0 { return; }
    if elem[0] == 'c' {
      if HasPrefix(elem, "callback") { elem := elem[8..]; } else { return; }
      if |elem| == 0 {
        OneVerb(CallbackPath, "GET", HandleOAuthCallback, [], verb, elemIsEscaped);
        if verb == "GET" {
          out := Dispatch(HandleOAuthCallback, [], elemIsEscaped);
        } else {
          out := NotAllowed("GET");
        }
      }
    } else if elem[0] == 'l' {
      if HasPrefix(elem, "log") { LogWords(rest); elem := elem[3..]; } else { return; }
      if |elem| == 0 { return; }
      if elem[0] == 'i' {
        if HasPrefix(elem, "in") { elem := elem[2..]; } else { return; }
        if |elem| == 0 {
          OneVerb(LoginPath, "GET", InitiateLogin, [], verb, elemIsEscaped);
          if verb == "GET" {
            out := Dispatch(InitiateLogin, [], elemIsEscaped);
          } else {
            out := NotAllowed("GET");
          }
        }
      } else if elem[0] == 'o' {
        if HasPrefix(elem, "out") { elem := elem[3..]; } else { return; }
        if |elem| == 0 {
          OneVerb(LogoutPath, "POST", Logout, [], verb, elemIsEscaped);
          if verb == "POST" {
            out := Dispatch(Logout, [], elemIsEscaped);
          } else {
            out := NotAllowed("POST");
          }
        }
      }
    } else if elem[0] == 'm' {
      if HasPrefix(elem, "me") { elem := elem[2..]; } else { return; }
      if |elem| == 0 {
        OneVerb(MePath, "GET", GetCurrentUser, [], verb, elemIsEscaped);
        if verb == "GET" {
          out := Dispatch(GetCurrentUser, [], elemIsEscaped);
        } else {
          out := NotAllowed("GET");
        }
      }
    } else if elem[0] == 'r' {
      if HasPrefix(elem, "refresh") { elem := elem[7..]; } else { return; }
      if |elem| == 0 {
        OneVerb(RefreshPath, "POST", RefreshToken, [], verb, elemIsEscaped);
        if verb == "POST" {
          out := Dispatch(RefreshToken, [], elemIsEscaped);
        } else {
          out := NotAllowed("POST");
        }
      }
    }
  }

  method ServeHealth(rest: string, verb: string, elemIsEscaped: bool) returns (out: Outcome)
    ensures out == Answer(HealthOf(rest), [], verb, elemIsEscaped)
  {
    var elem := rest;
    out := NotFound;
    if |elem| == 0 { return; }
    if elem[0] == 'l' {
      if HasPrefix(elem, "liveness") { elem := elem[8..]; } else { return; }
      if |elem| == 0 {
        OneVerb(LivenessPath, "GET", GetLivenessCheck, [], verb, elemIsEscaped);
        if verb == "GET" {
          out := Dispatch(GetLivenessCheck, [], elemIsEscaped);
        } else {
          out := NotAllowed("GET");
        }
      }
    } else if elem[0] == 'r' {
      if HasPrefix(elem, "readiness") { elem := elem[9..]; } else { return; }
      if |elem| == 0 {
        OneVerb(ReadinessPath, "GET", GetReadinessCheck, [], verb, elemIsEscaped);
        if verb == "GET" {
          out := Dispatch(GetReadinessCheck, [], elemIsEscaped);
        } else {
          out := NotAllowed("GET");
        }
      }
    }
  }

  method ServeRoles(rest: string, args: array<string>, verb: string, elemIsEscaped: bool) returns (out: Outcome)
    requires args.Length == 2
    modifies args
    ensures out == ListOrItem(RolesPath, RolePath, rest, old(args[0]), verb, elemIsEscaped)
  {
    var elem := rest;
    out := NotFound;
    if |elem| == 0 {
      TwoVerbs(RolesPath, "GET", ListRoles, "POST", CreateRole, [args[0]], verb, elemIsEscaped);
      if verb == "GET" {
        out := Dispatch(ListRoles, [args[0]], elemIsEscaped);
      } else if verb == "POST" {
        out := Dispatch(CreateRole, [args[0]], elemIsEscaped);
      } else {
        out := NotAllowed("GET,POST");
      }
    } else if elem[0] == '/' {
      elem := elem[1..];
      var idx := IndexSlash(elem);
      if idx >= 0 { return; }
      args[1] := elem;
      TwoVerbs(RolePath, "GET", GetRole, "PUT", UpdateRole, [args[0], args[1]], verb, elemIsEscaped);
      if verb == "GET" {
        out := Dispatch(GetRole, [args[0], args[1]], elemIsEscaped);
      } else if verb == "PUT" {
        out := Dispatch(UpdateRole, [args[0], args[1]], elemIsEscaped);
      } else {
        out := NotAllowed("GET,PUT");
      }
    }
  }

  method ServeGroups(rest: string, args: array<string>, verb: string, elemIsEscaped: bool) returns (out: Outcome)
    requires args.Length == 2
    modifies args
    ensures out == ListOrItem(GroupsPath, GroupPath, rest, old(args[0]), verb, elemIsEscaped)
  {
    var elem := rest;
    out := NotFound;
    if |elem| == 0 {
      TwoVerbs(GroupsPath, "GET", ListUserGroups, "POST", CreateUserGroup, [args[0]], verb, elemIsEscaped);
      if verb == "GET" {
        out := Dispatch(ListUserGroups, [args[0]], elemIsEscaped);
      } else if verb == "POST" {
        out := Dispatch(CreateUserGroup, [args[0]], elemIsEscaped);
      } else {
        out := NotAllowed("GET,POST");
      }
    } else if elem[0] == '/' {
      elem := elem[1..];
      var idx := IndexSlash(elem);
      if idx >= 0 { return; }
      args[1] := elem;
      TwoVerbs(GroupPath, "GET", GetUserGroup, "PUT", UpdateUserGroup, [args[0], args[1]], verb, elemIsEscaped);
      if verb == "GET" {
        out := Dispatch(GetUserGroup, [args[0], args[1]], elemIsEscaped);
      } else if verb == "PUT" {
        out := Dispatch(UpdateUserGroup, [args[0], args[1]], elemIsEscaped);
      } else {
        out := NotAllowed("GET,PUT");
      }
    }
  }

  method ServeChild(rest: string, args: array<string>, verb: string, elemIsEscaped: bool) returns (out: Outcome)
    requires args.Length == 2
    modifies args
    ensures out == ChildAnswer(rest, old(args[0]), verb, elemIsEscaped)
  {
    var elem := rest;
    out := NotFound;
    if |elem| == 0 { return; }
    if elem[0] == 'r' {
      if HasPrefix(elem, "roles") { elem := elem[5..]; } else { return; }
      out := ServeRoles(elem, args, verb, elemIsEscaped);
    } else if elem[0] == 'u' {
      if HasPrefix(elem, "usergroups") { elem := elem[10..]; } else { return; }
      out := ServeGroups(elem, args, verb, elemIsEscaped);
    }
  }

  method ServeProjects(rest: string, verb: string, elemIsEscaped: bool) returns (out: Outcome)
    ensures out == ProjectsAnswer(rest, verb, elemIsEscaped)
  {
    var elem := rest;
    var args := new string[2](_ => "");
    out := NotFound;
    if |elem| == 0 {
      TwoVerbs(ProjectsPath, "GET", ListProjects, "POST", CreateProject, [], verb, elemIsEscaped);
      if verb == "GET" {
        out := Dispatch(ListProjects, [], elemIsEscaped);
      } else if verb == "POST" {
        out := Dispatch(CreateProject, [], elemIsEscaped);
      } else {
        out := NotAllowed("GET,POST");
      }
      return;
    }
    if elem[0] == '/' {
      elem := elem[1..];
      var idx := IndexSlash(elem);
      if idx < 0 { idx := |elem|; }
      args[0] := elem[..idx];
      ghost var all := elem;
      elem := elem[idx..];
      if |elem| == 0 {
        OneSegment(all);
        assert args[0] == all;
        TwoVerbs(ProjectPath, "GET", GetProject, "PUT", UpdateProject, [args[0]], verb, elemIsEscaped);
        if verb == "GET" {
          out := Dispatch(GetProject, [args[0]], elemIsEscaped);
        } else if verb == "PUT" {
          out := Dispatch(UpdateProject, [args[0]], elemIsEscaped);
        } else {
          out := NotAllowed("GET,PUT");
        }
        return;
      }
      if elem[0] == '/' {
        elem := elem[1..];
        assert elem == all[idx + 1..];
        if |elem| == 0 { return; }
        out := ServeChild(elem, args, verb, elemIsEscaped);
      }
    }
  }

  method ServeUsers(rest: string, verb: string, elemIsEscaped: bool) returns (out: Outcome)
    ensures out == UsersAnswer(rest, verb, elemIsEscaped)
  {
    out := NotFound;
    if |rest| == 0 {
      TwoVerbs(UsersPath, "GET", ListUsers, "POST", CreateUser, [], verb, elemIsEscaped);
      if verb == "GET" {
        out := Dispatch(ListUsers, [], elemIsEscaped);
      } else if verb == "POST" {
        out := Dispatch(CreateUser, [], elemIsEscaped);
      } else {
        out := NotAllowed("GET,POST");
      }
    }
  }

  /** `cutPrefix`: the configured prefix is removed from the front of the path. */
  function CutPrefix(prefix: string, path: string): Option<string> {
    if prefix == "" then Some(path)
    else if !HasPrefix(path, prefix) then None
    else Some(path[|prefix|..])
  }

  lemma CutExactly(prefix: string, path: string, rest: string)
    ensures CutPrefix(prefix, path) == Some(rest) <==> path == prefix + rest
  {
    if path == prefix + rest { assert path[..|prefix|] == prefix && path[|prefix|..] == rest; }
  }

  /** The element the router walks, and whether its parameters still need unescaping. */
  function Element(plain: char -> bool, u: Url): (string, bool) {
    if u.rawPath != "" && Normalize(plain, u.rawPath).Some? then
      (Normalize(plain, u.rawPath).value, '%' in Normalize(plain, u.rawPath).value)
    else
      (u.path, false)
  }

  /** The table's answer to a whole request. */
  function Served(prefix: string, plain: char -> bool, verb: string, u: Url): Outcome {
    var (elem, escaped) := Element(plain, u);
    match CutPrefix(prefix, elem)
    case None => NotFound
    case Some(path) => FlatAnswer(path, verb, escaped)
  }

  method ServeHTTP(prefix: string, plain: char -> bool, verb: string, u: Url) returns (out: Outcome)
    ensures out == Served(prefix, plain, verb, u)
    ensures var (elem, escaped) := Element(plain, u);
      match CutPrefix(prefix, elem)
      case None => out == NotFound
      case Some(path) => Flat(path, verb, escaped, out)
  {
    var elem := u.path;
    var elemIsEscaped := false;
    if u.rawPath != "" {
      var normalized := Normalize(plain, u.rawPath);
      if normalized.Some? {
        elem := normalized.value;
        elemIsEscaped := '%' in elem;
      }
    }
    var cut := CutPrefix(prefix, elem);
    out := NotFound;
    if cut.None? { return; }
    elem := cut.value;
    FlatAnswerIsFlat(elem, verb, elemIsEscaped);
    if |elem| == 0 { return; }
    out := ServeElem(elem, verb, elemIsEscaped);
  }

  method ServeElem(path: string, verb: string, elemIsEscaped: bool) returns (out: Outcome)
    ensures out == FlatAnswer(path, verb, elemIsEscaped)
  {
    var elem := path;
    out := NotFound;
    if |elem| == 0 { return; }
    if elem[0] == '/' {
      if HasPrefix(elem, "/v1alpha1/") { elem := elem[10..]; } else { return; }
      out := ServeTail(elem, verb, elemIsEscaped);
    }
  }

  method ServeTail(rest: string, verb: string, elemIsEscaped: bool) returns (out: Outcome)
    ensures out == TailAnswer(rest, verb, elemIsEscaped)
  {
    var elem := rest;
    out := NotFound;
    if |elem| == 0 { return; }
    ByLetter(rest);
    if elem[0] == 'a' {
      if HasPrefix(elem, "auth/") { elem := elem[5..]; } else { return; }
      out := ServeAuth(elem, verb, elemIsEscaped);
    } else if elem[0] == 'h' {
      if HasPrefix(elem, "health/") { elem := elem[7..]; } else { return; }
      out := ServeHealth(elem, verb, elemIsEscaped);
    } else if elem[0] == 'p' {
      if HasPrefix(elem, "projects") { elem := elem[8..]; } else { return; }
      out := ServeProjects(elem, verb, elemIsEscaped);
    } else if elem[0] == 'u' {
      if HasPrefix(elem, "users") { elem := elem[5..]; } else { return; }
      out := ServeUsers(elem, verb, elemIsEscaped);
    }
  }

  // ---------- FindPath ----------

  datatype Route = Route(op: Op, pattern: Pattern, args: seq<string>)

  /** The pattern an operation is served at. */
  function PatternOf(op: Op): Pattern
  {
    match op
    case ListProjects | CreateProject => ProjectsPath
    case GetProject | UpdateProject => ProjectPath
    case ListRoles | CreateRole => RolesPath
    case GetRole | UpdateRole => RolePath
    case ListUserGroups | CreateUserGroup => GroupsPath
    case GetUserGroup | UpdateUserGroup => GroupPath
    case ListUsers | CreateUser => UsersPath
    case HandleOAuthCallback => CallbackPath
    case InitiateLogin => LoginPath
    case Logout => LogoutPath
    case GetCurrentUser => MePath
    case RefreshToken => RefreshPath
    case GetLivenessCheck => LivenessPath
    case GetReadinessCheck => ReadinessPath
  }

  function RouteOf(out: Outcome): Option<Route> {
    if out.Dispatch? then Some(Route(out.op, PatternOf(out.op), out.args)) else None
  }

  /** What the deferred function leaves in an argument slot: the unescaped text, or the text as it
      was when it does not unescape. */
  function UnescapeOr(arg: string): string {
    match Unescape(arg) case None => arg case Some(t) => t
  }

  function UnescapeAll(args: seq<string>): (r: seq<string>)
    ensures |r| == |args| && forall i :: 0 <= i < |args| ==> r[i] == UnescapeOr(args[i])
  {
    seq(|args|, i requires 0 <= i < |args| => UnescapeOr(args[i]))
  }

  function Found(prefix: string, plain: char -> bool, verb: string, u: Url): Option<Route> {
    var (elem, escaped) := Element(plain, u);
    match CutPrefix(prefix, elem)
    case None => None
    case Some(path) =>
      match RouteOf(FlatAnswer(path, verb, false))
      case None => None
      case Some(r) => Some(if u.rawPath != "" then r.(args := UnescapeAll(r.args)) else r)
  }

  method FindPath(prefix: string, plain: char -> bool, verb: string, u: Url) returns (r: Option<Route>)
    ensures r == Found(prefix, plain, verb, u)
  {
    var elem := u.path;
    var deferred := false;
    if u.rawPath != "" {
      var normalized := Normalize(plain, u.rawPath);
      if normalized.Some? { elem := normalized.value; }
      deferred := true;
    }
    r := None;
    var cut := CutPrefix(prefix, elem);
    if cut.None? { return; }
    r := FindElem(cut.value, verb);
    if deferred && r.Some? {
      var args := Deferred(r.value.args);
      r := Some(r.value.(args := args));
    }
  }

  /** The deferred function of FindPath. */
  method Deferred(found: seq<string>) returns (args: seq<string>)
    ensures args == UnescapeAll(found)
  {
    args := found;
    var i := 0;
    while i < |args|
      invariant 0 <= i <= |args| == |found|
      invariant forall k :: 0 <= k < |args| ==> args[k] == if k < i then UnescapeOr(found[k]) else found[k]
    {
      var unescaped := Unescape(args[i]);
      if unescaped.Some? { args := args[i := unescaped.value]; }
      i := i + 1;
    }
  }

  lemma OneRoute(p: Pattern, m: string, op: Op, args: seq<string>, verb: string)
    requires Methods(p) == [(m, op)] && PatternOf(op) == p
    ensures RouteOf(Answer(Some(p), args, verb, false)) == if verb == m then Some(Route(op, p, args)) else None
  {
    OneVerb(p, m, op, args, verb, false);
  }

  method FindAuth(rest: string, verb: string) returns (r: Option<Route>)
    ensures r == RouteOf(Answer(AuthOf(rest), [], verb, false))
  {
    var elem := rest;
    r := None;
    if |elem| == 0 { return; }
    if elem[0] == 'c' {
      if HasPrefix(elem, "callback") { elem := elem[8..]; } else { return; }
      if |elem| == 0 {
        OneRoute(CallbackPath, "GET", HandleOAuthCallback, [], verb);
        if verb == "GET" {
          r := Some(Route(HandleOAuthCallback, CallbackPath, []));
        }
      }
    } else if elem[0] == 'l' {
      if HasPrefix(elem, "log") { LogWords(rest); elem := elem[3..]; } else { return; }
      if |elem| == 0 { return; }
      if elem[0] == 'i' {
        if HasPrefix(elem, "in") { elem := elem[2..]; } else { return; }
        if |elem| == 0 {
          OneRoute(LoginPath, "GET", InitiateLogin, [], verb);
          if verb == "GET" {
            r := Some(Route(InitiateLogin, LoginPath, []));
          }
        }
      } else if elem[0] == 'o' {
        if HasPrefix(elem, "out") { elem := elem[3..]; } else { return; }
        if |elem| == 0 {
          OneRoute(LogoutPath, "POST", Logout, [], verb);
          if verb == "POST" {
            r := Some(Route(Logout, LogoutPath, []));
          }
        }
      }
    } else if elem[0] == 'm' {
      if HasPrefix(elem, "me") { elem := elem[2..]; } else { return; }
      if |elem| == 0 {
        OneRoute(MePath, "GET", GetCurrentUser, [], verb);
        if verb == "GET" {
          r := Some(Route(GetCurrentUser, MePath, []));
        }
      }
    } else if elem[0] == 'r' {
      if HasPrefix(elem, "refresh") { elem := elem[7..]; } else { return; }
      if |elem| == 0 {
        OneRoute(RefreshPath, "POST", RefreshToken, [], verb);
        if verb == "POST" {
          r := Some(Route(RefreshToken, RefreshPath, []));
        }
      }
    }
  }

  method FindHealth(rest: string, verb: string) returns (r: Option<Route>)
    ensures r == RouteOf(Answer(HealthOf(rest), [], verb, false))
  {
    var elem := rest;
    r := None;
    if |elem| == 0 { return; }
    if elem[0] == 'l' {
      if HasPrefix(elem, "liveness") { elem := elem[8..]; } else { return; }
      if |elem| == 0 {
        OneVerb(LivenessPath, "GET", GetLivenessCheck, [], verb, false);
        if verb == "GET" {
          r := Some(Route(GetLivenessCheck, LivenessPath, []));
        }
      }
    } else if elem[0] == 'r' {
      if HasPrefix(elem, "readiness") { elem := elem[9..]; } else { return; }
      if |elem| == 0 {
        OneVerb(ReadinessPath, "GET", GetReadinessCheck, [], verb, false);
        if verb == "GET" {
          r := Some(Route(GetReadinessCheck, ReadinessPath, []));
        }
      }
    }
  }

  method FindRoles(rest: string, args: array<string>, verb: string) returns (r: Option<Route>)
    requires args.Length == 2
    modifies args
    ensures r == RouteOf(ListOrItem(RolesPath, RolePath, rest, old(args[0]), verb, false))
  {
    var elem := rest;
    r := None;
    if |elem| == 0 {
      TwoVerbs(RolesPath, "GET", ListRoles, "POST", CreateRole, [args[0]], verb, false);
      if verb == "GET" {
        r := Some(Route(ListRoles, RolesPath, [args[0]]));
      } else if verb == "POST" {
        r := Some(Route(CreateRole, RolesPath, [args[0]]));
      }
    } else if elem[0] == '/' {
      elem := elem[1..];
      var idx := IndexSlash(elem);
      if idx >= 0 { return; }
      args[1] := elem;
      TwoVerbs(RolePath, "GET", GetRole, "PUT", UpdateRole, [args[0], args[1]], verb, false);
      if verb == "GET" {
        r := Some(Route(GetRole, RolePath, [args[0], args[1]]));
      } else if verb == "PUT" {
        r := Some(Route(UpdateRole, RolePath, [args[0], args[1]]));
      }
    }
  }

  method FindGroups(rest: string, args: array<string>, verb: string) returns (r: Option<Route>)
    requires args.Length == 2
    modifies args
    ensures r == RouteOf(ListOrItem(GroupsPath, GroupPath, rest, old(args[0]), verb, false))
  {
    var elem := rest;
    r := None;
    if |elem| == 0 {
      TwoVerbs(GroupsPath, "GET", ListUserGroups, "POST", CreateUserGroup, [args[0]], verb, false);
      if verb == "GET" {
        r := Some(Route(ListUserGroups, GroupsPath, [args[0]]));
      } else if verb == "POST" {
        r := Some(Route(CreateUserGroup, GroupsPath, [args[0]]));
      }
    } else if elem[0] == '/' {
      elem := elem[1..];
      var idx := IndexSlash(elem);
      if idx >= 0 { return; }
      args[1] := elem;
      TwoVerbs(GroupPath, "GET", GetUserGroup, "PUT", UpdateUserGroup, [args[0], args[1]], verb, false);
      if verb == "GET" {
        r := Some(Route(GetUserGroup, GroupPath, [args[0], args[1]]));
      } else if verb == "PUT" {
        r := Some(Route(UpdateUserGroup, GroupPath, [args[0], args[1]]));
      }
    }
  }

  method FindChild(rest: string, args: array<string>, verb: string) returns (r: Option<Route>)
    requires args.Length == 2
    modifies args
    ensures r == RouteOf(ChildAnswer(rest, old(args[0]), verb, false))
  {
    var elem := rest;
    r := None;
    if |elem| == 0 { return; }
    if elem[0] == 'r' {
      if HasPrefix(elem, "roles") { elem := elem[5..]; } else { return; }
      r := FindRoles(elem, args, verb);
    } else if elem[0] == 'u' {
      if HasPrefix(elem, "usergroups") { elem := elem[10..]; } else { return; }
      r := FindGroups(elem, args, verb);
    }
  }

  method FindProjects(rest: string, verb: string) returns (r: Option<Route>)
    ensures r == RouteOf(ProjectsAnswer(rest, verb, false))
  {
    var elem := rest;
    var args := new string[2](_ => "");
    r := None;
    if |elem| == 0 {
      TwoVerbs(ProjectsPath, "GET", ListProjects, "POST", CreateProject, [], verb, false);
      if verb == "GET" {
        r := Some(Route(ListProjects, ProjectsPath, []));
      } else if verb == "POST" {
        r := Some(Route(CreateProject, ProjectsPath, []));
      }
      return;
    }
    if elem[0] == '/' {
      elem := elem[1..];
      var idx := IndexSlash(elem);
      if idx < 0 { idx := |elem|; }
      args[0] := elem[..idx];
      ghost var all := elem;
      elem := elem[idx..];
      if |elem| == 0 {
        OneSegment(all);
        assert args[0] == all;
        TwoVerbs(ProjectPath, "GET", GetProject, "PUT", UpdateProject, [args[0]], verb, false);
        if verb == "GET" {
          r := Some(Route(GetProject, ProjectPath, [args[0]]));
        } else if verb == "PUT" {
          r := Some(Route(UpdateProject, ProjectPath, [args[0]]));
        }
        return;
      }
      if elem[0] == '/' {
        elem := elem[1..];
        assert elem == all[idx + 1..];
        if |elem| == 0 { return; }
        r := FindChild(elem, args, verb);
      }
    }
  }

  method FindUsers(rest: string, verb: string) returns (r: Option<Route>)
    ensures r == RouteOf(UsersAnswer(rest, verb, false))
  {
    r := None;
    if |rest| == 0 {
      TwoVerbs(UsersPath, "GET", ListUsers, "POST", CreateUser, [], verb, false);
      if verb == "GET" {
        r := Some(Route(ListUsers, UsersPath, []));
      } else if verb == "POST" {
        r := Some(Route(CreateUser, UsersPath, []));
      }
    }
  }

  method FindTail(rest: string, verb: string) returns (r: Option<Route>)
    ensures r == RouteOf(TailAnswer(rest, verb, false))
  {
    var elem := rest;
    r := None;
    if |elem| == 0 { return; }
    ByLetter(rest);
    if elem[0] == 'a' {
      if HasPrefix(elem, "auth/") { elem := elem[5..]; } else { return; }
      r := FindAuth(elem, verb);
    } else if elem[0] == 'h' {
      if HasPrefix(elem, "health/") { elem := elem[7..]; } else { return; }
      r := FindHealth(elem, verb);
    } else if elem[0] == 'p' {
      if HasPrefix(elem, "projects") { elem := elem[8..]; } else { return; }
      r := FindProjects(elem, verb);
    } else if elem[0] == 'u' {
      if HasPrefix(elem, "users") { elem := elem[5..]; } else { return; }
      r := FindUsers(elem, verb);
    }
  }

  method FindElem(path: string, verb: string) returns (r: Option<Route>)
    ensures r == RouteOf(FlatAnswer(path, verb, false))
  {
    var elem := path;
    r := None;
    if |elem| == 0 { return; }
    if elem[0] == '/' {
      if HasPrefix(elem, "/v1alpha1/") { elem := elem[10..]; } else { return; }
      r := FindTail(elem, verb);
    }
  }
}
