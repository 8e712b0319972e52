/** What the two tries promise together: agreement on every URL, and the Allow header. */
module RouterTheorems {
  import opened Wrappers
  import opened PathText
  import opened RouteTable
  import opened Router

  /** The string a handler's parameter decoder sees, or none when it does not unescape. */
  function Handed(arg: string, escaped: bool): Option<string> {
    if escaped then Unescape(arg) else Some(arg)
  }

  /** The table's answer is the only outcome the flat relation admits. */
  lemma FlatIsAnswer(path: string, verb: string, escaped: bool, out: Outcome)
    ensures Flat(path, verb, escaped, out) <==> out == FlatAnswer(path, verb, escaped)
  {
    FlatAnswerIsFlat(path, verb, escaped);
    if Flat(path, verb, escaped, out) { FlatUnique(path, verb, escaped, out, FlatAnswer(path, verb, escaped)); }
  }

  /** A dispatched outcome carries the arguments of the pattern of its operation. */
  lemma DispatchedMatch(path: string, verb: string, escaped: bool)
    requires FlatAnswer(path, verb, escaped).Dispatch?
    ensures var out := FlatAnswer(path, verb, escaped);
      var p := PatternOf(out.op);
      Matches(p, path) && out.args == ArgsOf(p, path) && out.escaped == escaped
      && Find(Methods(p), verb) == Some(out.op)
  {
    FlatAnswerIsFlat(path, verb, escaped);
    var out := FlatAnswer(path, verb, escaped);
    var p :| Matches(p, path) && out == Serve(p, ArgsOf(p, path), verb, escaped);
    OnePattern(p, verb, out.op);
  }

  /** No operation is served at two patterns. */
  lemma OnePattern(p: Pattern, verb: string, op: Op)
    requires Find(Methods(p), verb) == Some(op)
    ensures p == PatternOf(op)
  {
    FindIn(Methods(p), verb);
    var i :| 0 <= i < |Methods(p)| && Methods(p)[i] == (verb, op);
    assert i == 0 || i == 1;
  }

  lemma {:induction false} FindIn(ms: seq<(string, Op)>, verb: string)
    ensures match Find(ms, verb)
      case Some(op) => exists i :: 0 <= i < |ms| && ms[i] == (verb, op)
      case None => forall i :: 0 <= i < |ms| ==> ms[i].0 != verb
  {
    if ms != [] && ms[0].0 != verb {
      FindIn(ms[1..], verb);
      if Find(ms[1..], verb).Some? {
        var i :| 0 <= i < |ms[1..]| && ms[1..][i] == (verb, Find(ms[1..], verb).value);
        assert ms[i + 1] == ms[1..][i];
      }
    }
  }

  /** The escaped flag only travels along. */
  lemma EscapedTravels(path: string, verb: string)
    ensures RouteOf(FlatAnswer(path, verb, true)) == RouteOf(FlatAnswer(path, verb, false))
  {
    FlatAnswerIsFlat(path, verb, true);
    FlatAnswerIsFlat(path, verb, false);
    var a, b := FlatAnswer(path, verb, true), FlatAnswer(path, verb, false);
    if exists p :: Matches(p, path) {
      var p :| Matches(p, path) && a == Serve(p, ArgsOf(p, path), verb, true);
      var q :| Matches(q, path) && b == Serve(q, ArgsOf(q, path), verb, false);
      PatternsDisjoint(p, q, path);
    }
  }

  predicate AllDecode(segs: seq<string>) { forall i :: 0 <= i < |segs| ==> Unescape(segs[i]).Some? }

  lemma ConsDecode(a: string, rest: seq<string>)
    requires Unescape(a).Some? && AllDecode(rest)
    ensures AllDecode([a] + rest)
  {
  }

  /** Every segment of a decodable path decodes by itself. */
  lemma {:induction false} SegmentsDecode(s: string)
    requires Unescape(s).Some?
    ensures AllDecode(Split(s))
    decreases |s|
  {
    var i := IndexSlash(s);
    if i >= 0 {
      var a, rest := s[..i], s[i + 1..];
      CutAt(s, i);
      UnescapeAtSlash(a, rest);
      SegmentsDecode(rest);
      ConsDecode(a, Split(rest));
    }
  }

  predicate AllPlain(segs: seq<string>) { forall i :: 0 <= i < |segs| ==> '%' !in segs[i] }

  lemma ConsPlain(a: string, rest: seq<string>)
    requires '%' !in a && AllPlain(rest)
    ensures AllPlain([a] + rest)
  {
  }

  lemma PlainParts(s: string, i: nat)
    requires '%' !in s && i < |s|
    ensures '%' !in s[..i] && '%' !in s[i + 1..]
  {
  }

  lemma {:induction false} PlainSegments(s: string)
    requires '%' !in s
    ensures AllPlain(Split(s))
    decreases |s|
  {
    var i := IndexSlash(s);
    if i >= 0 {
      var a, rest := s[..i], s[i + 1..];
      PlainParts(s, i);
      PlainSegments(rest);
      ConsPlain(a, Split(rest));
    }
  }

  lemma {:induction false} ArgsAreSegments(shape: seq<Seg>, segs: seq<string>)
    requires |shape| == |segs|
    ensures forall i :: 0 <= i < |Args(shape, segs)| ==> Args(shape, segs)[i] in segs
  {
    if shape != [] {
      ArgsAreSegments(shape[1..], segs[1..]);
      var head := if shape[0].Param? then [segs[0]] else [];
      var tail := Args(shape[1..], segs[1..]);
      forall i | 0 <= i < |head + tail| ensures (head + tail)[i] in segs {
        if i < |head| {
          assert (head + tail)[i] == segs[0];
        } else {
          assert tail[i - |head|] in segs[1..];
        }
      }
    }
  }

  predicate Undecodable(arg: string) { '%' !in arg || Unescape(arg).None? }

  lemma DeferredKeeps(args: seq<string>)
    ensures (forall i :: 0 <= i < |args| ==> UnescapeOr(args[i]) == args[i])
      <==> forall i :: 0 <= i < |args| ==> Undecodable(args[i])
  {
    forall i | 0 <= i < |args| ensures UnescapeOr(args[i]) == args[i] <==> Undecodable(args[i]) {
      if Unescape(args[i]).Some? { UnescapeShortens(args[i]); }
      if '%' !in args[i] { UnescapePlain(args[i]); }
    }
  }

  /** FindPath and ServeHTTP pick the same operation for every URL, and hand over the same
      arguments exactly when the URL's escaped form is absent or well-formed, or no argument holds a
      triplet that `FindPath` could decode: it has no `%`, or a malformed one. */
  lemma TriesAgree(prefix: string, plain: char -> bool, verb: string, u: Url)
    requires !plain('%') && '%' !in prefix
    ensures Found(prefix, plain, verb, u).Some? <==> Served(prefix, plain, verb, u).Dispatch?
    ensures Found(prefix, plain, verb, u).Some? ==>
      var r, out := Found(prefix, plain, verb, u).value, Served(prefix, plain, verb, u);
      && r.op == out.op && r.pattern == PatternOf(out.op) && |r.args| == |out.args|
      && ((forall i :: 0 <= i < |out.args| ==> Handed(out.args[i], out.escaped) == Some(r.args[i]))
          <==> (u.rawPath == "" || Normalize(plain, u.rawPath).Some?
                || forall i :: 0 <= i < |out.args| ==> Undecodable(out.args[i])))
  {
    var (elem, escaped) := Element(plain, u);
    var cut := CutPrefix(prefix, elem);
    if cut.Some? {
      var path := cut.value;
      EscapedTravels(path, verb);
      if FlatAnswer(path, verb, escaped).Dispatch? {
        DispatchedMatch(path, verb, escaped);
        var out := FlatAnswer(path, verb, escaped);
        DeferredKeeps(out.args);
        if u.rawPath != "" && Normalize(plain, u.rawPath).Some? {
          ArgsDecode(prefix, plain, verb, u);
        }
      }
    }
  }

  lemma ArgsDecode(prefix: string, plain: char -> bool, verb: string, u: Url)
    requires !plain('%') && '%' !in prefix && u.rawPath != "" && Normalize(plain, u.rawPath).Some?
    requires Served(prefix, plain, verb, u).Dispatch?
    ensures var out := Served(prefix, plain, verb, u);
      forall i :: 0 <= i < |out.args| ==> Handed(out.args[i], out.escaped) == Some(UnescapeOr(out.args[i]))
  {
    var (elem, escaped) := Element(plain, u);
    NormalizeMeaning(plain, u.rawPath);
    var path := CutPrefix(prefix, elem).value;
    assert elem == prefix + path;
    LiteralPrefix(plain, prefix, path);
    SegmentsDecode(path);
    DispatchedMatch(path, verb, escaped);
    var out := FlatAnswer(path, verb, escaped);
    ArgsAreSegments(Shape(PatternOf(out.op)), Split(path)[2..]);
    if !escaped { PlainSegments(path); }
    forall i | 0 <= i < |out.args| ensures Handed(out.args[i], escaped) == Some(UnescapeOr(out.args[i])) {
      assert out.args[i] in Split(path)[2..];
      var k :| 0 <= k < |Split(path)| && Split(path)[k] == out.args[i];
      if !escaped { UnescapePlain(out.args[i]); }
    }
  }

  lemma GetOneProject(x: string, escaped: bool)
    requires NoSlash(x)
    ensures FlatAnswer("/v1alpha1/" + ("projects" + ("/" + x)), "GET", escaped) == Dispatch(GetProject, [x], escaped)
  {
    var rest := "projects" + ("/" + x);
    assert ("/v1alpha1/" + rest)[10..] == rest && ("/v1alpha1/" + rest)[..10] == "/v1alpha1/";
    GetOneTail(x, rest, escaped);
  }

  lemma GetOneTail(x: string, rest: string, escaped: bool)
    requires NoSlash(x) && rest == "projects" + ("/" + x)
    ensures TailAnswer(rest, "GET", escaped) == Dispatch(GetProject, [x], escaped)
  {
    assert rest[0] == 'p';
    assert rest[8..] == "/" + x && rest[..8] == "projects" && rest[8..][1..] == x;
    TwoVerbs(ProjectPath, "GET", GetProject, "PUT", UpdateProject, [x], "GET", escaped);
  }

  /** A URL on which the two tries part: its escaped form is malformed, so the router walks the
      decoded path, and FindPath decodes the argument a second time. */
  lemma TriesPart(plain: char -> bool)
    ensures var u := Url("/v1alpha1/" + ("projects" + ("/" + "%61")), "%");
      && Served("", plain, "GET", u) == Dispatch(GetProject, ["%61"], false)
      && Found("", plain, "GET", u) == Some(Route(GetProject, ProjectPath, ["a"]))
  {
    GetOneProject("%61", false);
    assert Normalize(plain, "%") == None;
    TripletDecodes();
    assert UnescapeAll(["%61"]) == ["a"];
  }

  lemma TripletDecodes()
    ensures Unescape("%61") == Some("a")
  {
    assert StartsTriplet("%61") && TripletByte("%61") == 'a' && "%61"[3..] == "";
    assert Unescape("") == Some("") && ['a'] + "" == "a";
  }

  // ---------- The Allow header ----------

  lemma SamePattern(path: string, verb: string, p: Pattern, escaped: bool)
    requires Matches(p, path)
    ensures FlatAnswer(path, verb, escaped) == Serve(p, ArgsOf(p, path), verb, escaped)
  {
    FlatAnswerIsFlat(path, verb, escaped);
    FlatUnique(path, verb, escaped, FlatAnswer(path, verb, escaped), Serve(p, ArgsOf(p, path), verb, escaped));
  }

  lemma NamesAreFound(p: Pattern, v: string)
    ensures v in Names(Methods(p)) <==> Find(Methods(p), v).Some?
  {
    FindIn(Methods(p), v);
    var names := Names(Methods(p));
    if v in names {
      var i :| 0 <= i < |names| && names[i] == v;
      assert Methods(p)[i].0 == v;
    }
  }

  /** A method-not-allowed answer lists exactly the methods with which FindPath would succeed on
      the same URL, and never the one that was refused. */
  lemma AllowIsExact(prefix: string, plain: char -> bool, verb: string, u: Url) returns (names: seq<string>)
    requires Served(prefix, plain, verb, u).NotAllowed?
    ensures Served(prefix, plain, verb, u).allow == CommaJoin(names)
    ensures names != [] && verb !in names
    ensures forall v :: v in names <==> Found(prefix, plain, v, u).Some?
  {
    var (elem, escaped) := Element(plain, u);
    var path := CutPrefix(prefix, elem).value;
    var p := PatternRefusing(path, verb, escaped);
    names := Names(Methods(p));
    NamesAreFound(p, verb);
    SomeMethod(p);
    forall v ensures v in names <==> Found(prefix, plain, v, u).Some? { FoundIffNamed(prefix, plain, v, u, p, path); }
  }

  lemma SomeMethod(p: Pattern)
    ensures Methods(p) != []
  {
  }

  lemma FoundIffNamed(prefix: string, plain: char -> bool, v: string, u: Url, p: Pattern, path: string)
    requires CutPrefix(prefix, Element(plain, u).0) == Some(path) && Matches(p, path)
    ensures v in Names(Methods(p)) <==> Found(prefix, plain, v, u).Some?
  {
    NamesAreFound(p, v);
    SamePattern(path, v, p, false);
  }

  lemma PatternRefusing(path: string, verb: string, escaped: bool) returns (p: Pattern)
    requires FlatAnswer(path, verb, escaped).NotAllowed?
    ensures Matches(p, path) && Find(Methods(p), verb) == None
    ensures FlatAnswer(path, verb, escaped).allow == Allow(Methods(p))
  {
    FlatAnswerIsFlat(path, verb, escaped);
    p :| Matches(p, path) && FlatAnswer(path, verb, escaped) == Serve(p, ArgsOf(p, path), verb, escaped);
  }
}
