/** Paths as slash-separated segments, and percent-encoding (section 2.1 of RFC 3986).

    A Go string is a byte sequence; here it is a `string` whose characters are all below 256.
    `url.PathUnescape`, the path encoder and `uri.NormalizeEscapedPath` belong to libraries that are
    not part of this model. Each is given its RFC 3986 meaning, with the choice of characters it
    leaves alone as a parameter, so that what is proved holds for every such choice.
 */
module PathText {
  import opened Wrappers

  // ---------- Segments ----------

  predicate NoSlash(s: string) { '/' !in s }

  /** `strings.IndexByte(s, '/')`. */
  function IndexSlash(s: string): (i: int)
    ensures -1 <= i < |s|
    ensures i < 0 <==> NoSlash(s)
    ensures i >= 0 ==> s[i] == '/' && NoSlash(s[..i])
  {
    if s == "" then -1
    else if s[0] == '/' then 0
    else
      var j := IndexSlash(s[1..]);
      assert j >= 0 ==> s[..j + 1] == [s[0]] + s[1..][..j];
      if j < 0 then -1 else j + 1
  }

  predicate AllNoSlash(segs: seq<string>) { forall i :: 0 <= i < |segs| ==> NoSlash(segs[i]) }

  lemma ConsNoSlash(a: string, rest: seq<string>)
    requires NoSlash(a) && AllNoSlash(rest)
    ensures AllNoSlash([a] + rest)
  {
  }

  /** The slash-free pieces of a path, in order; always at least one. */
  function Split(s: string): (segs: seq<string>)
    ensures |segs| >= 1 && AllNoSlash(segs)
    decreases |s|
  {
    var i := IndexSlash(s);
    if i < 0 then [s]
    else
      var rest := Split(s[i + 1..]);
      ConsNoSlash(s[..i], rest);
      [s[..i]] + rest
  }

  function Join(segs: seq<string>): string
    requires |segs| >= 1
  {
    if |segs| == 1 then segs[0] else segs[0] + "/" + Join(segs[1..])
  }

  lemma SplitCons(a: string, b: string)
    requires NoSlash(a)
    ensures Split(a + "/" + b) == [a] + Split(b)
  {
    var s := a + "/" + b;
    FirstSlash(a, b);
    assert s[..|a|] == a && s[|a| + 1..] == b;
  }

  lemma {:induction false} FirstSlash(a: string, b: string)
    requires NoSlash(a)
    ensures IndexSlash(a + "/" + b) == |a|
  {
    var s := a + "/" + b;
    if a != "" {
      assert a[0] in a;
      FirstSlash(a[1..], b);
      assert s[1..] == a[1..] + "/" + b;
    }
  }

  lemma JoinCons(a: string, rest: seq<string>)
    requires |rest| >= 1
    ensures Join([a] + rest) == a + "/" + Join(rest)
  {
    assert ([a] + rest)[1..] == rest;
  }

  lemma CutAt(s: string, i: nat)
    requires i < |s| && s[i] == '/'
    ensures s[..i] + "/" + s[i + 1..] == s
  {
  }

  lemma {:induction false} JoinSplit(s: string)
    ensures Join(Split(s)) == s
    decreases |s|
  {
    var i := IndexSlash(s);
    if i >= 0 {
      var rest := s[i + 1..];
      JoinSplit(rest);
      JoinCons(s[..i], Split(rest));
      CutAt(s, i);
    }
  }

  lemma HeadTail(segs: seq<string>)
    requires |segs| >= 1
    ensures segs == [segs[0]] + segs[1..]
  {
  }

  lemma {:induction false} SplitJoin(segs: seq<string>)
    requires |segs| >= 1 && AllNoSlash(segs)
    ensures Split(Join(segs)) == segs
  {
    var a, rest := segs[0], segs[1..];
    assert NoSlash(a);
    HeadTail(segs);
    if |rest| > 0 {
      TailNoSlash(segs);
      SplitJoin(rest);
      SplitCons(a, Join(rest));
    }
  }

  lemma TailNoSlash(segs: seq<string>)
    requires |segs| >= 1 && AllNoSlash(segs)
    ensures AllNoSlash(segs[1..])
  {
  }

  lemma ConcatNoSlash(a: seq<string>, b: seq<string>)
    requires AllNoSlash(a) && AllNoSlash(b)
    ensures AllNoSlash(a + b)
  {
  }

  // ---------- Percent-encoding ----------

  /** Every character of a Go string is a byte. */
  predicate IsBytes(s: string) { forall i :: 0 <= i < |s| ==> s[i] as int < 256 }

  predicate IsHex(c: char) { '0' <= c <= '9' || 'A' <= c <= 'F' || 'a' <= c <= 'f' }

  function HexValue(c: char): (n: nat)
    requires IsHex(c)
    ensures n < 16
  {
    if c <= '9' then c as int - '0' as int
    else if c <= 'F' then c as int - 'A' as int + 10
    else c as int - 'a' as int + 10
  }

  lemma HexTable(c: char, n: nat)
    ensures IsHex(c) <==> c in "0123456789ABCDEFabcdef"
    ensures n < 16 ==> HexValue("0123456789ABCDEF"[n]) == n && HexValue("0123456789abcdef"[n]) == n
    ensures n < 16 ==> HexDigit(n) == "0123456789ABCDEF"[n]
  {
  }

  function HexDigit(n: nat): (c: char)
    requires n < 16
    ensures IsHex(c) && HexValue(c) == n && c != '/' && c != '%'
  {
    if n < 10 then ('0' as int + n) as char else ('A' as int + n - 10) as char
  }

  /** The string starts with a `%` followed by two hexadecimal digits. */
  predicate StartsTriplet(s: string) { |s| >= 3 && s[0] == '%' && IsHex(s[1]) && IsHex(s[2]) }

  function TripletByte(s: string): (c: char)
    requires StartsTriplet(s)
    ensures c as int < 256
  {
    (HexValue(s[1]) * 16 + HexValue(s[2])) as char
  }

  /** The triplet of a byte (of the low byte, for a character that is none). */
  function Triplet(c: char): (t: string)
    ensures |t| == 3 && StartsTriplet(t) && NoSlash(t)
    ensures c as int < 256 ==> TripletByte(t) == c
  {
    var n := c as int % 256;
    TwoDigits(n);
    ['%', HexDigit(n / 16), HexDigit(n % 16)]
  }

  lemma TwoDigits(n: nat)
    requires n < 256
    ensures n / 16 < 16 && n / 16 * 16 + n % 16 == n
  {
  }

  function Prepend(a: string, r: Option<string>): Option<string> {
    match r case None => None case Some(t) => Some(a + t)
  }

  lemma PrependTwice(a: string, b: string, r: Option<string>)
    ensures Prepend(a, Prepend(b, r)) == Prepend(a + b, r)
  {
    if r.Some? { assert a + (b + r.value) == (a + b) + r.value; }
  }

  lemma PrependNothing(r: Option<string>)
    ensures Prepend("", r) == r
  {
    if r.Some? { assert "" + r.value == r.value; }
  }

  /** `url.PathUnescape`: every triplet becomes its byte; a `%` that starts no triplet is an error. */
  function Unescape(s: string): Option<string>
    decreases |s|
  {
    if s == "" then Some("")
    else if s[0] == '%' then
      if StartsTriplet(s) then Prepend([TripletByte(s)], Unescape(s[3..])) else None
    else
      Prepend([s[0]], Unescape(s[1..]))
  }

  /** An encoder that leaves the characters in `keep` alone and writes the rest as triplets. */
  function Escape(keep: char -> bool, s: string): string {
    if s == "" then ""
    else (if keep(s[0]) then [s[0]] else Triplet(s[0])) + Escape(keep, s[1..])
  }

  /** `uri.NormalizeEscapedPath`: triplets of the bytes in `plain` are decoded, the others get
      upper-case digits; a malformed triplet makes the call fail. */
  function Normalize(plain: char -> bool, s: string): Option<string>
    decreases |s|
  {
    if s == "" then Some("")
    else if s[0] == '%' then
      if StartsTriplet(s) then
        Prepend(if plain(TripletByte(s)) then [TripletByte(s)] else Triplet(TripletByte(s)), Normalize(plain, s[3..]))
      else None
    else
      Prepend([s[0]], Normalize(plain, s[1..]))
  }

  /** Leading plain text passes through both decoders unchanged. */
  lemma {:induction false} LiteralPrefix(plain: char -> bool, lit: string, s: string)
    requires '%' !in lit
    ensures Unescape(lit + s) == Prepend(lit, Unescape(s))
    ensures Normalize(plain, lit + s) == Prepend(lit, Normalize(plain, s))
  {
    if lit == "" {
      assert lit + s == s;
      PrependNothing(Unescape(s));
      PrependNothing(Normalize(plain, s));
    } else {
      LiteralPrefix(plain, lit[1..], s);
      assert (lit + s)[1..] == lit[1..] + s;
      assert [lit[0]] + lit[1..] == lit;
      PrependTwice([lit[0]], lit[1..], Unescape(s));
      PrependTwice([lit[0]], lit[1..], Normalize(plain, s));
    }
  }

  lemma LiteralOnly(plain: char -> bool, lit: string)
    requires '%' !in lit
    ensures Unescape(lit) == Some(lit) && Normalize(plain, lit) == Some(lit)
  {
    LiteralPrefix(plain, lit, "");
    assert lit + "" == lit;
  }

  /** The two characters after a `%` in front are not moved by what follows. */
  lemma TripletStays(a: string, b: string)
    requires StartsTriplet(a)
    ensures StartsTriplet(a + b) && TripletByte(a + b) == TripletByte(a)
  {
    assert (a + b)[0] == a[0] && (a + b)[1] == a[1] && (a + b)[2] == a[2];
  }

  /** Decoding piecewise: a piece that decodes on its own decodes to the same bytes as a prefix. */
  lemma {:induction false} UnescapeConcat(a: string, b: string)
    requires Unescape(a).Some?
    ensures Unescape(a + b) == Prepend(Unescape(a).value, Unescape(b))
    decreases |a|
  {
    if a == "" {
      assert a + b == b;
      PrependNothing(Unescape(b));
    } else {
      var k := if a[0] == '%' then 3 else 1;
      UnescapeConcat(a[k..], b);
      assert (a + b)[k..] == a[k..] + b;
      if a[0] == '%' { TripletStays(a, b); }
      PrependTwice(if a[0] == '%' then [TripletByte(a)] else [a[0]], Unescape(a[k..]).value, Unescape(b));
    }
  }

  lemma {:induction false} NormalizeConcat(plain: char -> bool, a: string, b: string)
    requires Normalize(plain, a).Some?
    ensures Normalize(plain, a + b) == Prepend(Normalize(plain, a).value, Normalize(plain, b))
    decreases |a|
  {
    if a == "" {
      assert a + b == b;
      PrependNothing(Normalize(plain, b));
    } else {
      var k := if a[0] == '%' then 3 else 1;
      NormalizeConcat(plain, a[k..], b);
      assert (a + b)[k..] == a[k..] + b;
      if a[0] == '%' { TripletStays(a, b); }
      var head := if a[0] != '%' then [a[0]] else if plain(TripletByte(a)) then [TripletByte(a)]
      else Triplet(TripletByte(a));
      PrependTwice(head, Normalize(plain, a[k..]).value, Normalize(plain, b));
    }
  }

  /** A slash cannot stand inside a triplet, so a decodable path decodes segment by segment. */
  lemma {:induction false} UnescapeAtSlash(a: string, b: string)
    requires Unescape(a + "/" + b).Some?
    ensures Unescape(a).Some? && Unescape(b).Some?
    ensures Unescape(a + "/" + b).value == Unescape(a).value + "/" + Unescape(b).value
    decreases |a|
  {
    var s := a + "/" + b;
    if a == "" {
      assert s == "/" + b && s[1..] == b;
      assert "" + "/" == "/";
    } else if a[0] == '%' {
      assert s[1] == (if |a| > 1 then a[1] else '/');
      assert |a| > 1 ==> s[2] == (if |a| > 2 then a[2] else '/');
      assert |a| >= 3;
      assert s[3..] == a[3..] + "/" + b;
      UnescapeAtSlash(a[3..], b);
    } else {
      assert s[1..] == a[1..] + "/" + b;
      UnescapeAtSlash(a[1..], b);
    }
  }

  /** Normalising changes the spelling of a path and never its meaning, as long as `%` itself is
      not decoded; and it never invents a slash, as long as `/` is not decoded. */
  lemma {:induction false} NormalizeMeaning(plain: char -> bool, s: string)
    requires !plain('%')
    ensures Normalize(plain, s).Some? <==> Unescape(s).Some?
    ensures Normalize(plain, s).Some? ==> Unescape(Normalize(plain, s).value) == Unescape(s)
    ensures Normalize(plain, s).Some? && !plain('/') && NoSlash(s) ==> NoSlash(Normalize(plain, s).value)
    decreases |s|
  {
    if s != "" && (s[0] != '%' || StartsTriplet(s)) {
      var k := if s[0] == '%' then 3 else 1;
      NormalizeMeaning(plain, s[k..]);
      if Normalize(plain, s[k..]).Some? {
        var t := Normalize(plain, s[k..]).value;
        if s[0] == '%' {
          var c := TripletByte(s);
          var head := if plain(c) then [c] else Triplet(c);
          assert (head + t)[|head|..] == t;
        } else {
          assert ([s[0]] + t)[1..] == t;
        }
      }
    }
  }

  /** With no `%` left there is nothing to decode. */
  lemma {:induction false} UnescapePlain(s: string)
    requires '%' !in s
    ensures Unescape(s) == Some(s)
  {
    LiteralOnly(c => false, s);
  }

  /** Decoding never lengthens, and keeps the length only when there is nothing to decode. */
  lemma {:induction false} UnescapeShortens(s: string)
    requires Unescape(s).Some?
    ensures |Unescape(s).value| <= |s| && (|Unescape(s).value| == |s| ==> '%' !in s)
    decreases |s|
  {
    if s != "" {
      if s[0] == '%' { UnescapeShortens(s[3..]); } else { UnescapeShortens(s[1..]); }
    }
  }

  lemma {:induction false} UnescapeEscape(keep: char -> bool, s: string)
    requires IsBytes(s) && !keep('%')
    ensures Unescape(Escape(keep, s)) == Some(s)
  {
    if s != "" {
      UnescapeEscape(keep, s[1..]);
      var head := if keep(s[0]) then [s[0]] else Triplet(s[0]);
      var e := head + Escape(keep, s[1..]);
      assert e[|head|..] == Escape(keep, s[1..]);
      assert !keep(s[0]) ==> e[0] == head[0] && e[1] == head[1] && e[2] == head[2];
      assert [s[0]] + s[1..] == s;
    }
  }

  /** The normal form of a text does not depend on how it was escaped: it is the text with exactly the
      bytes outside `plain` as triplets. */
  lemma {:induction false} NormalForm(plain: char -> bool, keep: char -> bool, s: string)
    requires IsBytes(s) && !keep('%') && forall c :: keep(c) ==> plain(c)
    ensures Normalize(plain, Escape(keep, s)) == Some(Escape(plain, s))
  {
    if s != "" {
      var head, rest := if keep(s[0]) then [s[0]] else Triplet(s[0]), Escape(keep, s[1..]);
      NormalForm(plain, keep, s[1..]);
      assert (head + rest)[|head|..] == rest;
      if !keep(s[0]) { TripletStays(head, rest); }
    }
  }

  // ---------- Counting slashes ----------

  function Slashes(s: string): (n: nat)
    ensures n == 0 <==> NoSlash(s)
  {
    if s == "" then 0 else (if s[0] == '/' then 1 else 0) + Slashes(s[1..])
  }

  lemma {:induction false} SlashesConcat(a: string, b: string)
    ensures Slashes(a + b) == Slashes(a) + Slashes(b)
  {
    if a == "" {
      assert a + b == b;
    } else {
      SlashesConcat(a[1..], b);
      assert (a + b)[1..] == a[1..] + b;
    }
  }

  /** An encoder that keeps the slash keeps their number; one that does not leaves none. */
  lemma {:induction false} SlashesEscape(keep: char -> bool, s: string)
    ensures Slashes(Escape(keep, s)) == if keep('/') then Slashes(s) else 0
  {
    if s != "" {
      SlashesEscape(keep, s[1..]);
      var head := if keep(s[0]) then [s[0]] else Triplet(s[0]);
      SlashesConcat(head, Escape(keep, s[1..]));
      assert keep(s[0]) ==> Slashes(head) == (if s[0] == '/' then 1 else 0);
    }
  }
}
