/** The environment override of a configuration struct: a depth-first walk over the fields that sets
    them in place. The struct is a flat array of its leaf fields in depth-first order; the shape says
    how they nest. */
module EnvConfig {
  import opened Wrappers
  import opened Numbers

  /** The kinds of field the walk tells apart. */
  datatype Kind = DurationKind | StringKind | IntKind(bits: nat) | BoolKind | OtherKind

  /** A field, with its `env` tag and whether reflection may set it. */
  datatype Field =
    | Leaf(name: string, tag: string, settable: bool, kind: Kind)
    | Nested(name: string, tag: string, settable: bool, fields: seq<Field>)

  datatype Value = Text(s: string) | Number(n: int) | Truth(b: bool) | Opaque(n: int)

  type Env = string -> string  // the empty string for a variable that is not set
  type Durations = string -> Option<int>  // time.ParseDuration

  datatype LoadError = BadDuration(field: string) | BadInt(field: string) | BadBool(field: string) | NotAStruct

  // ---------- Parsing ----------

  function Digits(s: string): (n: int)
    requires AllDigits(s)
    ensures n >= 0
  {
    if s == "" then 0
    else
      assert IsDigit(s[|s| - 1]);
      Digits(s[..|s| - 1]) * 10 + (s[|s| - 1] as int - '0' as int)
  }

  function Power(n: nat): (p: int)
    ensures p >= 1
  {
    if n == 0 then 1 else 2 * Power(n - 1)
  }

  /** `strconv.ParseInt` in base 10: an optional sign, at least one digit, and a result that fits. */
  function ParseInt(s: string, bits: nat): Option<int> {
    var signed := s != "" && (s[0] == '+' || s[0] == '-');
    var digits := if signed then s[1..] else s;
    if digits == "" || !AllDigits(digits) then None
    else
      var n: int := if signed && s[0] == '-' then -Digits(digits) else Digits(digits);
      var limit := if bits == 0 then 1 else Power(bits - 1);
      if -limit <= n < limit then Some(n) else None
  }

  /** `strconv.ParseBool` */
  function ParseBool(s: string): Option<bool> {
    if s in ["1", "t", "T", "true", "TRUE", "True"] then Some(true)
    else if s in ["0", "f", "F", "false", "FALSE", "False"] then Some(false)
    else None
  }

  // ---------- What happens to each leaf ----------

  datatype Action = Keep | Put(value: Value) | Fail(error: LoadError)

  /** A leaf is touched when it has a tag, the variable is not empty, and it can be set. */
  function ActionOf(env: Env, dur: Durations, name: string, tag: string, settable: bool, kind: Kind): Action {
    if tag == "" || env(tag) == "" || !settable then Keep
    else
      match kind
      case DurationKind => (match dur(env(tag)) case None => Fail(BadDuration(name)) case Some(d) => Put(Number(d)))
      case StringKind => Put(Text(env(tag)))
      case IntKind(bits) =>
        (match ParseInt(env(tag), bits) case None => Fail(BadInt(name)) case Some(n) => Put(Number(n)))
      case BoolKind => (match ParseBool(env(tag)) case None => Fail(BadBool(name)) case Some(b) => Put(Truth(b)))
      case OtherKind => Keep
  }

  function Leaves(fields: seq<Field>): nat
    decreases fields
  {
    if fields == [] then 0 else LeavesOf(fields[0]) + Leaves(fields[1..])
  }

  function LeavesOf(f: Field): nat
    decreases f
  {
    match f case Leaf(_, _, _, _) => 1 case Nested(_, _, _, fs) => Leaves(fs)
  }

  function Keeps(n: nat): (acts: seq<Action>)
    ensures |acts| == n && forall i :: 0 <= i < n ==> acts[i] == Keep
  {
    seq(n, i => Keep)
  }

  /** One action for each leaf, in depth-first order. A nested struct is passed over as a whole when
      it has a tag, the variable is set, and it cannot be set. */
  function Actions(env: Env, dur: Durations, fields: seq<Field>): (acts: seq<Action>)
    ensures |acts| == Leaves(fields)
    decreases fields
  {
    if fields == [] then [] else ActionsOf(env, dur, fields[0]) + Actions(env, dur, fields[1..])
  }

  function ActionsOf(env: Env, dur: Durations, f: Field): (acts: seq<Action>)
    ensures |acts| == LeavesOf(f)
    decreases f
  {
    match f
    case Leaf(name, tag, settable, kind) => [ActionOf(env, dur, name, tag, settable, kind)]
    case Nested(_, tag, settable, fs) =>
      if tag != "" && env(tag) != "" && !settable then Keeps(Leaves(fs)) else Actions(env, dur, fs)
  }

  /** How many leaves come before the first one that fails. */
  function FirstFail(acts: seq<Action>): (n: nat)
    ensures n <= |acts| && (forall i :: 0 <= i < n ==> !acts[i].Fail?) && (n < |acts| ==> acts[n].Fail?)
  {
    if acts == [] || acts[0].Fail? then 0 else 1 + FirstFail(acts[1..])
  }

  function ErrorOf(acts: seq<Action>): Option<LoadError> {
    if FirstFail(acts) < |acts| then Some(acts[FirstFail(acts)].error) else None
  }

  /** The leafwise map: each leaf before the first failure takes its value or stays. */
  function Applied(acts: seq<Action>, m: seq<Value>): (m': seq<Value>)
    requires |acts| == |m|
    ensures |m'| == |m|
  {
    seq(|m|, k requires 0 <= k < |m| => if k < FirstFail(acts) && acts[k].Put? then acts[k].value else m[k])
  }

  // ---------- The walk ----------

  lemma LeavesSplit(fields: seq<Field>, i: nat)
    requires i < |fields|
    ensures Leaves(fields[i..]) == LeavesOf(fields[i]) + Leaves(fields[i + 1..])
  {
    assert fields[i..][1..] == fields[i + 1..];
  }

  lemma ActionsSplit(env: Env, dur: Durations, fields: seq<Field>, i: nat)
    requires i < |fields|
    ensures Actions(env, dur, fields[i..]) == ActionsOf(env, dur, fields[i]) + Actions(env, dur, fields[i + 1..])
  {
    assert fields[i..][1..] == fields[i + 1..];
  }

  lemma FrontAction(a: seq<Action>, b: seq<Action>)
    requires a != []
    ensures (a + b)[0] == a[0] && (a + b)[1..] == a[1..] + b
  {
  }

  lemma {:induction false} FailLaterAt(a: seq<Action>, b: seq<Action>)
    requires FirstFail(a) == |a|
    ensures FirstFail(a + b) == |a| + FirstFail(b)
  {
    if a == [] {
      assert a + b == b;
    } else {
      FrontAction(a, b);
      FailLaterAt(a[1..], b);
    }
  }

  /** After leaves that did not fail, the first failure is that of the rest. */
  lemma FailLater(a: seq<Action>, b: seq<Action>)
    requires FirstFail(a) == |a|
    ensures FirstFail(a + b) == |a| + FirstFail(b)
    ensures ErrorOf(a + b) == ErrorOf(b)
  {
    FailLaterAt(a, b);
    if FirstFail(b) < |b| { assert (a + b)[|a| + FirstFail(b)] == b[FirstFail(b)]; }
  }

  lemma {:induction false} FailHereAt(a: seq<Action>, b: seq<Action>)
    requires FirstFail(a) < |a|
    ensures FirstFail(a + b) == FirstFail(a)
  {
    FrontAction(a, b);
    if !a[0].Fail? { FailHereAt(a[1..], b); }
  }

  /** A failure hides what comes after it. */
  lemma FailHere(a: seq<Action>, b: seq<Action>)
    requires FirstFail(a) < |a|
    ensures FirstFail(a + b) == FirstFail(a) && ErrorOf(a + b) == ErrorOf(a)
  {
    FailHereAt(a, b);
    assert (a + b)[FirstFail(a)] == a[FirstFail(a)];
  }

  /** A cell after the actions on the leaves from `base` on. */
  function CellAfter(acts: seq<Action>, base: int, k: int, before: Value): Value {
    if base <= k < base + FirstFail(acts) && acts[k - base].Put? then acts[k - base].value else before
  }

  predicate After(acts: seq<Action>, base: int, before: seq<Value>, after: seq<Value>) {
    |before| == |after| && forall k :: 0 <= k < |after| ==> after[k] == CellAfter(acts, base, k, before[k])
  }

  /** One field after others that did not fail. */
  lemma AfterThen(done: seq<Action>, now: seq<Action>, base: int, m0: seq<Value>, m1: seq<Value>, m2: seq<Value>)
    requires FirstFail(done) == |done| && After(done, base, m0, m1) && After(now, base + |done|, m1, m2)
    ensures After(done + now, base, m0, m2)
  {
    FailLater(done, now);
    forall k | 0 <= k < |m2| ensures m2[k] == CellAfter(done + now, base, k, m0[k]) {
      CellThen(done, now, done + now, base, k, m0[k], m1[k]);
    }
  }

  lemma CellThen(done: seq<Action>, now: seq<Action>, both: seq<Action>, base: int, k: int, c0: Value, c1: Value)
    requires both == done + now && FirstFail(done) == |done| && FirstFail(both) == |done| + FirstFail(now)
    requires c1 == CellAfter(done, base, k, c0)
    ensures CellAfter(now, base + |done|, k, c1) == CellAfter(both, base, k, c0)
  {
    if base <= k < base + |done| { assert both[k - base] == done[k - base]; }
  }

  /** What follows a failure does not matter. */
  lemma AfterFail(acts: seq<Action>, rest: seq<Action>, base: int, m0: seq<Value>, m1: seq<Value>)
    requires FirstFail(acts) < |acts| && After(acts, base, m0, m1)
    ensures After(acts + rest, base, m0, m1)
  {
    FailHere(acts, rest);
    forall k | 0 <= k < |m1| ensures m1[k] == CellAfter(acts + rest, base, k, m0[k]) {
      assert m1[k] == CellAfter(acts, base, k, m0[k]);
    }
  }

  lemma KeepsNeverFail(n: nat)
    ensures FirstFail(Keeps(n)) == n
  {
  }

  /** `loadFromEnvRecursive`, on the fields whose leaves start at `base`. */
  method LoadRecursive(env: Env, dur: Durations, fields: seq<Field>, base: nat, mem: array<Value>)
    returns (e: Option<LoadError>)
    requires base + Leaves(fields) <= mem.Length
    modifies mem
    ensures e == ErrorOf(Actions(env, dur, fields))
    ensures After(Actions(env, dur, fields), base, old(mem[..]), mem[..])
    decreases fields
  {
    var at := base;
    ghost var done, m0 := [], mem[..];
    ghost var all := Actions(env, dur, fields);
    assert fields[0..] == fields;
    for i := 0 to |fields|
      invariant at == base + |done| && at + Leaves(fields[i..]) <= mem.Length
      invariant all == done + Actions(env, dur, fields[i..]) && FirstFail(done) == |done|
      invariant After(done, base, m0, mem[..])
    {
      LeavesSplit(fields, i);
      ActionsSplit(env, dur, fields, i);
      ghost var now, rest, m1 := ActionsOf(env, dur, fields[i]), Actions(env, dur, fields[i + 1..]), mem[..];
      e := LoadField(env, dur, fields[i], at, mem);
      AfterThen(done, now, base, m0, m1, mem[..]);
      Assoc(done, now, rest);
      FailLater(done, now);
      if e.Some? {
        SameError(done, now, rest, now + rest);
        AfterFail(done + now, rest, base, m0, mem[..]);
        return;
      }
      done := done + now;
      at := at + LeavesOf(fields[i]);
    }
    assert done + [] == done;
    e := None;
  }

  lemma Assoc(a: seq<Action>, b: seq<Action>, c: seq<Action>)
    ensures (a + b) + c == a + (b + c)
  {
  }

  lemma SameError(done: seq<Action>, now: seq<Action>, rest: seq<Action>, both: seq<Action>)
    requires FirstFail(done) == |done| && FirstFail(now) < |now| && both == now + rest
    ensures ErrorOf(done + both) == ErrorOf(now)
  {
    FailLater(done, both);
    FailHere(now, rest);
  }

  /** The body of the loop. */
  method LoadField(env: Env, dur: Durations, f: Field, at: nat, mem: array<Value>) returns (e: Option<LoadError>)
    requires at + LeavesOf(f) <= mem.Length
    modifies mem
    ensures e == ErrorOf(ActionsOf(env, dur, f))
    ensures After(ActionsOf(env, dur, f), at, old(mem[..]), mem[..])
    decreases f
  {
    e := None;
    if f.tag != "" {
      var envValue := env(f.tag);
      if envValue != "" {
        if !f.settable {
          if f.Nested? { KeepsNeverFail(Leaves(f.fields)); }
          return;
        }
        if f.Leaf? {
          e := SetLeaf(dur, f.name, f.kind, envValue, at, mem);
          return;
        }
      }
    }
    if f.Nested? {
      e := LoadRecursive(env, dur, f.fields, at, mem);
    }
  }

  method SetLeaf(dur: Durations, name: string, kind: Kind, envValue: string, at: nat, mem: array<Value>)
    returns (e: Option<LoadError>)
    requires at < mem.Length && envValue != ""
    modifies mem
    ensures var a := ActionOf(t => envValue, dur, name, "t", true, kind);
      (e == if a.Fail? then Some(a.error) else None)
      && mem[..] == if a.Put? then old(mem[..])[at := a.value] else old(mem[..])
  {
    e := None;
    match kind
    case DurationKind =>
      var duration := dur(envValue);
      if duration.None? {
        return Some(BadDuration(name));
      }
      mem[at] := Number(duration.value);
    case StringKind => mem[at] := Text(envValue);
    case IntKind(bits) =>
      var intVal := ParseInt(envValue, bits);
      if intVal.None? {
        return Some(BadInt(name));
      }
      mem[at] := Number(intVal.value);
    case BoolKind =>
      var boolVal := ParseBool(envValue);
      if boolVal.None? {
        return Some(BadBool(name));
      }
      mem[at] := Truth(boolVal.value);
    case OtherKind =>
  }

  // ---------- The two entry points ----------

  /** A Go type, as far as the walk cares. */
  datatype Type = Struct(fields: seq<Field>) | NotStruct

  /** On an error, the leaves before the failing one have already been changed. */
  method OverrideFromEnv(env: Env, dur: Durations, t: Type, mem: array<Value>) returns (e: Option<LoadError>)
    requires t.Struct? ==> mem.Length == Leaves(t.fields)
    modifies mem
    ensures t.NotStruct? ==> e == Some(NotAStruct) && mem[..] == old(mem[..])
    ensures t.Struct? ==>
      e == ErrorOf(Actions(env, dur, t.fields)) && mem[..] == Applied(Actions(env, dur, t.fields), old(mem[..]))
  {
    if t.NotStruct? {
      return Some(NotAStruct);
    }
    e := LoadRecursive(env, dur, t.fields, 0, mem);
    assert mem[..] == Applied(Actions(env, dur, t.fields), old(mem[..]));
  }

  /** A fresh struct; on an error the zero value is returned. */
  method LoadFromEnv(env: Env, dur: Durations, t: Type, zero: seq<Value>)
    returns (cfg: seq<Value>, e: Option<LoadError>)
    requires t.Struct? ==> |zero| == Leaves(t.fields)
    ensures t.NotStruct? ==> e == Some(NotAStruct)
    ensures t.Struct? ==> e == ErrorOf(Actions(env, dur, t.fields))
    ensures cfg == if e.Some? then zero else Applied(Actions(env, dur, t.fields), zero)
  {
    if t.NotStruct? {
      return zero, Some(NotAStruct);
    }
    var mem := new Value[|zero|](i requires 0 <= i < |zero| => zero[i]);
    assert mem[..] == zero;
    e := LoadRecursive(env, dur, t.fields, 0, mem);
    assert mem[..] == Applied(Actions(env, dur, t.fields), zero);
    cfg := if e.Some? then zero else mem[..];
  }

  // ---------- What the walk amounts to ----------

  /** A leaf with its way down: the tags of the enclosing structs that cannot be set. */
  datatype Path = Path(name: string, tag: string, settable: bool, kind: Kind, gates: set<string>)

  /** The leaves of a struct inside `gates`, in depth-first order. */
  function Paths(fields: seq<Field>, gates: set<string>): (ps: seq<Path>)
    ensures |ps| == Leaves(fields)
    decreases fields
  {
    if fields == [] then [] else PathsOf(fields[0], gates) + Paths(fields[1..], gates)
  }

  function PathsOf(f: Field, gates: set<string>): (ps: seq<Path>)
    ensures |ps| == LeavesOf(f)
    decreases f
  {
    match f
    case Leaf(name, tag, settable, kind) => [Path(name, tag, settable, kind, gates)]
    case Nested(_, tag, settable, fs) => Paths(fs, if tag != "" && !settable then gates + {tag} else gates)
  }

  predicate Shut(env: Env, gates: set<string>) { exists tag :: tag in gates && env(tag) != "" }

  /** What happens to one leaf, said of the leaf alone. */
  function Fate(env: Env, dur: Durations, p: Path): Action {
    if Shut(env, p.gates) then Keep else ActionOf(env, dur, p.name, p.tag, p.settable, p.kind)
  }

  /** The walk is leafwise: each leaf's action depends on that leaf and its way down only. It takes a
      value or fails exactly when it has a tag, the variable is not empty, it can be set, its kind is
      supported, and no enclosing struct that cannot be set has its own variable set. */
  lemma {:induction false} ActionsLeafwise(env: Env, dur: Durations, fields: seq<Field>, gates: set<string>, k: nat)
    requires k < Leaves(fields) && !Shut(env, gates)
    ensures Actions(env, dur, fields)[k] == Fate(env, dur, Paths(fields, gates)[k])
    decreases fields
  {
    var n := LeavesOf(fields[0]);
    if k < n {
      FieldLeafwise(env, dur, fields[0], gates, k);
    } else {
      ActionsLeafwise(env, dur, fields[1..], gates, k - n);
    }
  }

  lemma {:induction false} FieldLeafwise(env: Env, dur: Durations, f: Field, gates: set<string>, k: nat)
    requires k < LeavesOf(f) && !Shut(env, gates)
    ensures ActionsOf(env, dur, f)[k] == Fate(env, dur, PathsOf(f, gates)[k])
    decreases f
  {
    if f.Nested? {
      var inner := if f.tag != "" && !f.settable then gates + {f.tag} else gates;
      if Shut(env, inner) { AllShut(env, f.fields, inner, k); } else { ActionsLeafwise(env, dur, f.fields, inner, k); }
    }
  }

  lemma {:induction false} AllShut(env: Env, fields: seq<Field>, gates: set<string>, k: nat)
    requires k < Leaves(fields) && Shut(env, gates)
    ensures Shut(env, Paths(fields, gates)[k].gates)
    decreases fields
  {
    var f, n := fields[0], LeavesOf(fields[0]);
    if k >= n {
      AllShut(env, fields[1..], gates, k - n);
    } else {
      assert Paths(fields, gates)[k] == PathsOf(f, gates)[k];
      if f.Nested? {
        var inner := if f.tag != "" && !f.settable then gates + {f.tag} else gates;
        StillShut(env, gates, inner);
        AllShut(env, f.fields, inner, k);
      }
    }
  }

  lemma StillShut(env: Env, gates: set<string>, inner: set<string>)
    requires Shut(env, gates) && gates <= inner
    ensures Shut(env, inner)
  {
    var tag :| tag in gates && env(tag) != "";
    assert tag in inner;
  }

  /** A variable no reachable leaf names, or one that stays empty, plays no part. */
  lemma {:induction false} UnusedVariables(env: Env, env': Env, dur: Durations, fields: seq<Field>)
    requires forall tag :: tag in Tags(fields) ==> env(tag) == env'(tag)
    ensures Actions(env, dur, fields) == Actions(env', dur, fields)
    decreases fields
  {
    if fields != [] {
      var f := fields[0];
      UnusedVariables(env, env', dur, fields[1..]);
      if f.Nested? {
        assert forall tag :: tag in Tags(f.fields) ==> tag in Tags(fields);
        UnusedVariables(env, env', dur, f.fields);
      }
    }
  }

  /** A second run of the override over the struct the first one left, with every variable a tag names
      as it was, changes nothing more and ends the same way, error or not. */
  lemma SecondRun(env: Env, env': Env, dur: Durations, fields: seq<Field>, m: seq<Value>)
    requires |m| == Leaves(fields) && forall tag :: tag in Tags(fields) ==> env(tag) == env'(tag)
    ensures var first := Applied(Actions(env, dur, fields), m);
      Applied(Actions(env', dur, fields), first) == first
      && ErrorOf(Actions(env', dur, fields)) == ErrorOf(Actions(env, dur, fields))
  {
    UnusedVariables(env, env', dur, fields);
    Settled(Actions(env, dur, fields), m);
  }

  lemma Settled(acts: seq<Action>, m: seq<Value>)
    requires |acts| == |m|
    ensures Applied(acts, Applied(acts, m)) == Applied(acts, m)
  {
    assert forall k :: 0 <= k < |m| ==> Applied(acts, Applied(acts, m))[k] == Applied(acts, m)[k];
  }

  /** The tags that occur, at any depth. */
  function Tags(fields: seq<Field>): set<string>
    decreases fields
  {
    if fields == [] then {}
    else {fields[0].tag} + (if fields[0].Nested? then Tags(fields[0].fields) else {}) + Tags(fields[1..])
  }

  // ---------- The numbers ----------

  lemma {:induction false} DigitsDecimal(n: nat)
    ensures Digits(Decimal(n)) == n
    decreases n
  {
    var s := Decimal(n);
    if n >= 10 {
      DigitsDecimal(n / 10);
      assert s[..|s| - 1] == Decimal(n / 10);
    } else {
      assert s[..0] == "" && |s| == 1;
    }
  }

  function Zeros(k: nat): (s: string)
    ensures |s| == k && AllDigits(s)
  {
    seq(k, _ => '0')
  }

  lemma {:induction false} ZerosAreZero(k: nat)
    ensures Digits(Zeros(k)) == 0
  {
    if k > 0 {
      ZerosAreZero(k - 1);
      assert Zeros(k)[..k - 1] == Zeros(k - 1);
    }
  }

  /** Leading zeros do not change the number. */
  lemma {:induction false} DigitsPadded(k: nat, t: string)
    requires AllDigits(t)
    ensures AllDigits(Zeros(k) + t) && Digits(Zeros(k) + t) == Digits(t)
    decreases |t|
  {
    var s := Zeros(k) + t;
    if t == "" {
      assert s == Zeros(k);
      ZerosAreZero(k);
    } else {
      assert s[..|s| - 1] == Zeros(k) + t[..|t| - 1];
      DigitsPadded(k, t[..|t| - 1]);
    }
  }

  /** Digits are the decimal text of their number behind leading zeros. */
  lemma {:induction false} PaddedDecimal(s: string)
    requires AllDigits(s) && s != ""
    ensures var d := Decimal(Digits(s)); |d| <= |s| && s == Zeros(|s| - |d|) + d
    decreases |s|
  {
    var front, last := s[..|s| - 1], s[|s| - 1];
    assert IsDigit(last) && s == front + [last];
    var v := Digits(front);
    var c := last as int - '0' as int;
    assert Digits(s) == v * 10 + c && (v * 10 + c) % 10 == c && (v * 10 + c) / 10 == v;
    if front == "" {
      assert s == Zeros(0) + [last];
    } else {
      PaddedDecimal(front);
      if v == 0 {
        assert Decimal(0) == Zeros(1);
        assert front == Zeros(|front|);
      } else {
        assert Decimal(v * 10 + c) == Decimal(v) + [last];
      }
    }
  }

  predicate SignFits(sign: string, n: int) {
    ((sign == "" || sign == "+") && n >= 0) || (sign == "-" && n <= 0)
  }

  function Abs(n: int): nat { if n < 0 then -n else n }

  /** A spelling of a number: a sign that fits it or none, leading zeros, and its decimal text. */
  function Spelling(sign: string, zeros: nat, n: int): string { sign + (Zeros(zeros) + Decimal(Abs(n))) }

  ghost predicate Spells(s: string, n: int) {
    exists sign: string, zeros: nat :: SignFits(sign, n) && s == Spelling(sign, zeros, n)
  }

  /** A text is read as a number if and only if it is a spelling of that number and the field's type
      holds it. */
  lemma ParseExact(s: string, n: int, bits: nat)
    requires bits > 0
    ensures ParseInt(s, bits) == Some(n) <==> Spells(s, n) && -Power(bits - 1) <= n < Power(bits - 1)
  {
    if ParseInt(s, bits) == Some(n) {
      ParsedSpells(s, n, bits);
    }
    if Spells(s, n) && -Power(bits - 1) <= n < Power(bits - 1) {
      var sign: string, zeros: nat :| SignFits(sign, n) && s == Spelling(sign, zeros, n);
      SpellingParsed(sign, zeros, n, bits);
    }
  }

  /** What parsing makes of a sign and digits. */
  lemma ParseSigned(sign: string, digits: string, bits: nat)
    requires (sign == "" || sign == "+" || sign == "-") && digits != "" && AllDigits(digits) && bits > 0
    ensures var n := if sign == "-" then -Digits(digits) else Digits(digits);
      ParseInt(sign + digits, bits) == if -Power(bits - 1) <= n < Power(bits - 1) then Some(n) else None
  {
    var s := sign + digits;
    assert IsDigit(digits[0]) && s[|sign|] == digits[0] && s[|sign|..] == digits;
  }

  /** Whatever parses is a sign and digits. */
  lemma ParsedShape(s: string, bits: nat) returns (sign: string, digits: string)
    requires ParseInt(s, bits).Some?
    ensures (sign == "" || sign == "+" || sign == "-") && digits != "" && AllDigits(digits) && s == sign + digits
  {
    sign := if s[0] == '+' || s[0] == '-' then s[..1] else "";
    digits := s[|sign|..];
    assert s[..1] == [s[0]];
  }

  lemma ParsedSpells(s: string, n: int, bits: nat)
    requires bits > 0 && ParseInt(s, bits) == Some(n)
    ensures Spells(s, n)
  {
    var sign, digits := ParsedShape(s, bits);
    ParseSigned(sign, digits, bits);
    PaddedDecimal(digits);
    SpelledOut(sign, digits, n);
  }

  lemma SpelledOut(sign: string, digits: string, n: int)
    requires AllDigits(digits) && SignFits(sign, n) && Digits(digits) == Abs(n)
    requires var d := Decimal(Abs(n)); |d| <= |digits| && digits == Zeros(|digits| - |d|) + d
    ensures Spells(sign + digits, n)
  {
    assert sign + digits == Spelling(sign, |digits| - |Decimal(Abs(n))|, n);
  }

  lemma SpellingParsed(sign: string, zeros: nat, n: int, bits: nat)
    requires SignFits(sign, n) && bits > 0 && -Power(bits - 1) <= n < Power(bits - 1)
    ensures ParseInt(Spelling(sign, zeros, n), bits) == Some(n)
  {
    DigitsDecimal(Abs(n));
    DigitsPadded(zeros, Decimal(Abs(n)));
    ParseSigned(sign, Zeros(zeros) + Decimal(Abs(n)), bits);
  }

  /** Reading back the text of a number. */
  lemma WrittenIsRead(n: int, bits: nat)
    requires bits > 0 && -Power(bits - 1) <= n < Power(bits - 1)
    ensures ParseInt(SignedDecimal(n), bits) == Some(n)
  {
    var sign := if n < 0 then "-" else "";
    assert Zeros(0) + Decimal(Abs(n)) == Decimal(Abs(n)) && SignedDecimal(n) == Spelling(sign, 0, n);
    SpellingParsed(sign, 0, n, bits);
  }

  /** The ranges of Go's integer types. */
  lemma IntRanges()
    ensures Power(7) == 128 && Power(15) == 32768 && Power(31) == 0x8000_0000 && Power(63) == 0x8000_0000_0000_0000
  {
    assert Power(7) == 2 * 2 * 2 * 2 * Power(3);
    PowerSum(8, 7);
    PowerSum(16, 15);
    PowerSum(32, 31);
  }

  lemma {:induction false} PowerSum(a: nat, b: nat)
    ensures Power(a + b) == Power(a) * Power(b)
  {
    if a > 0 { PowerSum(a - 1, b); }
  }

  // ---------- The truth values ----------

  function UpperCase(word: string): (u: string)
    requires forall i :: 0 <= i < |word| ==> 'a' <= word[i] <= 'z'
    ensures |u| == |word| && forall i :: 0 <= i < |word| ==> u[i] as int == word[i] as int - 32
  {
    seq(|word|, i requires 0 <= i < |word| => (word[i] as int - 32) as char)
  }

  /** A spelling of a truth value: its digit, its word in lower case, upper case or capitalised, or the
      first letter of its word in either case. */
  predicate SpellsTruth(s: string, b: bool) {
    var word := if b then "true" else "false";
    var upper := UpperCase(word);
    || s == (if b then "1" else "0")
    || s == word || s == upper || s == [upper[0]] + word[1..]
    || s == [word[0]] || s == [upper[0]]
  }

  /** A text is read as a truth value if and only if it is a spelling of it. */
  lemma ParseBoolExact(s: string, b: bool)
    ensures ParseBool(s) == Some(b) <==> SpellsTruth(s, b)
  {
    UpperWords();
    assert ['T'] + "true"[1..] == "True" && ['F'] + "false"[1..] == "False";
    assert ['t'] == "t" && ['T'] == "T" && ['f'] == "f" && ['F'] == "F";
    OneValue(s);
  }

  lemma UpperWords()
    ensures UpperCase("true") == "TRUE" && UpperCase("false") == "FALSE"
  {
  }

  lemma OneValue(s: string)
    ensures !(s in ["1", "t", "T", "true", "TRUE", "True"] && s in ["0", "f", "F", "false", "FALSE", "False"])
  {
  }

  // ---------- What one leaf takes ----------

  predicate Reached(env: Env, p: Path) { p.settable && p.tag != "" && env(p.tag) != "" && !Shut(env, p.gates) }

  /** A leaf that is reached and holds a truth value takes the one its variable spells, and fails if and
      only if the variable spells none. */
  lemma TruthTaken(env: Env, dur: Durations, fields: seq<Field>, k: nat)
    requires k < Leaves(fields) && Reached(env, Paths(fields, {})[k]) && Paths(fields, {})[k].kind.BoolKind?
    ensures var p, a := Paths(fields, {})[k], Actions(env, dur, fields)[k];
      (forall b :: a == Put(Truth(b)) <==> SpellsTruth(env(p.tag), b))
      && (a == Fail(BadBool(p.name)) <==> forall b :: !SpellsTruth(env(p.tag), b))
  {
    ActionsLeafwise(env, dur, fields, {}, k);
    var v := env(Paths(fields, {})[k].tag);
    ParseBoolExact(v, true);
    ParseBoolExact(v, false);
  }

  /** The same for a leaf that holds a number of some width. */
  lemma NumberTaken(env: Env, dur: Durations, fields: seq<Field>, k: nat)
    requires k < Leaves(fields) && Reached(env, Paths(fields, {})[k])
    requires Paths(fields, {})[k].kind.IntKind? && Paths(fields, {})[k].kind.bits > 0
    ensures var p, a := Paths(fields, {})[k], Actions(env, dur, fields)[k];
      (forall n :: a == Put(Number(n)) <==> SpellsNumber(env(p.tag), n, p.kind.bits))
      && (a == Fail(BadInt(p.name)) <==> forall n :: !SpellsNumber(env(p.tag), n, p.kind.bits))
  {
    var p := Paths(fields, {})[k];
    NumberAction(env, dur, fields, k);
    ReadsNumber(env(p.tag), p.kind.bits);
  }

  lemma NumberAction(env: Env, dur: Durations, fields: seq<Field>, k: nat)
    requires k < Leaves(fields) && Reached(env, Paths(fields, {})[k]) && Paths(fields, {})[k].kind.IntKind?
    ensures var p, a := Paths(fields, {})[k], Actions(env, dur, fields)[k];
      var r := ParseInt(env(p.tag), p.kind.bits);
      a == if r.Some? then Put(Number(r.value)) else Fail(BadInt(p.name))
  {
    ActionsLeafwise(env, dur, fields, {}, k);
  }

  lemma ReadsNumber(s: string, bits: nat)
    requires bits > 0
    ensures forall n :: ParseInt(s, bits) == Some(n) <==> SpellsNumber(s, n, bits)
    ensures ParseInt(s, bits) == None <==> forall n :: !SpellsNumber(s, n, bits)
  {
    forall n ensures ParseInt(s, bits) == Some(n) <==> SpellsNumber(s, n, bits) { ParseExact(s, n, bits); }
    if ParseInt(s, bits).Some? { assert SpellsNumber(s, ParseInt(s, bits).value, bits); }
  }

  /** A spelling of a number that an integer of this width holds. */
  ghost predicate SpellsNumber(s: string, n: int, bits: nat)
    requires bits > 0
  {
    Spells(s, n) && -Power(bits - 1) <= n < Power(bits - 1)
  }

  /** A text is taken as it is, and a duration as the duration parser reads it. */
  lemma OthersTaken(env: Env, dur: Durations, fields: seq<Field>, k: nat)
    requires k < Leaves(fields) && Reached(env, Paths(fields, {})[k])
    ensures var p, a := Paths(fields, {})[k], Actions(env, dur, fields)[k];
      var v, d := env(p.tag), dur(env(p.tag));
      && (p.kind.StringKind? ==> a == Put(Text(v)))
      && (p.kind.DurationKind? && d.Some? ==> a == Put(Number(d.value)))
      && (p.kind.DurationKind? && d.None? ==> a == Fail(BadDuration(p.name)))
      && (p.kind.OtherKind? ==> a == Keep)
  {
    ActionsLeafwise(env, dur, fields, {}, k);
  }
}
