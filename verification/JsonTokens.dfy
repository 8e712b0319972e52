/** JSON as the decoder meets it: a stream of tokens, the tree the tokens spell, and the parser that
    connects the two. */
module JsonTokens {
  import opened Wrappers

  /** `Key` is a string followed by its colon. Numbers keep their text. */
  datatype Token =
    | ObjStart | ObjEnd | ArrStart | ArrEnd | Key(name: string) | Str(text: string) | Num(digits: string)
    | Bool(b: bool) | Null

  datatype Json =
    | JStr(text: string) | JNum(digits: string) | JBool(b: bool) | JNull | JArr(items: Items)
    | JObj(members: Members)

  datatype Items = INil | ICons(head: Json, tail: Items)

  /** The members of an object in the order they stand; a name may occur more than once. */
  datatype Members = MNil | MCons(name: string, value: Json, tail: Members)

  function Toks(j: Json): seq<Token> {
    match j
    case JStr(text) => [Str(text)]
    case JNum(digits) => [Num(digits)]
    case JBool(b) => [Bool(b)]
    case JNull => [Null]
    case JArr(items) => [ArrStart] + ItemToks(items)
    case JObj(members) => [ObjStart] + MemberToks(members)
  }

  /** With the closing bracket. */
  function ItemToks(items: Items): seq<Token> {
    match items
    case INil => [ArrEnd]
    case ICons(j, rest) => Toks(j) + ItemToks(rest)
  }

  /** With the closing brace. */
  function MemberToks(members: Members): seq<Token> {
    match members
    case MNil => [ObjEnd]
    case MCons(name, j, rest) => [Key(name)] + Toks(j) + MemberToks(rest)
  }

  /** The value a stream starts with, and what follows it; none when it starts with no value. */
  function Parse(t: seq<Token>): (r: Option<(Json, seq<Token>)>)
    ensures r.Some? ==> |r.value.1| < |t|
    decreases |t|, 0
  {
    if t == [] then None
    else
      match t[0]
      case Str(text) => Some((JStr(text), t[1..]))
      case Num(digits) => Some((JNum(digits), t[1..]))
      case Bool(b) => Some((JBool(b), t[1..]))
      case Null => Some((JNull, t[1..]))
      case ArrStart => (match ParseItems(t[1..]) case None => None case Some(p) => Some((JArr(p.0), p.1)))
      case ObjStart => (match ParseMembers(t[1..]) case None => None case Some(p) => Some((JObj(p.0), p.1)))
      case _ => None
  }

  function ParseItems(t: seq<Token>): (r: Option<(Items, seq<Token>)>)
    ensures r.Some? ==> |r.value.1| < |t|
    decreases |t|, 1
  {
    if t == [] then None
    else if t[0].ArrEnd? then Some((INil, t[1..]))
    else
      match Parse(t)
      case None => None
      case Some(p) => match ParseItems(p.1) case None => None case Some(q) => Some((ICons(p.0, q.0), q.1))
  }

  function ParseMembers(t: seq<Token>): (r: Option<(Members, seq<Token>)>)
    ensures r.Some? ==> |r.value.1| < |t|
    decreases |t|, 1
  {
    if t == [] then None
    else if t[0].ObjEnd? then Some((MNil, t[1..]))
    else if !t[0].Key? then None
    else
      match Parse(t[1..])
      case None => None
      case Some(p) => match ParseMembers(p.1) case None => None case Some(q) => Some((MCons(t[0].name, p.0, q.0), q.1))
  }

  /** Unique readability: the tokens of a value, followed by anything, parse as that value and leave
      what follows. */
  lemma {:induction false} ParseToks(j: Json, rest: seq<Token>)
    ensures Parse(Toks(j) + rest) == Some((j, rest))
    decreases j
  {
    var t := Toks(j) + rest;
    match j
    case JArr(items) =>
      assert t[1..] == ItemToks(items) + rest;
      ParseItemToks(items, rest);
    case JObj(members) =>
      assert t[1..] == MemberToks(members) + rest;
      ParseMemberToks(members, rest);
    case _ => assert t[1..] == rest;
  }

  lemma ToksStart(j: Json)
    ensures |Toks(j)| > 0 && !Toks(j)[0].ArrEnd? && !Toks(j)[0].ObjEnd?
  {
  }

  lemma {:induction false} ParseItemToks(items: Items, rest: seq<Token>)
    ensures ParseItems(ItemToks(items) + rest) == Some((items, rest))
    decreases items
  {
    match items
    case INil => assert ([ArrEnd] + rest)[1..] == rest;
    case ICons(j, tail) =>
      ToksStart(j);
      ParseToks(j, ItemToks(tail) + rest);
      ParseItemToks(tail, rest);
      assert ItemToks(items) + rest == Toks(j) + (ItemToks(tail) + rest);
  }

  lemma {:induction false} ParseMemberToks(members: Members, rest: seq<Token>)
    ensures ParseMembers(MemberToks(members) + rest) == Some((members, rest))
    decreases members
  {
    match members
    case MNil => assert ([ObjEnd] + rest)[1..] == rest;
    case MCons(name, j, tail) =>
      ParseToks(j, MemberToks(tail) + rest);
      ParseMemberToks(tail, rest);
      KeyInFront(name, Toks(j), MemberToks(tail), rest);
  }

  lemma KeyInFront(name: string, a: seq<Token>, b: seq<Token>, c: seq<Token>)
    ensures var t := ([Key(name)] + a + b) + c; t != [] && t[0] == Key(name) && t[1..] == a + (b + c)
  {
  }

  /** Conversely, what parses is the tokens of the value followed by the rest. */
  lemma {:induction false} ParseSound(t: seq<Token>)
    ensures Parse(t).Some? ==> t == Toks(Parse(t).value.0) + Parse(t).value.1
    decreases |t|, 0
  {
    if t != [] && t[0].ArrStart? {
      ItemsSound(t[1..]);
    } else if t != [] && t[0].ObjStart? {
      MembersSound(t[1..]);
    }
  }

  lemma {:induction false} ItemsSound(t: seq<Token>)
    ensures ParseItems(t).Some? ==> t == ItemToks(ParseItems(t).value.0) + ParseItems(t).value.1
    decreases |t|, 1
  {
    if t != [] && !t[0].ArrEnd? && Parse(t).Some? {
      ParseSound(t);
      ItemsSound(Parse(t).value.1);
    }
  }

  lemma {:induction false} MembersSound(t: seq<Token>)
    ensures ParseMembers(t).Some? ==> t == MemberToks(ParseMembers(t).value.0) + ParseMembers(t).value.1
    decreases |t|, 1
  {
    if t != [] && t[0].Key? && Parse(t[1..]).Some? {
      ParseSound(t[1..]);
      MembersSound(Parse(t[1..]).value.1);
    }
  }
}
