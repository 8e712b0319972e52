/** What the generated codec of a type does, for any type: one schema-driven encoder and decoder on
    JSON trees, and the schemas of the API's types. */
module JsonSchema {
  import opened Wrappers
  import opened JsonTokens

  /** Leaf formats whose text form belongs to other libraries. */
  datatype Format = DateTime | Uri | Int64

  /** What a validator asks of a string. */
  datatype Rule = AnyText | OneOf(values: seq<string>) | Email

  datatype Schema = Text(rule: Rule) | Formatted(format: Format) | Arr(elem: Schema) | Obj(fields: seq<Field>)

  datatype Field = Field(name: string, sch: Schema, required: bool)

  /** A Go value of a type. A slice is nil or has elements, possibly none; an optional field is
      unset or set. */
  datatype Val =
    | VText(text: string)
    | VFormatted(canonical: string)
    | VNil
    | VSlice(elems: seq<Val>)
    | VObj(slots: seq<Val>)
    | VUnset
    | VSet(value: Val)

  /** The leaf codecs, the zero values of their types, and the email rule. */
  datatype Leaves = Leaves(
    encode: (Format, string) -> string, decode: (Format, string) -> Option<string>,
    zero: Format -> string, email: string -> bool)

  // ---------- Zero values and receivers ----------

  function Zero(lv: Leaves, sch: Schema): Val
    decreases sch
  {
    match sch
    case Text(_) => VText("")
    case Formatted(f) => VFormatted(lv.zero(f))
    case Arr(_) => VNil
    case Obj(fields) => VObj(ZeroSlots(lv, fields))
  }

  function ZeroSlots(lv: Leaves, fields: seq<Field>): (slots: seq<Val>)
    ensures |slots| == |fields|
    decreases fields
  {
    if fields == [] then []
    else [if fields[0].required then Zero(lv, fields[0].sch) else VUnset] + ZeroSlots(lv, fields[1..])
  }

  /** The fields of the struct a decoder writes into. */
  function Slots(lv: Leaves, fields: seq<Field>, recv: Val): (slots: seq<Val>)
    ensures |slots| == |fields|
  {
    if recv.VObj? && |recv.slots| == |fields| then recv.slots else ZeroSlots(lv, fields)
  }

  // ---------- Decoding ----------

  datatype DecodeError =
    | WrongType                          // another kind of value, or no value
    | BadFormat(format: Format)
    | InField(name: string, cause: DecodeError)
    | MissingFields(names: seq<string>)

  function FieldIndex(fields: seq<Field>, name: string): (i: int)
    ensures -1 <= i < |fields|
    ensures i >= 0 ==> fields[i].name == name
    ensures i < 0 ==> forall k :: 0 <= k < |fields| ==> fields[k].name != name
  {
    if fields == [] then -1
    else if fields[0].name == name then 0
    else
      var i := FieldIndex(fields[1..], name);
      assert i < 0 ==> forall k :: 1 <= k < |fields| ==> fields[k] == fields[1..][k - 1];
      if i < 0 then -1 else i + 1
  }

  /** The names of the required fields not seen, from index `i` on, in index order. */
  function Missing(fields: seq<Field>, seen: set<nat>, i: nat): seq<string>
    decreases |fields| - i
  {
    if i >= |fields| then []
    else (if fields[i].required && i !in seen then [fields[i].name] else []) + Missing(fields, seen, i + 1)
  }

  /** A struct half decoded: its fields, and which required ones occurred. */
  datatype Progress = Progress(slots: seq<Val>, seen: set<nat>)

  function RawText(format: Format, j: Json): Option<string> {
    if format.Int64? then (if j.JNum? then Some(j.digits) else None)
    else if j.JStr? then Some(j.text)
    else None
  }

  function DecLeaf(lv: Leaves, format: Format, raw: Option<string>): Result<Val, DecodeError> {
    match raw
    case None => Err(WrongType)
    case Some(text) =>
      match lv.decode(format, text) case None => Err(BadFormat(format)) case Some(v) => Ok(VFormatted(v))
  }

  function Finished(fields: seq<Field>, p: Progress): Result<Val, DecodeError> {
    if Missing(fields, p.seen, 0) == [] then Ok(VObj(p.slots)) else Err(MissingFields(Missing(fields, p.seen, 0)))
  }

  /** Decoding a tree into a receiver. Strings and slices are replaced; a nested struct is decoded
      into the one that is there. */
  function Dec(lv: Leaves, sch: Schema, recv: Val, j: Json): Result<Val, DecodeError>
    decreases j, 0
  {
    match sch
    case Text(_) => if j.JStr? then Ok(VText(j.text)) else Err(WrongType)
    case Formatted(f) => DecLeaf(lv, f, RawText(f, j))
    case Arr(elem) =>
      if !j.JArr? then Err(WrongType)
      else (match DecItems(lv, elem, j.items) case Err(e) => Err(e) case Ok(vs) => Ok(VSlice(vs)))
    case Obj(fields) =>
      if !j.JObj? then Err(WrongType)
      else
        match DecMembers(lv, fields, Progress(Slots(lv, fields, recv), {}), j.members)
        case Err(e) => Err(e)
        case Ok(p) => Finished(fields, p)
  }

  function DecItems(lv: Leaves, elem: Schema, items: Items): Result<seq<Val>, DecodeError>
    decreases items
  {
    match items
    case INil => Ok([])
    case ICons(j, rest) =>
      match Dec(lv, elem, Zero(lv, elem), j)
      case Err(e) => Err(e)
      case Ok(v) => match DecItems(lv, elem, rest) case Err(e) => Err(e) case Ok(vs) => Ok([v] + vs)
  }

  /** One field: an optional one is reset first. */
  function DecField(lv: Leaves, f: Field, slot: Val, j: Json): Result<Val, DecodeError>
    decreases j, 1
  {
    match Dec(lv, f.sch, if f.required then slot else Zero(lv, f.sch), j)
    case Err(e) => Err(e)
    case Ok(v) => Ok(if f.required then v else VSet(v))
  }

  function Record(fields: seq<Field>, p: Progress, i: nat, v: Val): (q: Progress)
    requires i < |fields| == |p.slots|
    ensures |q.slots| == |fields|
  {
    Progress(p.slots[i := v], if fields[i].required then p.seen + {i} else p.seen)
  }

  /** The members in order: an unknown name is skipped, a known one is decoded into its field. */
  function DecMembers(lv: Leaves, fields: seq<Field>, p: Progress, members: Members): (r: Result<Progress, DecodeError>)
    requires |p.slots| == |fields|
    ensures r.Ok? ==> |r.value.slots| == |fields|
    decreases members
  {
    match members
    case MNil => Ok(p)
    case MCons(name, j, rest) =>
      var i := FieldIndex(fields, name);
      if i < 0 then DecMembers(lv, fields, p, rest)
      else
        match DecField(lv, fields[i], p.slots[i], j)
        case Err(e) => Err(InField(name, e))
        case Ok(v) => DecMembers(lv, fields, Record(fields, p, i, v), rest)
  }

  // ---------- Encoding ----------

  function ToJson(lv: Leaves, sch: Schema, v: Val): Json
    decreases v, 0
  {
    match sch
    case Text(_) => if v.VText? then JStr(v.text) else JNull
    case Formatted(f) =>
      if !v.VFormatted? then JNull
      else if f.Int64? then JNum(lv.encode(f, v.canonical))
      else JStr(lv.encode(f, v.canonical))
    case Arr(elem) =>
      if v.VSlice? then JArr(ItemsJson(lv, elem, v.elems)) else if v.VNil? then JArr(INil) else JNull
    case Obj(fields) => if v.VObj? then JObj(MembersJson(lv, fields, v.slots)) else JNull
  }

  function ItemsJson(lv: Leaves, elem: Schema, vs: seq<Val>): Items
    decreases vs
  {
    if vs == [] then INil else ICons(ToJson(lv, elem, vs[0]), ItemsJson(lv, elem, vs[1..]))
  }

  /** The member a field becomes: none for an optional field that is unset. */
  function SlotJson(lv: Leaves, f: Field, slot: Val): Option<Json>
    decreases slot, 1
  {
    if f.required then Some(ToJson(lv, f.sch, slot))
    else if slot.VSet? then Some(ToJson(lv, f.sch, slot.value))
    else None
  }

  /** The fields in order. */
  function MembersJson(lv: Leaves, fields: seq<Field>, slots: seq<Val>): Members
    decreases slots
  {
    if fields == [] || slots == [] then MNil
    else
      var rest := MembersJson(lv, fields[1..], slots[1..]);
      match SlotJson(lv, fields[0], slots[0])
      case Some(j) => MCons(fields[0].name, j, rest)
      case None => rest
  }

  // ---------- Well-typed values ----------

  /** The one thing asked of a leaf codec: it reads back what it wrote. */
  predicate Legal(lv: Leaves, f: Format, canonical: string) {
    lv.decode(f, lv.encode(f, canonical)) == Some(canonical)
  }

  predicate Typed(lv: Leaves, sch: Schema, v: Val)
    decreases v, 0
  {
    match sch
    case Text(_) => v.VText?
    case Formatted(f) => v.VFormatted? && Legal(lv, f, v.canonical)
    case Arr(elem) => v.VNil? || (v.VSlice? && forall i :: 0 <= i < |v.elems| ==> Typed(lv, elem, v.elems[i]))
    case Obj(fields) =>
      v.VObj? && |v.slots| == |fields| && forall i :: 0 <= i < |fields| ==> TypedSlot(lv, fields[i], v.slots[i])
  }

  predicate TypedSlot(lv: Leaves, f: Field, slot: Val)
    decreases slot, 1
  {
    if f.required then Typed(lv, f.sch, slot)
    else slot.VUnset? || (slot.VSet? && Typed(lv, f.sch, slot.value))
  }

  /** The value with every nil slice made empty. */
  function Canon(v: Val): Val {
    match v
    case VNil => VSlice([])
    case VSlice(vs) => VSlice(CanonAll(vs))
    case VObj(slots) => VObj(CanonAll(slots))
    case VSet(x) => VSet(Canon(x))
    case _ => v
  }

  function CanonAll(vs: seq<Val>): (r: seq<Val>)
    ensures |r| == |vs| && forall i :: 0 <= i < |vs| ==> r[i] == Canon(vs[i])
  {
    if vs == [] then [] else [Canon(vs[0])] + CanonAll(vs[1..])
  }

  /** Field names are distinct, at every level, and fit one byte of the bitset. */
  predicate SchemaOk(sch: Schema)
    decreases sch
  {
    match sch
    case Arr(elem) => SchemaOk(elem)
    case Obj(fields) =>
      && |fields| <= 8
      && (forall i, k :: 0 <= i < k < |fields| ==> fields[i].name != fields[k].name)
      && (forall i :: 0 <= i < |fields| ==> SchemaOk(fields[i].sch))
    case _ => true
  }

  // ---------- The types of the API ----------

  const ANY_STRING := Text(AnyText)
  const TIME := Formatted(DateTime)

  function Req(name: string, sch: Schema): Field { Field(name, sch, true) }
  function Opt(name: string, sch: Schema): Field { Field(name, sch, false) }

  const KIND_RULE := Text(OneOf(["personal", "shared"]))

  const PROJECT_SCHEMA := Obj([
    Req("id", ANY_STRING), Req("name", ANY_STRING), Req("description", ANY_STRING), Req("kind", KIND_RULE),
    Req("createdAt", TIME), Req("updatedAt", TIME)])

  const ROLE_ATTRIBUTE_SCHEMA := Obj([Req("id", ANY_STRING), Req("name", ANY_STRING), Req("description", ANY_STRING)])

  const ROLE_SCHEMA := Obj([
    Req("id", ANY_STRING), Req("name", ANY_STRING), Req("description", ANY_STRING), Req("project", PROJECT_SCHEMA),
    Req("attributes", Arr(ROLE_ATTRIBUTE_SCHEMA)), Req("createdAt", TIME), Req("updatedAt", TIME)])

  const USER_SCHEMA := Obj([
    Req("id", ANY_STRING), Req("email", Text(Email)), Req("roles", Arr(ROLE_SCHEMA)), Req("createdAt", TIME),
        Req("updatedAt", TIME)])

  const USER_GROUP_SCHEMA := Obj([
    Req("id", ANY_STRING), Req("name", ANY_STRING), Req("description", ANY_STRING), Req("project", PROJECT_SCHEMA),
    Req("members", Arr(USER_SCHEMA)), Req("createdAt", TIME), Req("updatedAt", TIME)])

  const GITHUB_USER_SCHEMA := Obj([
    Req("id", ANY_STRING), Req("github_id", Formatted(Int64)), Req("username", ANY_STRING), Req("email", Text(Email)),
    Req("name", ANY_STRING), Req("avatar_url", Formatted(Uri)), Opt("created_at", TIME), Opt("updated_at", TIME)])

  const TEAM_MEMBERSHIP_SCHEMA := Obj([
    Req("org_name", ANY_STRING), Req("team_name", ANY_STRING), Req("role", Text(OneOf(["member", "maintainer"])))])

  const AUTHENTICATED_USER_SCHEMA := Obj([
    Req("user", GITHUB_USER_SCHEMA), Req("bearer_token", ANY_STRING),
        Req("team_memberships", Arr(TEAM_MEMBERSHIP_SCHEMA))])

  const CREATE_PROJECT_REQUEST_SCHEMA := Obj([
    Req("name", ANY_STRING), Req("description", ANY_STRING), Req("kind", KIND_RULE),
    Req("ownerIds", Arr(ANY_STRING)), Req("ownerGroupIds", Arr(ANY_STRING))])

  const UPDATE_PROJECT_REQUEST_SCHEMA := Obj([
    Req("name", ANY_STRING), Req("description", ANY_STRING), Req("ownerIds", Arr(ANY_STRING)),
        Req("ownerGroupIds", Arr(ANY_STRING))])

  const CREATE_ROLE_REQUEST_SCHEMA := Obj([Req("name", ANY_STRING), Req("description", ANY_STRING),
      Req("attributeIds", Arr(ANY_STRING))])

  const CREATE_USER_GROUP_REQUEST_SCHEMA := Obj([Req("name", ANY_STRING), Req("description", ANY_STRING),
      Req("memberIds", Arr(ANY_STRING))])

  const UPDATE_ROLE_REQUEST_SCHEMA := Obj([Req("name", ANY_STRING), Req("description", ANY_STRING),
      Req("attributeIds", Arr(ANY_STRING))])

  const UPDATE_USER_GROUP_REQUEST_SCHEMA := Obj([Req("name", ANY_STRING), Req("description", ANY_STRING),
      Req("memberIds", Arr(ANY_STRING))])

  const CREATE_USER_REQUEST_SCHEMA := Obj([Req("email", Text(Email))])

  const ERROR_RESPONSE_SCHEMA := Obj([Req("error", ANY_STRING)])

  const HEALTH_RESPONSE_SCHEMA := Obj([Req("status", ANY_STRING)])
}
