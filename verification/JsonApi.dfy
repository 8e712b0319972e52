/** The codec facts of the API's own types. */
module JsonApi {
  import opened Wrappers
  import opened JsonTokens
  import opened JsonSchema
  import opened JsonTheorems
  import opened JsonBits
  import opened JsonCodec
  import opened Requests

  /** The API's types whose fields are all required, at every level of nested structs. */
  predicate IsApiType(sch: Schema) {
    sch == PROJECT_SCHEMA || sch == ROLE_ATTRIBUTE_SCHEMA || sch == ROLE_SCHEMA || sch == USER_SCHEMA
    || sch == USER_GROUP_SCHEMA
    || sch == TEAM_MEMBERSHIP_SCHEMA || sch == CREATE_PROJECT_REQUEST_SCHEMA || sch == UPDATE_PROJECT_REQUEST_SCHEMA
    || sch == CREATE_ROLE_REQUEST_SCHEMA || sch == CREATE_USER_GROUP_REQUEST_SCHEMA || sch == CREATE_USER_REQUEST_SCHEMA
    || sch == UPDATE_ROLE_REQUEST_SCHEMA || sch == UPDATE_USER_GROUP_REQUEST_SCHEMA || sch == ERROR_RESPONSE_SCHEMA
    || sch == HEALTH_RESPONSE_SCHEMA
  }

  predicate Plain(sch: Schema) { SchemaOk(sch) && Overwrites(sch) }

  lemma PlainLeaves()
    ensures Plain(PROJECT_SCHEMA) && Plain(ROLE_ATTRIBUTE_SCHEMA) && Plain(TEAM_MEMBERSHIP_SCHEMA)
    ensures Plain(CREATE_USER_REQUEST_SCHEMA)
  {
    assert Plain(ANY_STRING) && Plain(TIME) && Plain(KIND_RULE) && Plain(Text(Email));
    assert Plain(Text(OneOf(["member", "maintainer"])));
  }

  lemma PlainRequests()
    ensures Plain(CREATE_PROJECT_REQUEST_SCHEMA) && Plain(UPDATE_PROJECT_REQUEST_SCHEMA)
  {
    assert Plain(ANY_STRING) && Plain(KIND_RULE) && Plain(Arr(ANY_STRING));
  }

  lemma PlainSmall()
    ensures Plain(CREATE_ROLE_REQUEST_SCHEMA) && Plain(CREATE_USER_GROUP_REQUEST_SCHEMA)
    ensures Plain(UPDATE_ROLE_REQUEST_SCHEMA) && Plain(UPDATE_USER_GROUP_REQUEST_SCHEMA)
    ensures Plain(ERROR_RESPONSE_SCHEMA) && Plain(HEALTH_RESPONSE_SCHEMA)
  {
    assert Plain(ANY_STRING) && Plain(Arr(ANY_STRING));
  }

  lemma PlainNested()
    ensures Plain(ROLE_SCHEMA) && Plain(USER_SCHEMA) && Plain(USER_GROUP_SCHEMA)
  {
    PlainLeaves();
    assert Plain(ANY_STRING) && Plain(TIME) && Plain(Text(Email));
    assert Plain(Arr(ROLE_ATTRIBUTE_SCHEMA));
    assert Plain(ROLE_SCHEMA) && Plain(Arr(ROLE_SCHEMA));
    assert Plain(USER_SCHEMA) && Plain(Arr(USER_SCHEMA));
  }

  /** Every such type has distinct field names, at most eight fields, and only required ones. */
  lemma ApiTypesPlain(sch: Schema)
    requires IsApiType(sch)
    ensures SchemaOk(sch) && Overwrites(sch) && sch.Obj? && ObjOk(sch.fields)
    ensures forall i :: 0 <= i < |sch.fields| ==> FieldOverwrites(sch.fields[i])
  {
    PlainLeaves();
    PlainRequests();
    PlainSmall();
    PlainNested();
  }

  /** What a client or server writes of any API value is read back by the other side, and what follows
      it on the stream is left alone. */
  lemma ApiRoundTrip(lv: Leaves, sch: Schema, v: Val, suffix: seq<Token>, after: seq<Token>,
      r: Result<Val, DecodeError>)
    requires IsApiType(sch) || sch == GITHUB_USER_SCHEMA || sch == AUTHENTICATED_USER_SCHEMA
    requires Typed(lv, sch, v)
    requires Reads(lv, sch, Zero(lv, sch), Toks(ToJson(lv, sch, v)) + suffix, after, r)
    ensures r == Ok(Canon(v)) && after == suffix
  {
    GitHubUserOk();
    if IsApiType(sch) { ApiTypesPlain(sch); }
    WireRoundTrip(lv, sch, v, suffix, after, r);
  }

  lemma GitHubUserOk()
    ensures SchemaOk(GITHUB_USER_SCHEMA) && SchemaOk(AUTHENTICATED_USER_SCHEMA)
  {
    PlainLeaves();
    assert SchemaOk(ANY_STRING) && SchemaOk(TIME) && SchemaOk(Text(Email)) && SchemaOk(Formatted(Uri))
      && SchemaOk(Formatted(Int64));
    assert SchemaOk(GITHUB_USER_SCHEMA);
    assert SchemaOk(Arr(TEAM_MEMBERSHIP_SCHEMA));
  }

  lemma MaskOf(sch: Schema, mask: bv8, n: nat)
    requires sch.Obj? && |sch.fields| <= 8 && n <= |sch.fields|
    requires forall i :: 0 <= i < |sch.fields| ==> (sch.fields[i].required <==> i < n)
    requires mask == LowBits(n)
    ensures RequiredMask(sch.fields, 0) == mask
  {
    MaskBits(sch.fields, 0);
    LowBitsAre(n);
    SameBits(RequiredMask(sch.fields, 0), mask);
  }

  /** A byte with its lowest `n` bits set. */
  function LowBits(n: nat): bv8 { if n == 0 then 0 else WithBit(LowBits(n - 1), n - 1) }

  lemma {:induction false} LowBitsAre(n: nat)
    requires n <= 8
    ensures forall i: nat :: i in Bits(LowBits(n)) <==> i < n
  {
    if n == 0 {
      BitsZero();
    } else {
      LowBitsAre(n - 1);
      BitsSet(LowBits(n - 1), n - 1);
    }
  }

  lemma SameBits(a: bv8, b: bv8)
    requires Bits(a) == Bits(b)
    ensures a == b
  {
    BitwiseEqual(a, b);
    forall i: nat | i < 8 ensures HasBit(a, i) <==> HasBit(b, i) {
      assert i in Bits(a) <==> i in Bits(b);
    }
  }

  lemma BitwiseEqual(a: bv8, b: bv8)
    ensures (forall i: nat | i < 8 :: HasBit(a, i) <==> HasBit(b, i)) ==> a == b
  {
    if forall i: nat | i < 8 :: HasBit(a, i) <==> HasBit(b, i) {
      assert HasBit(a, 0) <==> HasBit(b, 0);
      assert HasBit(a, 1) <==> HasBit(b, 1);
      assert HasBit(a, 2) <==> HasBit(b, 2);
      assert HasBit(a, 3) <==> HasBit(b, 3);
      assert HasBit(a, 4) <==> HasBit(b, 4);
      assert HasBit(a, 5) <==> HasBit(b, 5);
      assert HasBit(a, 6) <==> HasBit(b, 6);
      assert HasBit(a, 7) <==> HasBit(b, 7);
    }
  }

  lemma LowBitsSpelled()
    ensures LowBits(1) == 0x01 && LowBits(3) == 0x07 && LowBits(4) == 0x0F
    ensures LowBits(5) == 0x1F && LowBits(6) == 0x3F && LowBits(7) == 0x7F
  {
    assert LowBits(0) == 0 && LowBits(2) == 0x03;
  }

  /** Every mask the generated code spells out is the one computed from the schema. */
  lemma MasksAgree()
    ensures RequiredMask(AUTHENTICATED_USER_SCHEMA.fields, 0) == 0x07
    ensures RequiredMask(CREATE_PROJECT_REQUEST_SCHEMA.fields, 0) == 0x1F
    ensures RequiredMask(CREATE_ROLE_REQUEST_SCHEMA.fields, 0) == 0x07
    ensures RequiredMask(CREATE_USER_GROUP_REQUEST_SCHEMA.fields, 0) == 0x07
    ensures RequiredMask(CREATE_USER_REQUEST_SCHEMA.fields, 0) == 0x01
    ensures RequiredMask(ERROR_RESPONSE_SCHEMA.fields, 0) == 0x01
    ensures RequiredMask(GITHUB_USER_SCHEMA.fields, 0) == 0x3F
    ensures RequiredMask(HEALTH_RESPONSE_SCHEMA.fields, 0) == 0x01
    ensures RequiredMask(PROJECT_SCHEMA.fields, 0) == 0x3F
    ensures RequiredMask(ROLE_SCHEMA.fields, 0) == 0x7F
    ensures RequiredMask(ROLE_ATTRIBUTE_SCHEMA.fields, 0) == 0x07
    ensures RequiredMask(TEAM_MEMBERSHIP_SCHEMA.fields, 0) == 0x07
    ensures RequiredMask(UPDATE_PROJECT_REQUEST_SCHEMA.fields, 0) == 0x0F
    ensures RequiredMask(UPDATE_ROLE_REQUEST_SCHEMA.fields, 0) == 0x07
    ensures RequiredMask(UPDATE_USER_GROUP_REQUEST_SCHEMA.fields, 0) == 0x07
    ensures RequiredMask(USER_SCHEMA.fields, 0) == 0x1F
    ensures RequiredMask(USER_GROUP_SCHEMA.fields, 0) == 0x7F
  {
    RequestMasks();
    LowBitsSpelled();
    MaskOf(AUTHENTICATED_USER_SCHEMA, 0x07, 3);
    MaskOf(ERROR_RESPONSE_SCHEMA, 0x01, 1);
    MaskOf(GITHUB_USER_SCHEMA, 0x3F, 6);
    MaskOf(HEALTH_RESPONSE_SCHEMA, 0x01, 1);
    MaskOf(PROJECT_SCHEMA, 0x3F, 6);
    MaskOf(ROLE_SCHEMA, 0x7F, 7);
    MaskOf(ROLE_ATTRIBUTE_SCHEMA, 0x07, 3);
    MaskOf(TEAM_MEMBERSHIP_SCHEMA, 0x07, 3);
    MaskOf(USER_SCHEMA, 0x1F, 5);
    MaskOf(USER_GROUP_SCHEMA, 0x7F, 7);
  }

  lemma RequestMasks()
    ensures RequiredMask(CREATE_PROJECT_REQUEST_SCHEMA.fields, 0) == 0x1F
    ensures RequiredMask(CREATE_ROLE_REQUEST_SCHEMA.fields, 0) == 0x07
    ensures RequiredMask(CREATE_USER_GROUP_REQUEST_SCHEMA.fields, 0) == 0x07
    ensures RequiredMask(CREATE_USER_REQUEST_SCHEMA.fields, 0) == 0x01
    ensures RequiredMask(UPDATE_PROJECT_REQUEST_SCHEMA.fields, 0) == 0x0F
    ensures RequiredMask(UPDATE_ROLE_REQUEST_SCHEMA.fields, 0) == 0x07
    ensures RequiredMask(UPDATE_USER_GROUP_REQUEST_SCHEMA.fields, 0) == 0x07
  {
    LowBitsSpelled();
    MaskOf(CREATE_PROJECT_REQUEST_SCHEMA, 0x1F, 5);
    MaskOf(CREATE_ROLE_REQUEST_SCHEMA, 0x07, 3);
    MaskOf(CREATE_USER_GROUP_REQUEST_SCHEMA, 0x07, 3);
    MaskOf(CREATE_USER_REQUEST_SCHEMA, 0x01, 1);
    MaskOf(UPDATE_PROJECT_REQUEST_SCHEMA, 0x0F, 4);
    MaskOf(UPDATE_ROLE_REQUEST_SCHEMA, 0x07, 3);
    MaskOf(UPDATE_USER_GROUP_REQUEST_SCHEMA, 0x07, 3);
  }

  // ---------- The user of an authenticated user, sent more than once ----------

  lemma GitHubFields()
    ensures |GITHUB_USER_SCHEMA.fields| == 8 && ObjOk(GITHUB_USER_SCHEMA.fields)
    ensures forall i :: 0 <= i < 8 ==>
      FieldOverwrites(GITHUB_USER_SCHEMA.fields[i]) && (GITHUB_USER_SCHEMA.fields[i].required <==> i < 6)
    ensures GITHUB_USER_SCHEMA.fields[6].name == "created_at" && GITHUB_USER_SCHEMA.fields[7].name == "updated_at"
  {
    GitHubUserOk();
    assert Overwrites(ANY_STRING) && Overwrites(TIME) && Overwrites(Text(Email)) && Overwrites(Formatted(Uri))
      && Overwrites(Formatted(Int64));
  }

  function MembersOf(j: Json): Members { if j.JObj? then j.members else MNil }

  /** Some of the objects has a value under the name. */
  predicate Given(name: string, js: seq<Json>) { exists k :: 0 <= k < |js| && Under(name, MembersOf(js[k])) != [] }

  /** If one of the objects had a value under the name, so has the last. */
  predicate NotLost(name: string, js: seq<Json>)
    requires js != []
  {
    Given(name, js) ==> Under(name, MembersOf(js[|js| - 1])) != []
  }

  predicate OptionalsKept(fields: seq<Field>, js: seq<Json>)
    requires js != []
  {
    forall i :: 0 <= i < |fields| && !fields[i].required ==> NotLost(fields[i].name, js)
  }

  /** Decoding an object into a struct that is already filled: whether it succeeds does not depend on
      the struct, and a field without a value keeps what it held. */
  lemma Refill(lv: Leaves, fields: seq<Field>, held: Val, ms: Members)
    requires ObjOk(fields) && forall i :: 0 <= i < |fields| ==> FieldOverwrites(fields[i])
    requires held.VObj? && |held.slots| == |fields|
    ensures var r, alone := Dec(lv, Obj(fields), held, JObj(ms)), Dec(lv, Obj(fields), Zero(lv, Obj(fields)), JObj(ms));
      (r.Ok? <==> alone.Ok?)
      && (r.Ok? ==> r.value.VObj? && alone.value.VObj? && |r.value.slots| == |alone.value.slots| == |fields|
                    && forall i: nat :: i < |fields| ==>
                      Refilled(fields, i, held.slots[i], ms, r.value.slots[i], alone.value.slots[i]))
  {
    var zero := ZeroSlots(lv, fields);
    MembersMean(lv, fields, Progress(held.slots, {}), ms);
    MembersMean(lv, fields, Progress(zero, {}), ms);
    var q, a := DecMembers(lv, fields, Progress(held.slots, {}), ms), DecMembers(lv, fields, Progress(zero, {}), ms);
    forall i: nat | i < |fields|
      ensures FoldsAlike(lv, fields, i, held.slots[i], zero[i], ms)
    {
      LastAlike(lv, fields[i], held.slots[i], zero[i], Under(fields[i].name, ms));
    }
    SameOutcome(lv, fields, held.slots, zero, ms);
    if q.Ok? {
      MissingIsAbsent(fields, q.value.seen, ms, 0);
      MissingIsAbsent(fields, a.value.seen, ms, 0);
      if Absent(fields, ms, 0) == [] {
        NothingAbsent(fields, ms, 0);
        forall i: nat | i < |fields|
          ensures Refilled(fields, i, held.slots[i], ms, q.value.slots[i], a.value.slots[i])
        {
          SlotRefilled(lv, fields, i, held.slots[i], ms, q.value.slots[i], a.value.slots[i]);
        }
      }
    }
  }

  lemma {:induction false} NothingAbsent(fields: seq<Field>, ms: Members, i: nat)
    requires Absent(fields, ms, i) == []
    ensures forall k: nat :: i <= k < |fields| && fields[k].required ==> Present(fields, k, ms)
    decreases |fields| - i
  {
    if i < |fields| { NothingAbsent(fields, ms, i + 1); }
  }

  lemma SlotRefilled(lv: Leaves, fields: seq<Field>, i: nat, held: Val, ms: Members, filled: Val, alone: Val)
    requires i < |fields| && FieldOverwrites(fields[i]) && (fields[i].required ==> Present(fields, i, ms))
    requires Fold(lv, fields[i], held, Under(fields[i].name, ms)) == Ok(filled)
    requires Fold(lv, fields[i], ZeroSlots(lv, fields)[i], Under(fields[i].name, ms)) == Ok(alone)
    ensures Refilled(fields, i, held, ms, filled, alone)
  {
    LastAlike(lv, fields[i], held, ZeroSlots(lv, fields)[i], Under(fields[i].name, ms));
    if !fields[i].required { ZeroOptional(lv, fields, i); }
  }

  /** A field of the filled struct and of the fresh one, afterwards. */
  predicate Refilled(fields: seq<Field>, i: nat, held: Val, ms: Members, filled: Val, alone: Val)
    requires i < |fields|
  {
    if Present(fields, i, ms) then filled == alone && filled != VUnset
    else filled == held && alone == VUnset && !fields[i].required
  }

  /** A decoded field is never unset. */
  lemma DecodedSet(lv: Leaves, f: Field, slot: Val, j: Json)
    ensures DecField(lv, f, slot, j).Ok? ==> DecField(lv, f, slot, j).value != VUnset
  {
    var recv := if f.required then slot else Zero(lv, f.sch);
    if f.sch.Obj? && Dec(lv, f.sch, recv, j).Ok? { assert Dec(lv, f.sch, recv, j).value.VObj?; }
  }

  lemma LastAlike(lv: Leaves, f: Field, a: Val, b: Val, js: seq<Json>)
    requires FieldOverwrites(f)
    ensures var fa, fb := Fold(lv, f, a, js), Fold(lv, f, b, js);
      (fa.Ok? <==> fb.Ok?) && (js != [] && fa.Ok? ==> fa == fb && fa.value != VUnset)
  {
    LastDecides(lv, f, a, js);
    LastDecides(lv, f, b, js);
    if js != [] { DecodedSet(lv, f, VNil, js[|js| - 1]); }
  }

  predicate FoldsAlike(lv: Leaves, fields: seq<Field>, i: nat, a: Val, b: Val, ms: Members)
    requires i < |fields|
  {
    var js := Under(fields[i].name, ms);
    var fa, fb := Fold(lv, fields[i], a, js), Fold(lv, fields[i], b, js);
    (fa.Ok? <==> fb.Ok?) && (js != [] && fa.Ok? ==> fa == fb && fa.value != VUnset)
  }

  lemma SameOutcome(lv: Leaves, fields: seq<Field>, a: seq<Val>, b: seq<Val>, ms: Members)
    requires |a| == |b| == |fields| && forall i: nat :: i < |fields| ==> FoldsAlike(lv, fields, i, a[i], b[i], ms)
    ensures Decodable(lv, fields, a, ms) <==> Decodable(lv, fields, b, ms)
  {
  }

  lemma ZeroOptional(lv: Leaves, fields: seq<Field>, i: nat)
    requires i < |fields| && !fields[i].required
    ensures ZeroSlots(lv, fields)[i] == VUnset
  {
    ZeroSlotsBlank(lv, fields);
    assert BlankSlot(fields[i], ZeroSlots(lv, fields)[i]);
  }

  /** A required field with a struct in it, whose own fields are overwritten. */
  predicate IsMerged(f: Field) {
    f.required && f.sch.Obj? && ObjOk(f.sch.fields)
    && forall i :: 0 <= i < |f.sch.fields| ==> FieldOverwrites(f.sch.fields[i])
  }

  /** What repeated decoding leaves in an optional field of the struct: it is unset if and only if none
      of the objects had a value for it. */
  lemma {:induction false} FoldedObjects(lv: Leaves, f: Field, js: seq<Json>)
    requires IsMerged(f)
    requires Fold(lv, f, Zero(lv, f.sch), js).Ok?
    ensures var v := Fold(lv, f, Zero(lv, f.sch), js).value;
      v.VObj? && |v.slots| == |f.sch.fields| && forall i: nat :: i < |v.slots| && !f.sch.fields[i].required ==>
        (v.slots[i] == VUnset <==> !Given(f.sch.fields[i].name, js))
    decreases |js|
  {
    var fields := f.sch.fields;
    if js == [] {
      forall i: nat | i < |fields| && !fields[i].required
        ensures ZeroSlots(lv, fields)[i] == VUnset
      {
        ZeroOptional(lv, fields, i);
      }
    } else {
      var front, last := js[..|js| - 1], js[|js| - 1];
      assert js == front + [last];
      FoldSnoc(lv, f, Zero(lv, f.sch), front, last);
      FoldedObjects(lv, f, front);
      var held := Fold(lv, f, Zero(lv, f.sch), front).value;
      Refill(lv, fields, held, last.members);
      var v := Fold(lv, f, Zero(lv, f.sch), js).value;
      forall i: nat | i < |fields| && !fields[i].required
        ensures v.slots[i] == VUnset <==> !Given(fields[i].name, js)
      {
        GivenSnoc(fields[i].name, front, last);
      }
    }
  }

  lemma GivenSnoc(name: string, front: seq<Json>, last: Json)
    ensures Given(name, front + [last]) <==> Given(name, front) || Under(name, MembersOf(last)) != []
  {
    var js := front + [last];
    assert js[|front|] == last;
    if Given(name, front) {
      var k :| 0 <= k < |front| && Under(name, MembersOf(front[k])) != [];
      assert js[k] == front[k];
    }
  }

  /** Each value decodes on its own, and the last has every optional field any of them has. */
  predicate GoodRepeats(lv: Leaves, f: Field, js: seq<Json>)
    requires f.sch.Obj? && js != []
  {
    AllDecode(lv, f, js) && OptionalsKept(f.sch.fields, js)
  }

  /** Repeated decoding succeeds if and only if each value decodes on its own. */
  lemma {:induction false} EachDecodes(lv: Leaves, f: Field, js: seq<Json>)
    requires IsMerged(f)
    ensures Fold(lv, f, Zero(lv, f.sch), js).Ok? <==> AllDecode(lv, f, js)
    decreases |js|
  {
    if js != [] {
      var front, last := js[..|js| - 1], js[|js| - 1];
      assert js == front + [last];
      FoldSnoc(lv, f, Zero(lv, f.sch), front, last);
      EachDecodes(lv, f, front);
      AllDecodeSnoc(lv, f, front, last);
      if Fold(lv, f, Zero(lv, f.sch), front).Ok? {
        FoldedObjects(lv, f, front);
        LastOnItsOwn(lv, f, Fold(lv, f, Zero(lv, f.sch), front).value, last);
      }
    }
  }

  lemma AllDecodeSnoc(lv: Leaves, f: Field, front: seq<Json>, last: Json)
    ensures AllDecode(lv, f, front + [last]) <==> AllDecode(lv, f, front) && Alone(lv, f, last).Ok?
  {
    var js := front + [last];
    assert js[|front|] == last && forall k :: 0 <= k < |front| ==> js[k] == front[k];
  }

  lemma LastOnItsOwn(lv: Leaves, f: Field, held: Val, j: Json)
    requires IsMerged(f)
    requires held.VObj? && |held.slots| == |f.sch.fields|
    ensures DecField(lv, f, held, j).Ok? <==> Alone(lv, f, j).Ok?
    ensures Alone(lv, f, j) == Dec(lv, f.sch, Zero(lv, f.sch), j)
  {
    NilOrZero(lv, f.sch.fields, j);
    if j.JObj? { Refill(lv, f.sch.fields, held, j.members); }
  }

  lemma NilOrZero(lv: Leaves, fields: seq<Field>, j: Json)
    ensures Dec(lv, Obj(fields), VNil, j) == Dec(lv, Obj(fields), Zero(lv, Obj(fields)), j)
  {
    var zero := Zero(lv, Obj(fields));
    assert zero == VObj(ZeroSlots(lv, fields));
    assert Slots(lv, fields, VNil) == Slots(lv, fields, zero);
  }

  /** A struct sent repeatedly under one name is merged. The result is what the last occurrence alone
      would give, that one being good, if and only if each of them decodes on its own and the last has
      every optional field any of them has. */
  lemma RepeatMerges(lv: Leaves, f: Field, front: seq<Json>, last: Json)
    requires IsMerged(f)
    requires Fold(lv, f, Zero(lv, f.sch), [last]).Ok?
    ensures Fold(lv, f, Zero(lv, f.sch), front + [last]) == Fold(lv, f, Zero(lv, f.sch), [last])
      <==> GoodRepeats(lv, f, front + [last])
  {
    EachDecodes(lv, f, front + [last]);
    if AllDecode(lv, f, front + [last]) {
      FoldSnoc(lv, f, Zero(lv, f.sch), front, last);
      OneValue(lv, f, last);
      FoldedObjects(lv, f, front);
      MergeStep(lv, f.sch.fields, front, last, Fold(lv, f, Zero(lv, f.sch), front).value);
    }
  }

  /** The last of the objects, decoded into what the others left. */
  lemma MergeStep(lv: Leaves, fields: seq<Field>, front: seq<Json>, last: Json, held: Val)
    requires ObjOk(fields) && forall i :: 0 <= i < |fields| ==> FieldOverwrites(fields[i])
    requires held.VObj? && |held.slots| == |fields|
    requires forall i: nat :: i < |fields| && !fields[i].required ==>
      (held.slots[i] == VUnset <==> !Given(fields[i].name, front))
    requires Dec(lv, Obj(fields), held, last).Ok?
    ensures Dec(lv, Obj(fields), Zero(lv, Obj(fields)), last).Ok?
    ensures Dec(lv, Obj(fields), held, last) == Dec(lv, Obj(fields), Zero(lv, Obj(fields)), last)
      <==> OptionalsKept(fields, front + [last])
  {
    Refill(lv, fields, held, last.members);
    var merged, alone := Dec(lv, Obj(fields), held, last).value,
        Dec(lv, Obj(fields), Zero(lv, Obj(fields)), last).value;
    forall i: nat | i < |fields|
      ensures merged.slots[i] == alone.slots[i] <==> (!fields[i].required ==> NotLost(fields[i].name, front + [last]))
    {
      MergedSlot(fields, i, front, last, held.slots[i], merged.slots[i], alone.slots[i]);
    }
    assert merged.slots == alone.slots <==> forall i: nat :: i < |fields| ==> merged.slots[i] == alone.slots[i];
  }

  lemma MergedSlot(fields: seq<Field>, i: nat, front: seq<Json>, last: Json, held: Val, merged: Val, alone: Val)
    requires i < |fields| && last.JObj? && Refilled(fields, i, held, last.members, merged, alone)
    requires !fields[i].required ==> (held == VUnset <==> !Given(fields[i].name, front))
    ensures merged == alone <==> (!fields[i].required ==> NotLost(fields[i].name, front + [last]))
  {
    GivenSnoc(fields[i].name, front, last);
  }

  lemma OneValue(lv: Leaves, f: Field, j: Json)
    requires f.required
    ensures Fold(lv, f, Zero(lv, f.sch), [j]) == Dec(lv, f.sch, Zero(lv, f.sch), j)
  {
    assert [j][1..] == [];
  }

  /** The same for an object whose first field is such a struct. */
  lemma RepeatedFirst(lv: Leaves, fields: seq<Field>, ms: Members, once: Members, front: seq<Json>, last: Json)
    requires fields != [] && ObjOk(fields) && IsMerged(fields[0])
    requires Dec(lv, Obj(fields), Zero(lv, Obj(fields)), JObj(once)).Ok?
    requires Under(fields[0].name, ms) == front + [last] && Under(fields[0].name, once) == [last]
    requires forall i: nat :: 0 < i < |fields| ==> Under(fields[i].name, ms) == Under(fields[i].name, once)
    ensures Dec(lv, Obj(fields), Zero(lv, Obj(fields)), JObj(ms)) ==
      Dec(lv, Obj(fields), Zero(lv, Obj(fields)), JObj(once))
      <==> GoodRepeats(lv, fields[0], front + [last])
  {
    FirstDecodes(lv, fields, once);
    RepeatMerges(lv, fields[0], front, last);
    EachDecodes(lv, fields[0], front + [last]);
    if AllDecode(lv, fields[0], front + [last]) {
      FirstSlot(lv, fields, once, ms);
    } else {
      FirstFails(lv, fields, ms);
    }
  }

  lemma FirstDecodes(lv: Leaves, fields: seq<Field>, ms: Members)
    requires fields != [] && ObjOk(fields) && fields[0].required
    requires Dec(lv, Obj(fields), Zero(lv, Obj(fields)), JObj(ms)).Ok?
    ensures ZeroSlots(lv, fields)[0] == Zero(lv, fields[0].sch)
    ensures Fold(lv, fields[0], Zero(lv, fields[0].sch), Under(fields[0].name, ms)).Ok?
  {
    DecodeMeans(lv, fields, ms);
  }

  lemma FirstFails(lv: Leaves, fields: seq<Field>, ms: Members)
    requires fields != [] && ObjOk(fields) && fields[0].required
    requires Fold(lv, fields[0], Zero(lv, fields[0].sch), Under(fields[0].name, ms)).Err?
    ensures Dec(lv, Obj(fields), Zero(lv, Obj(fields)), JObj(ms)).Err?
  {
    if Dec(lv, Obj(fields), Zero(lv, Obj(fields)), JObj(ms)).Ok? {
      FirstDecodes(lv, fields, ms);
      assert false;
    }
  }

  const USER_FIELD := Req("user", GITHUB_USER_SCHEMA)

  /** An authenticated user whose `user` was sent any number of times, against the same object with
      only the last of them, which decodes: they decode alike if and only if each `user` decodes on its
      own and the last has every optional date that any of them has. */
  lemma RepeatedUser(lv: Leaves, ms: Members, once: Members)
    requires Dec(lv, AUTHENTICATED_USER_SCHEMA, Zero(lv, AUTHENTICATED_USER_SCHEMA), JObj(once)).Ok?
    requires Under("user", ms) != [] && Under("user", once) == [Under("user", ms)[|Under("user", ms)| - 1]]
    requires Under("bearer_token", once) == Under("bearer_token", ms)
    requires Under("team_memberships", once) == Under("team_memberships", ms)
    ensures var zero, js := Zero(lv, AUTHENTICATED_USER_SCHEMA), Under("user", ms);
      Dec(lv, AUTHENTICATED_USER_SCHEMA, zero, JObj(ms)) == Dec(lv, AUTHENTICATED_USER_SCHEMA, zero, JObj(once))
      <==> AllDecode(lv, USER_FIELD, js) && NotLost("created_at", js) && NotLost("updated_at", js)
  {
    UserFields();
    OthersSame(ms, once);
    var js := Under("user", ms);
    var front, last := js[..|js| - 1], js[|js| - 1];
    assert js == front + [last];
    RepeatedFirst(lv, AUTHENTICATED_USER_SCHEMA.fields, ms, once, front, last);
    OptionalDates(js);
  }

  lemma OthersSame(ms: Members, once: Members)
    requires Under("bearer_token", once) == Under("bearer_token", ms)
    requires Under("team_memberships", once) == Under("team_memberships", ms)
    ensures var fields := AUTHENTICATED_USER_SCHEMA.fields;
      forall i: nat :: 0 < i < |fields| ==> Under(fields[i].name, ms) == Under(fields[i].name, once)
  {
    var fields := AUTHENTICATED_USER_SCHEMA.fields;
    forall i: nat | 0 < i < |fields| ensures Under(fields[i].name, ms) == Under(fields[i].name, once) {
      assert i == 1 || i == 2;
    }
  }

  lemma UserFields()
    ensures var fields := AUTHENTICATED_USER_SCHEMA.fields;
      |fields| == 3 && ObjOk(fields) && fields[0] == USER_FIELD
      && IsMerged(fields[0])
  {
    GitHubUserOk();
    GitHubFields();
  }

  lemma OptionalDates(js: seq<Json>)
    requires js != []
    ensures OptionalsKept(GITHUB_USER_SCHEMA.fields, js) <==> NotLost("created_at", js) && NotLost("updated_at", js)
  {
    GitHubFields();
    assert forall i :: 0 <= i < 8 && !GITHUB_USER_SCHEMA.fields[i].required ==> i == 6 || i == 7;
  }

  /** Objects that differ in the values of their first field only decode alike exactly as that field
      does. */
  lemma FirstSlot(lv: Leaves, fields: seq<Field>, a: Members, b: Members)
    requires fields != [] && ObjOk(fields) && (Present(fields, 0, a) <==> Present(fields, 0, b))
    requires forall i: nat :: 0 < i < |fields| ==> Under(fields[i].name, a) == Under(fields[i].name, b)
    requires Dec(lv, Obj(fields), Zero(lv, Obj(fields)), JObj(a)).Ok?
    requires Fold(lv, fields[0], ZeroSlots(lv, fields)[0], Under(fields[0].name, b)).Ok?
    ensures Dec(lv, Obj(fields), Zero(lv, Obj(fields)), JObj(b)).Ok?
    ensures var f, zero := fields[0], ZeroSlots(lv, fields)[0];
      Dec(lv, Obj(fields), Zero(lv, Obj(fields)), JObj(a)) == Dec(lv, Obj(fields), Zero(lv, Obj(fields)), JObj(b))
      <==> Fold(lv, f, zero, Under(f.name, a)) == Fold(lv, f, zero, Under(f.name, b))
  {
    DecodeMeans(lv, fields, a);
    DecodeMeans(lv, fields, b);
    var zero := ZeroSlots(lv, fields);
    forall i: nat | i < |fields|
      ensures Fold(lv, fields[i], zero[i], Under(fields[i].name, b)).Ok?
      ensures fields[i].required ==> Present(fields, i, b)
    {
      if i > 0 { assert Fold(lv, fields[i], zero[i], Under(fields[i].name, a)).Ok?; }
    }
    var ra, rb := Dec(lv, Obj(fields), Zero(lv, Obj(fields)), JObj(a)).value,
        Dec(lv, Obj(fields), Zero(lv, Obj(fields)), JObj(b)).value;
    forall i: nat | 0 < i < |fields| ensures ra.slots[i] == rb.slots[i] {
      assert Ok(ra.slots[i]) == Fold(lv, fields[i], zero[i], Under(fields[i].name, a));
    }
    assert ra.slots == rb.slots <==> ra.slots[0] == rb.slots[0];
  }
}
