/** What the codec promises on trees: the round trip, and what decoding an object with any members in
    any order means. */
module JsonTheorems {
  import opened Wrappers
  import opened JsonTokens
  import opened JsonSchema

  // ---------- Round trip ----------

  /** A receiver whose optional fields are unset, at every level a decoder merges into. */
  predicate Blank(sch: Schema, recv: Val)
    decreases sch
  {
    sch.Obj? && recv.VObj? && |recv.slots| == |sch.fields| ==>
      forall i :: 0 <= i < |sch.fields| ==>
        if sch.fields[i].required then Blank(sch.fields[i].sch, recv.slots[i]) else recv.slots[i] == VUnset
  }

  predicate BlankSlot(f: Field, slot: Val) { if f.required then Blank(f.sch, slot) else slot == VUnset }

  lemma {:induction false} ZeroBlank(lv: Leaves, sch: Schema)
    ensures Blank(sch, Zero(lv, sch))
    decreases sch
  {
    if sch.Obj? { ZeroSlotsBlank(lv, sch.fields); }
  }

  lemma {:induction false} ZeroSlotsBlank(lv: Leaves, fields: seq<Field>)
    ensures forall i :: 0 <= i < |fields| ==> BlankSlot(fields[i], ZeroSlots(lv, fields)[i])
    decreases fields
  {
    if fields != [] {
      ZeroBlank(lv, fields[0].sch);
      ZeroSlotsBlank(lv, fields[1..]);
      assert forall i :: 1 <= i < |fields| ==> fields[i] == fields[1..][i - 1];
    }
  }

  lemma {:induction false} IndexOfField(fields: seq<Field>, k: nat)
    requires k < |fields|
    requires forall i, j :: 0 <= i < j < |fields| ==> fields[i].name != fields[j].name
    ensures FieldIndex(fields, fields[k].name) == k
    decreases fields
  {
    if k > 0 {
      assert fields[1..][k - 1] == fields[k];
      IndexOfField(fields[1..], k - 1);
    }
  }

  predicate Seen(fields: seq<Field>, seen: set<nat>) {
    forall i: nat :: i < |fields| && fields[i].required ==> i in seen
  }

  lemma {:induction false} NothingMissing(fields: seq<Field>, seen: set<nat>, i: nat)
    ensures Missing(fields, seen, i) == [] <==> forall k: nat :: i <= k < |fields| && fields[k].required ==> k in seen
    decreases |fields| - i
  {
    if i < |fields| { NothingMissing(fields, seen, i + 1); }
  }

  /** Decoding what was encoded gives the value back, nil slices having become empty ones, for any
      receiver that brings no optional field along. */
  lemma {:induction false} RoundTrip(lv: Leaves, sch: Schema, v: Val, recv: Val)
    requires SchemaOk(sch) && Typed(lv, sch, v) && Blank(sch, recv)
    ensures Dec(lv, sch, recv, ToJson(lv, sch, v)) == Ok(Canon(v))
    decreases v, 1
  {
    match sch
    case Text(_) =>
    case Formatted(_) =>
    case Arr(elem) => if v.VSlice? { ItemsRoundTrip(lv, elem, v.elems); }
    case Obj(fields) =>
      var p := Progress(Slots(lv, fields, recv), {});
      ZeroSlotsBlank(lv, fields);
      assert fields[0..] == fields && v.slots[0..] == v.slots;
      MembersRoundTrip(lv, fields, v.slots, 0, p);
      var q := DecMembers(lv, fields, p, MembersJson(lv, fields, v.slots)).value;
      NothingMissing(fields, q.seen, 0);
  }

  lemma {:induction false} ItemsRoundTrip(lv: Leaves, elem: Schema, vs: seq<Val>)
    requires SchemaOk(elem) && forall i :: 0 <= i < |vs| ==> Typed(lv, elem, vs[i])
    ensures DecItems(lv, elem, ItemsJson(lv, elem, vs)) == Ok(CanonAll(vs))
    decreases vs, 0
  {
    if vs != [] {
      ZeroBlank(lv, elem);
      RoundTrip(lv, elem, vs[0], Zero(lv, elem));
      ItemsRoundTrip(lv, elem, vs[1..]);
    }
  }

  lemma {:induction false} SlotRoundTrip(lv: Leaves, f: Field, slot: Val, recv: Val)
    requires SchemaOk(f.sch) && TypedSlot(lv, f, slot) && BlankSlot(f, recv)
    ensures match SlotJson(lv, f, slot)
      case Some(j) => DecField(lv, f, recv, j) == Ok(Canon(slot))
      case None => !f.required && Canon(slot) == recv == VUnset
    decreases slot, 2
  {
    if f.required {
      RoundTrip(lv, f.sch, slot, recv);
    } else if slot.VSet? {
      ZeroBlank(lv, f.sch);
      RoundTrip(lv, f.sch, slot.value, Zero(lv, f.sch));
    }
  }

  predicate ObjOk(fields: seq<Field>) {
    (forall i, j :: 0 <= i < j < |fields| ==> fields[i].name != fields[j].name)
    && forall i :: 0 <= i < |fields| ==> SchemaOk(fields[i].sch)
  }

  /** The member a field becomes stands in front of those of the fields after it. */
  lemma MembersJsonAt(lv: Leaves, fields: seq<Field>, slots: seq<Val>, k: nat)
    requires k < |fields| == |slots|
    ensures MembersJson(lv, fields[k..], slots[k..]) ==
      match SlotJson(lv, fields[k], slots[k])
      case Some(j) => MCons(fields[k].name, j, MembersJson(lv, fields[k + 1..], slots[k + 1..]))
      case None => MembersJson(lv, fields[k + 1..], slots[k + 1..])
  {
    assert fields[k..][1..] == fields[k + 1..] && slots[k..][1..] == slots[k + 1..];
  }

  lemma {:induction false} MembersRoundTrip(lv: Leaves, fields: seq<Field>, slots: seq<Val>, k: nat, p: Progress)
    requires ObjOk(fields) && k <= |fields| == |slots| == |p.slots|
    requires forall i :: k <= i < |fields| ==> TypedSlot(lv, fields[i], slots[i]) && BlankSlot(fields[i], p.slots[i])
    requires forall i :: 0 <= i < k ==> p.slots[i] == Canon(slots[i])
    requires forall i: nat :: i < k && fields[i].required ==> i in p.seen
    ensures var r := DecMembers(lv, fields, p, MembersJson(lv, fields[k..], slots[k..]));
      r.Ok? && r.value.slots == CanonAll(slots) && Seen(fields, r.value.seen)
    decreases slots, |slots| - k
  {
    if k < |fields| {
      MembersJsonAt(lv, fields, slots, k);
      SlotRoundTrip(lv, fields[k], slots[k], p.slots[k]);
      IndexOfField(fields, k);
      match SlotJson(lv, fields[k], slots[k])
      case Some(j) => MembersRoundTrip(lv, fields, slots, k + 1, Record(fields, p, k, Canon(slots[k])));
      case None => MembersRoundTrip(lv, fields, slots, k + 1, p);
    } else {
      assert p.slots == CanonAll(slots);
    }
  }

  // ---------- Receivers that do not matter ----------

  /** Types whose decoder overwrites everything it returns: every field of every nested struct is
      required. */
  predicate Overwrites(sch: Schema)
    decreases sch
  {
    sch.Obj? ==> forall i :: 0 <= i < |sch.fields| ==> sch.fields[i].required && Overwrites(sch.fields[i].sch)
  }

  predicate FieldOverwrites(f: Field) { f.required ==> Overwrites(f.sch) }

  /** Such a decoder gives one result whatever struct it writes into. */
  lemma {:induction false} ReceiverIrrelevant(lv: Leaves, sch: Schema, r1: Val, r2: Val, j: Json)
    requires Overwrites(sch)
    ensures Dec(lv, sch, r1, j) == Dec(lv, sch, r2, j)
    decreases j, 0
  {
    if sch.Obj? && j.JObj? {
      var p1, p2 := Progress(Slots(lv, sch.fields, r1), {}), Progress(Slots(lv, sch.fields, r2), {});
      MembersIrrelevant(lv, sch.fields, p1, p2, j.members);
      var d1, d2 := DecMembers(lv, sch.fields, p1, j.members), DecMembers(lv, sch.fields, p2, j.members);
      if d1.Ok? {
        NothingMissing(sch.fields, d1.value.seen, 0);
        if Missing(sch.fields, d1.value.seen, 0) == [] { assert d1.value.slots == d2.value.slots; }
      }
    }
  }

  predicate AgreeOn(seen: set<nat>, a: seq<Val>, b: seq<Val>) {
    |a| == |b| && forall i: nat :: i in seen && i < |a| ==> a[i] == b[i]
  }

  lemma {:induction false} MembersIrrelevant(lv: Leaves, fields: seq<Field>, p1: Progress, p2: Progress, ms: Members)
    requires forall i :: 0 <= i < |fields| ==> fields[i].required && Overwrites(fields[i].sch)
    requires |p1.slots| == |fields| && p1.seen == p2.seen && AgreeOn(p1.seen, p1.slots, p2.slots)
    ensures match (DecMembers(lv, fields, p1, ms), DecMembers(lv, fields, p2, ms))
      case (Ok(q1), Ok(q2)) => q1.seen == q2.seen && AgreeOn(q1.seen, q1.slots, q2.slots)
      case (Err(e1), Err(e2)) => e1 == e2
      case _ => false
    decreases ms
  {
    if ms.MCons? {
      var i := FieldIndex(fields, ms.name);
      if i < 0 {
        MembersIrrelevant(lv, fields, p1, p2, ms.tail);
      } else {
        ReceiverIrrelevant(lv, fields[i].sch, p1.slots[i], p2.slots[i], ms.value);
        var d := DecField(lv, fields[i], p1.slots[i], ms.value);
        assert DecField(lv, fields[i], p2.slots[i], ms.value) == d;
        if d.Ok? {
          MembersIrrelevant(lv, fields, Record(fields, p1, i, d.value), Record(fields, p2, i, d.value), ms.tail);
        }
      }
    }
  }

  lemma FieldIrrelevant(lv: Leaves, f: Field, r1: Val, r2: Val, j: Json)
    requires FieldOverwrites(f)
    ensures DecField(lv, f, r1, j) == DecField(lv, f, r2, j)
  {
    if f.required { ReceiverIrrelevant(lv, f.sch, r1, r2, j); }
  }

  // ---------- Objects with any members ----------

  /** The values that stand under a name, in order. */
  function Under(name: string, ms: Members): seq<Json> {
    match ms
    case MNil => []
    case MCons(n, j, rest) => (if n == name then [j] else []) + Under(name, rest)
  }

  /** What a field holds after the values under its name were decoded one after another, each into
      what was there before it. */
  function Fold(lv: Leaves, f: Field, slot: Val, js: seq<Json>): Result<Val, DecodeError>
    decreases |js|
  {
    if js == [] then Ok(slot)
    else
      match DecField(lv, f, slot, js[0])
      case Err(e) => Err(e)
      case Ok(v) => Fold(lv, f, v, js[1..])
  }

  predicate Decodable(lv: Leaves, fields: seq<Field>, slots: seq<Val>, ms: Members)
    requires |slots| == |fields|
  {
    forall i :: 0 <= i < |fields| ==> Fold(lv, fields[i], slots[i], Under(fields[i].name, ms)).Ok?
  }

  predicate Present(fields: seq<Field>, i: nat, ms: Members)
    requires i < |fields|
  {
    Under(fields[i].name, ms) != []
  }

  /** Every required name occurs. */
  predicate AllPresent(fields: seq<Field>, ms: Members) {
    forall i: nat :: i < |fields| && fields[i].required ==> Present(fields, i, ms)
  }

  lemma UnderCons(fields: seq<Field>, i: nat, ms: Members)
    requires ObjOk(fields) && i < |fields| && ms.MCons?
    ensures Under(fields[i].name, ms) ==
      (if FieldIndex(fields, ms.name) == i then [ms.value] else []) + Under(fields[i].name, ms.tail)
  {
    IndexOfField(fields, i);
  }

  lemma FoldCons(lv: Leaves, f: Field, slot: Val, j: Json, js: seq<Json>)
    requires DecField(lv, f, slot, j).Ok?
    ensures Fold(lv, f, slot, [j] + js) == Fold(lv, f, DecField(lv, f, slot, j).value, js)
  {
    assert ([j] + js)[1..] == js;
  }

  lemma {:induction false} FoldSnoc(lv: Leaves, f: Field, slot: Val, js: seq<Json>, j: Json)
    ensures var front := Fold(lv, f, slot, js);
      Fold(lv, f, slot, js + [j]) == if front.Err? then front else DecField(lv, f, front.value, j)
    decreases |js|
  {
    if js == [] {
      assert js + [j] == [j];
    } else {
      assert (js + [j])[1..] == js[1..] + [j];
      var d := DecField(lv, f, slot, js[0]);
      if d.Ok? { FoldSnoc(lv, f, d.value, js[1..], j); }
    }
  }

  /** A member is decoded into its own field, and the other fields do not see it. */
  lemma FoldMember(lv: Leaves, fields: seq<Field>, p: Progress, ms: Members, i: nat)
    requires ObjOk(fields) && |p.slots| == |fields| && i < |fields| && ms.MCons?
    ensures var d, js := DecField(lv, fields[i], p.slots[i], ms.value), Under(fields[i].name, ms.tail);
      Fold(lv, fields[i], p.slots[i], Under(fields[i].name, ms)) ==
        if FieldIndex(fields, ms.name) != i then Fold(lv, fields[i], p.slots[i], js)
        else if d.Err? then d
        else Fold(lv, fields[i], d.value, js)
  {
    UnderCons(fields, i, ms);
    var js := Under(fields[i].name, ms.tail);
    if FieldIndex(fields, ms.name) == i {
      assert Under(fields[i].name, ms)[0] == ms.value;
      if DecField(lv, fields[i], p.slots[i], ms.value).Ok? { FoldCons(lv, fields[i], p.slots[i], ms.value, js); }
    } else {
      assert Under(fields[i].name, ms) == js;
    }
  }

  /** The members of an object are decoded field by field: each field depends on the values under its
      own name alone. */
  lemma {:induction false} MembersMean(lv: Leaves, fields: seq<Field>, p: Progress, ms: Members)
    requires ObjOk(fields) && |p.slots| == |fields|
    ensures DecMembers(lv, fields, p, ms).Ok? <==> Decodable(lv, fields, p.slots, ms)
    ensures DecMembers(lv, fields, p, ms).Ok? ==> forall i: nat :: i < |fields| ==>
      Ok(DecMembers(lv, fields, p, ms).value.slots[i]) == Fold(lv, fields[i], p.slots[i], Under(fields[i].name, ms))
    ensures DecMembers(lv, fields, p, ms).Ok? ==> forall i: nat :: i < |fields| && fields[i].required ==>
      (i in DecMembers(lv, fields, p, ms).value.seen <==> i in p.seen || Present(fields, i, ms))
    decreases ms
  {
    if ms.MCons? {
      var k := FieldIndex(fields, ms.name);
      forall i: nat | i < |fields|
        ensures Under(fields[i].name, ms) == (if k == i then [ms.value] else []) + Under(fields[i].name, ms.tail)
      {
        UnderCons(fields, i, ms);
      }
      if k < 0 {
        MembersMean(lv, fields, p, ms.tail);
        assert forall i: nat :: i < |fields| ==> Under(fields[i].name, ms) == Under(fields[i].name, ms.tail);
      } else {
        FoldMember(lv, fields, p, ms, k);
        var d := DecField(lv, fields[k], p.slots[k], ms.value);
        if d.Ok? { KnownMember(lv, fields, p, ms, k, d.value); }
      }
    }
  }

  lemma {:induction false} KnownMember(lv: Leaves, fields: seq<Field>, p: Progress, ms: Members, k: nat, v: Val)
    requires ObjOk(fields) && |p.slots| == |fields| && ms.MCons? && k < |fields| && FieldIndex(fields, ms.name) == k
    requires DecField(lv, fields[k], p.slots[k], ms.value) == Ok(v)
    ensures DecMembers(lv, fields, p, ms).Ok? <==> Decodable(lv, fields, p.slots, ms)
    ensures DecMembers(lv, fields, p, ms).Ok? ==> forall i: nat :: i < |fields| ==>
      Ok(DecMembers(lv, fields, p, ms).value.slots[i]) == Fold(lv, fields[i], p.slots[i], Under(fields[i].name, ms))
    ensures DecMembers(lv, fields, p, ms).Ok? ==> forall i: nat :: i < |fields| && fields[i].required ==>
      (i in DecMembers(lv, fields, p, ms).value.seen <==> i in p.seen || Present(fields, i, ms))
    decreases ms, 0
  {
    var q := Record(fields, p, k, v);
    MembersMean(lv, fields, q, ms.tail);
    forall i: nat | i < |fields|
      ensures Fold(lv, fields[i], p.slots[i], Under(fields[i].name, ms)) ==
        Fold(lv, fields[i], q.slots[i], Under(fields[i].name, ms.tail))
      ensures Present(fields, i, ms) <==> i == k || Present(fields, i, ms.tail)
    {
      FoldMember(lv, fields, p, ms, i);
      UnderCons(fields, i, ms);
    }
  }

  /** Decoding an object into a fresh struct, whatever its members and their order. It succeeds
      exactly when the values under every field's name decode, one after another, and every required
      name is present; then each field holds what these values leave in it. When only names are
      missing, the failure lists them. */
  lemma DecodeMeans(lv: Leaves, fields: seq<Field>, ms: Members)
    requires ObjOk(fields)
    ensures var r := Dec(lv, Obj(fields), Zero(lv, Obj(fields)), JObj(ms));
      r.Ok? <==> Decodable(lv, fields, ZeroSlots(lv, fields), ms) && AllPresent(fields, ms)
    ensures var r := Dec(lv, Obj(fields), Zero(lv, Obj(fields)), JObj(ms));
      r.Ok? ==> r.value.VObj? && |r.value.slots| == |fields| && forall i: nat :: i < |fields| ==>
        Ok(r.value.slots[i]) == Fold(lv, fields[i], ZeroSlots(lv, fields)[i], Under(fields[i].name, ms))
    ensures var r := Dec(lv, Obj(fields), Zero(lv, Obj(fields)), JObj(ms));
      Decodable(lv, fields, ZeroSlots(lv, fields), ms) && r.Err? ==> r.error == MissingFields(Absent(fields, ms, 0))
  {
    var p := Progress(ZeroSlots(lv, fields), {});
    MembersMean(lv, fields, p, ms);
    var d := DecMembers(lv, fields, p, ms);
    if d.Ok? {
      NothingMissing(fields, d.value.seen, 0);
      MissingIsAbsent(fields, d.value.seen, ms, 0);
    }
  }

  // ---------- Where the last occurrence decides ----------

  /** What one value of a field decodes to, into a fresh struct. */
  function Alone(lv: Leaves, f: Field, j: Json): Result<Val, DecodeError> { DecField(lv, f, VNil, j) }

  predicate AllDecode(lv: Leaves, f: Field, js: seq<Json>) { forall k :: 0 <= k < |js| ==> Alone(lv, f, js[k]).Ok? }

  /** A field whose decoder overwrites everything holds the last of its values, or what was there
      before when there is none. Strings, dates, slices and optional fields are such. */
  lemma {:induction false} LastDecides(lv: Leaves, f: Field, slot: Val, js: seq<Json>)
    requires FieldOverwrites(f)
    ensures Fold(lv, f, slot, js).Ok? <==> AllDecode(lv, f, js)
    ensures Fold(lv, f, slot, js).Ok? ==>
      Fold(lv, f, slot, js) == if js == [] then Ok(slot) else Alone(lv, f, js[|js| - 1])
    decreases |js|
  {
    if js != [] {
      FieldIrrelevant(lv, f, slot, VNil, js[0]);
      var d := Alone(lv, f, js[0]);
      assert AllDecode(lv, f, js) <==> d.Ok? && AllDecode(lv, f, js[1..]) by { AllDecodeCons(lv, f, js); }
      if d.Ok? { LastDecides(lv, f, d.value, js[1..]); }
    }
  }

  lemma AllDecodeCons(lv: Leaves, f: Field, js: seq<Json>)
    requires js != []
    ensures AllDecode(lv, f, js) <==> Alone(lv, f, js[0]).Ok? && AllDecode(lv, f, js[1..])
  {
    assert forall k :: 1 <= k < |js| ==> js[k] == js[1..][k - 1];
    assert forall k :: 0 <= k < |js| - 1 ==> js[1..][k] == js[k + 1];
  }

  // ---------- Names that are missing ----------

  /** The required names without a value, in index order. */
  function Absent(fields: seq<Field>, ms: Members, i: nat): (names: seq<string>)
    decreases |fields| - i
  {
    if i >= |fields| then []
    else (if fields[i].required && !Present(fields, i, ms) then [fields[i].name] else []) + Absent(fields, ms, i + 1)
  }

  lemma {:induction false} MissingIsAbsent(fields: seq<Field>, seen: set<nat>, ms: Members, i: nat)
    requires forall k: nat :: k < |fields| && fields[k].required ==> (k in seen <==> Present(fields, k, ms))
    ensures Missing(fields, seen, i) == Absent(fields, ms, i)
    decreases |fields| - i
  {
    if i < |fields| { MissingIsAbsent(fields, seen, ms, i + 1); }
  }

  /** The list of absent names holds each absent required name once and nothing else. */
  lemma AbsentExact(fields: seq<Field>, ms: Members, i: nat)
    requires ObjOk(fields)
    ensures forall name :: name in Absent(fields, ms, i) <==> AbsentName(fields, ms, i, name)
    ensures forall a, b :: 0 <= a < b < |Absent(fields, ms, i)| ==> Absent(fields, ms, i)[a] != Absent(fields, ms, i)[b]
  {
    AbsentNames(fields, ms, i);
    AbsentOnce(fields, ms, i);
  }

  predicate AbsentHere(fields: seq<Field>, ms: Members, k: nat, name: string)
    requires k < |fields|
  {
    fields[k].required && fields[k].name == name && !Present(fields, k, ms)
  }

  /** A required field at `i` or after it has this name and no value. */
  predicate AbsentName(fields: seq<Field>, ms: Members, i: nat, name: string) {
    exists k: nat :: i <= k < |fields| && AbsentHere(fields, ms, k, name)
  }

  lemma {:induction false} AbsentNames(fields: seq<Field>, ms: Members, i: nat)
    ensures forall name :: name in Absent(fields, ms, i) <==> AbsentName(fields, ms, i, name)
    decreases |fields| - i
  {
    if i < |fields| {
      AbsentNames(fields, ms, i + 1);
      forall name ensures name in Absent(fields, ms, i) <==> AbsentName(fields, ms, i, name) {
        assert AbsentName(fields, ms, i, name) <==>
          AbsentHere(fields, ms, i, name) || AbsentName(fields, ms, i + 1, name);
      }
    }
  }

  lemma {:induction false} AbsentOnce(fields: seq<Field>, ms: Members, i: nat)
    requires ObjOk(fields)
    ensures forall a, b :: 0 <= a < b < |Absent(fields, ms, i)| ==> Absent(fields, ms, i)[a] != Absent(fields, ms, i)[b]
    decreases |fields| - i
  {
    if i < |fields| {
      AbsentOnce(fields, ms, i + 1);
      AbsentNames(fields, ms, i + 1);
      var rest := Absent(fields, ms, i + 1);
      assert fields[i].name !in rest;
      assert Absent(fields, ms, i) == rest || Absent(fields, ms, i) == [fields[i].name] + rest;
    }
  }

  /** Two objects with the same values under every field's name decode alike: neither the order of
      distinct names nor unknown names matter. */
  lemma OrderIrrelevant(lv: Leaves, fields: seq<Field>, a: Members, b: Members)
    requires ObjOk(fields) && forall i :: 0 <= i < |fields| ==> Under(fields[i].name, a) == Under(fields[i].name, b)
    ensures var z := Zero(lv, Obj(fields));
      var ra, rb := Dec(lv, Obj(fields), z, JObj(a)), Dec(lv, Obj(fields), z, JObj(b));
      (ra.Ok? <==> rb.Ok?) && (ra.Ok? || Decodable(lv, fields, ZeroSlots(lv, fields), a) ==> ra == rb)
  {
    DecodeMeans(lv, fields, a);
    DecodeMeans(lv, fields, b);
    SameAbsent(fields, a, b, 0);
    var z := Zero(lv, Obj(fields));
    var ra, rb := Dec(lv, Obj(fields), z, JObj(a)), Dec(lv, Obj(fields), z, JObj(b));
    assert Decodable(lv, fields, ZeroSlots(lv, fields), a) <==> Decodable(lv, fields, ZeroSlots(lv, fields), b);
    if ra.Ok? && rb.Ok? {
      forall i: nat | i < |fields| ensures ra.value.slots[i] == rb.value.slots[i] {
        assert Ok(ra.value.slots[i]) == Fold(lv, fields[i], ZeroSlots(lv, fields)[i], Under(fields[i].name, a));
      }
      assert ra.value.slots == rb.value.slots;
    }
  }

  lemma {:induction false} SameAbsent(fields: seq<Field>, a: Members, b: Members, i: nat)
    requires forall k :: 0 <= k < |fields| ==> Under(fields[k].name, a) == Under(fields[k].name, b)
    ensures Absent(fields, a, i) == Absent(fields, b, i)
    decreases |fields| - i
  {
    if i < |fields| { SameAbsent(fields, a, b, i + 1); }
  }

  /** Swapping two neighbours with different names, and adding a member with an unknown name, keep
      the values under every field's name. */
  lemma {:induction false} SwapKeepsUnder(front: Members, m: string, jm: Json, n: string, jn: Json, back: Members,
      name: string)
    requires m != n
    ensures Under(name, Append(front, MCons(m, jm, MCons(n, jn, back)))) ==
      Under(name, Append(front, MCons(n, jn, MCons(m, jm, back))))
    ensures name != m ==> Under(name, Append(front, MCons(m, jm, back))) == Under(name, Append(front, back))
  {
    if front.MCons? { SwapKeepsUnder(front.tail, m, jm, n, jn, back, name); }
  }

  function Append(front: Members, back: Members): Members {
    match front
    case MNil => back
    case MCons(name, j, rest) => MCons(name, j, Append(rest, back))
  }
}
