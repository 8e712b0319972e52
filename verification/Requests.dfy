/** Request bodies: decoding, the check for trailing data, and validation. */
module Requests {
  import opened Wrappers
  import opened JsonTokens
  import opened JsonSchema
  import opened JsonTheorems
  import opened JsonCodec

  // ---------- Validation ----------

  datatype Where = AtField(name: string) | AtItem(index: nat)

  datatype Problem = NilSlice | NotInEnum | NotEmail | Failures(list: seq<(Where, Problem)>)

  function Collect(list: seq<(Where, Problem)>): Option<Problem> {
    if list == [] then None else Some(Failures(list))
  }

  /** What a generated `Validate` reports. A field or element without a rule has nothing to report. */
  function Problems(lv: Leaves, sch: Schema, v: Val): Option<Problem>
    decreases v, 1
  {
    match sch
    case Text(rule) =>
      if rule.OneOf? && v.VText? && v.text !in rule.values then Some(NotInEnum)
      else if rule.Email? && v.VText? && !lv.email(v.text) then Some(NotEmail)
      else None
    case Formatted(_) => None
    case Arr(elem) =>
      if v.VNil? then Some(NilSlice) else if v.VSlice? then Collect(ItemProblems(lv, elem, v.elems, 0)) else None
    case Obj(fields) => if v.VObj? then Collect(FieldProblems(lv, fields, v.slots, 0)) else None
  }

  function ItemProblems(lv: Leaves, elem: Schema, vs: seq<Val>, i: nat): seq<(Where, Problem)>
    decreases vs, 0, |vs| - i
  {
    if i >= |vs| then []
    else
      (match Problems(lv, elem, vs[i]) case None => [] case Some(p) => [(AtItem(i), p)])
      + ItemProblems(lv, elem, vs, i + 1)
  }

  function FieldProblems(lv: Leaves, fields: seq<Field>, slots: seq<Val>, i: nat): seq<(Where, Problem)>
    decreases slots, 0, |slots| - i
  {
    if i >= |slots| || i >= |fields| then []
    else
      (match SlotProblem(lv, fields[i], slots[i]) case None => [] case Some(p) => [(AtField(fields[i].name), p)])
      + FieldProblems(lv, fields, slots, i + 1)
  }

  function SlotProblem(lv: Leaves, f: Field, slot: Val): Option<Problem>
    decreases slot, 2
  {
    if f.required then Problems(lv, f.sch, slot) else if slot.VSet? then Problems(lv, f.sch, slot.value) else None
  }

  /** The generated `Validate` methods. */
  method Validate(lv: Leaves, sch: Schema, v: Val) returns (r: Option<Problem>)
    requires Shaped(sch, v)
    ensures r == Problems(lv, sch, v)
    decreases v, 1
  {
    match sch
    case Text(rule) => r := ValidateText(lv, rule, v.text);
    case Formatted(_) => r := None;
    case Arr(elem) => r := ValidateArr(lv, elem, v);
    case Obj(fields) => r := ValidateObj(lv, fields, v);
  }

  method ValidateText(lv: Leaves, rule: Rule, text: string) returns (r: Option<Problem>)
    ensures r == Problems(lv, Text(rule), VText(text))
  {
    match rule
    case AnyText => r := None;
    case OneOf(values) => r := if text in values then None else Some(NotInEnum);
    case Email => r := if lv.email(text) then None else Some(NotEmail);
  }

  method ValidateArr(lv: Leaves, elem: Schema, v: Val) returns (r: Option<Problem>)
    requires Shaped(Arr(elem), v)
    ensures r == Problems(lv, Arr(elem), v)
    decreases v, 0
  {
    if v.VNil? {
      return Some(NilSlice);
    }
    var failures: seq<(Where, Problem)> := [];
    for i := 0 to |v.elems|
      invariant failures + ItemProblems(lv, elem, v.elems, i) == ItemProblems(lv, elem, v.elems, 0)
    {
      ItemStep(lv, elem, v.elems, i, failures);
      var p := Validate(lv, elem, v.elems[i]);
      if p.Some? {
        failures := failures + [(AtItem(i), p.value)];
      }
    }
    assert failures + [] == failures;
    r := if |failures| > 0 then Some(Failures(failures)) else None;
  }

  lemma ItemStep(lv: Leaves, elem: Schema, vs: seq<Val>, i: nat, before: seq<(Where, Problem)>)
    requires i < |vs|
    ensures before + ItemProblems(lv, elem, vs, i) ==
      (match Problems(lv, elem, vs[i]) case None => before case Some(p) => before + [(AtItem(i), p)])
      + ItemProblems(lv, elem, vs, i + 1)
  {
  }

  method ValidateSlot(lv: Leaves, f: Field, slot: Val) returns (r: Option<Problem>)
    requires ShapedSlot(f, slot)
    ensures r == SlotProblem(lv, f, slot)
    decreases slot, 2
  {
    r := None;
    if f.required {
      r := Validate(lv, f.sch, slot);
    } else if slot.VSet? {
      r := Validate(lv, f.sch, slot.value);
    }
  }

  /** The failures are appended to field by field. */
  method ValidateObj(lv: Leaves, fields: seq<Field>, v: Val) returns (r: Option<Problem>)
    requires Shaped(Obj(fields), v)
    ensures r == Problems(lv, Obj(fields), v)
    decreases v, 0
  {
    var failures: seq<(Where, Problem)> := [];
    for i := 0 to |fields|
      invariant failures + FieldProblems(lv, fields, v.slots, i) == FieldProblems(lv, fields, v.slots, 0)
    {
      assert ShapedSlot(fields[i], v.slots[i]);
      var p := ValidateSlot(lv, fields[i], v.slots[i]);
      if p.Some? {
        failures := failures + [(AtField(fields[i].name), p.value)];
      }
    }
    assert failures + [] == failures;
    r := if |failures| > 0 then Some(Failures(failures)) else None;
  }

  /** No nil slice, at any depth. */
  predicate NoNil(v: Val) {
    match v
    case VNil => false
    case VSlice(vs) => forall i :: 0 <= i < |vs| ==> NoNil(vs[i])
    case VObj(slots) => forall i :: 0 <= i < |slots| ==> NoNil(slots[i])
    case VSet(x) => NoNil(x)
    case _ => true
  }

  /** Every string meets the rule of its place. */
  predicate LeavesValid(lv: Leaves, sch: Schema, v: Val)
    decreases v, 1
  {
    match sch
    case Text(rule) => v.VText? ==> (rule.OneOf? ==> v.text in rule.values) && (rule.Email? ==> lv.email(v.text))
    case Formatted(_) => true
    case Arr(elem) => v.VSlice? ==> forall i :: 0 <= i < |v.elems| ==> LeavesValid(lv, elem, v.elems[i])
    case Obj(fields) =>
      v.VObj? ==> forall i :: 0 <= i < |v.slots| && i < |fields| ==> LeavesValidSlot(lv, fields[i], v.slots[i])
  }

  predicate LeavesValidSlot(lv: Leaves, f: Field, slot: Val)
    decreases slot, 2
  {
    if f.required then LeavesValid(lv, f.sch, slot) else slot.VSet? ==> LeavesValid(lv, f.sch, slot.value)
  }

  /** A value without nil slices passes validation exactly when its strings meet their rules. */
  lemma {:induction false} ValidMeans(lv: Leaves, sch: Schema, v: Val)
    requires Shaped(sch, v) && NoNil(v)
    ensures Problems(lv, sch, v) == None <==> LeavesValid(lv, sch, v)
    decreases v, 1
  {
    match sch
    case Text(_) =>
    case Formatted(_) =>
    case Arr(elem) => ItemsValidMean(lv, elem, v.elems, 0);
    case Obj(fields) => FieldsValidMean(lv, fields, v.slots, 0);
  }

  /** The value has the shape of its type; nothing is asked of its leaves. */
  predicate Shaped(sch: Schema, v: Val)
    decreases v, 0
  {
    match sch
    case Text(_) => v.VText?
    case Formatted(_) => v.VFormatted?
    case Arr(elem) => v.VNil? || (v.VSlice? && forall i :: 0 <= i < |v.elems| ==> Shaped(elem, v.elems[i]))
    case Obj(fields) =>
      v.VObj? && |v.slots| == |fields| && forall i :: 0 <= i < |fields| ==> ShapedSlot(fields[i], v.slots[i])
  }

  predicate ShapedSlot(f: Field, slot: Val)
    decreases slot, 1
  {
    if f.required then Shaped(f.sch, slot) else slot.VUnset? || (slot.VSet? && Shaped(f.sch, slot.value))
  }

  lemma {:induction false} ItemsValidMean(lv: Leaves, elem: Schema, vs: seq<Val>, i: nat)
    requires i <= |vs| && forall k :: 0 <= k < |vs| ==> Shaped(elem, vs[k]) && NoNil(vs[k])
    ensures ItemProblems(lv, elem, vs, i) == [] <==> forall k :: i <= k < |vs| ==> LeavesValid(lv, elem, vs[k])
    decreases vs, 0, |vs| - i
  {
    if i < |vs| {
      ValidMeans(lv, elem, vs[i]);
      ItemsValidMean(lv, elem, vs, i + 1);
    }
  }

  lemma {:induction false} FieldsValidMean(lv: Leaves, fields: seq<Field>, slots: seq<Val>, i: nat)
    requires i <= |fields| == |slots| && forall k :: 0 <= k < |slots| ==>
      ShapedSlot(fields[k], slots[k]) && NoNil(slots[k])
    ensures FieldProblems(lv, fields, slots, i) == []
      <==> forall k :: i <= k < |slots| ==> LeavesValidSlot(lv, fields[k], slots[k])
    decreases slots, 0, |slots| - i
  {
    if i < |slots| {
      SlotValidMeans(lv, fields[i], slots[i]);
      FieldsValidMean(lv, fields, slots, i + 1);
    }
  }

  lemma {:induction false} SlotValidMeans(lv: Leaves, f: Field, slot: Val)
    requires ShapedSlot(f, slot) && NoNil(slot)
    ensures SlotProblem(lv, f, slot) == None <==> LeavesValidSlot(lv, f, slot)
    decreases slot, 2
  {
    if f.required { ValidMeans(lv, f.sch, slot); } else if slot.VSet? { ValidMeans(lv, f.sch, slot.value); }
  }

  // ---------- What a decoder returns ----------

  /** A receiver a decoder can merge into: whatever optional fields it brings along are well-shaped. */
  predicate Mergeable(sch: Schema, recv: Val)
    decreases sch
  {
    sch.Obj? && recv.VObj? && |recv.slots| == |sch.fields| ==>
      forall i :: 0 <= i < |sch.fields| ==>
        if sch.fields[i].required then Mergeable(sch.fields[i].sch, recv.slots[i])
        else GoodSlot(sch.fields[i], recv.slots[i])
  }

  predicate GoodSlot(f: Field, slot: Val) { ShapedSlot(f, slot) && NoNil(slot) }

  predicate MergeableSlot(f: Field, slot: Val) { if f.required then Mergeable(f.sch, slot) else GoodSlot(f, slot) }

  lemma {:induction false} GoodIsMergeable(sch: Schema, v: Val)
    requires Shaped(sch, v) && NoNil(v)
    ensures Mergeable(sch, v)
    decreases sch
  {
    if sch.Obj? {
      forall i | 0 <= i < |sch.fields| && sch.fields[i].required ensures Mergeable(sch.fields[i].sch, v.slots[i]) {
        assert ShapedSlot(sch.fields[i], v.slots[i]);
        GoodIsMergeable(sch.fields[i].sch, v.slots[i]);
      }
      assert forall i :: 0 <= i < |sch.fields| ==> ShapedSlot(sch.fields[i], v.slots[i]);
    }
  }

  lemma {:induction false} ZeroMergeable(lv: Leaves, sch: Schema)
    ensures Mergeable(sch, Zero(lv, sch))
    decreases sch
  {
    if sch.Obj? { ZeroSlotsMergeable(lv, sch.fields); }
  }

  lemma {:induction false} ZeroSlotsMergeable(lv: Leaves, fields: seq<Field>)
    ensures forall i :: 0 <= i < |fields| ==> MergeableSlot(fields[i], ZeroSlots(lv, fields)[i])
    decreases fields
  {
    if fields != [] {
      ZeroMergeable(lv, fields[0].sch);
      ZeroSlotsMergeable(lv, fields[1..]);
      assert forall i :: 1 <= i < |fields| ==> fields[i] == fields[1..][i - 1];
    }
  }

  /** A decoder that succeeds returns a well-shaped value without nil slices: the rule against nil
      never fires on what came over the wire. */
  lemma {:induction false} DecodedShape(lv: Leaves, sch: Schema, recv: Val, j: Json)
    requires Mergeable(sch, recv) && Dec(lv, sch, recv, j).Ok?
    ensures Shaped(sch, Dec(lv, sch, recv, j).value) && NoNil(Dec(lv, sch, recv, j).value)
    decreases j, 0
  {
    match sch
    case Text(_) =>
    case Formatted(_) =>
    case Arr(elem) => ItemsShape(lv, elem, j.items);
    case Obj(fields) =>
      var p := Progress(Slots(lv, fields, recv), {});
      ZeroSlotsMergeable(lv, fields);
      MembersShape(lv, fields, p, j.members);
      var q := DecMembers(lv, fields, p, j.members).value;
      NothingMissing(fields, q.seen, 0);
      assert forall i: nat :: i < |fields| ==> GoodSlot(fields[i], q.slots[i]);
  }

  lemma {:induction false} ItemsShape(lv: Leaves, elem: Schema, items: Items)
    requires DecItems(lv, elem, items).Ok?
    ensures var vs := DecItems(lv, elem, items).value;
      forall i :: 0 <= i < |vs| ==> Shaped(elem, vs[i]) && NoNil(vs[i])
    decreases items, 0
  {
    if items.ICons? {
      ZeroMergeable(lv, elem);
      DecodedShape(lv, elem, Zero(lv, elem), items.head);
      ItemsShape(lv, elem, items.tail);
    }
  }

  lemma {:induction false} FieldShape(lv: Leaves, f: Field, slot: Val, j: Json)
    requires MergeableSlot(f, slot) && DecField(lv, f, slot, j).Ok?
    ensures GoodSlot(f, DecField(lv, f, slot, j).value) && MergeableSlot(f, DecField(lv, f, slot, j).value)
    decreases j, 1
  {
    if f.required {
      DecodedShape(lv, f.sch, slot, j);
      GoodIsMergeable(f.sch, Dec(lv, f.sch, slot, j).value);
    } else {
      ZeroMergeable(lv, f.sch);
      DecodedShape(lv, f.sch, Zero(lv, f.sch), j);
    }
  }

  /** The fields seen so far are good, and all can be merged into. */
  predicate GoodProgress(fields: seq<Field>, p: Progress) {
    |p.slots| == |fields|
    && (forall i: nat :: i < |fields| ==> MergeableSlot(fields[i], p.slots[i]))
    && (forall i: nat :: i < |fields| && i in p.seen ==> GoodSlot(fields[i], p.slots[i]))
  }

  lemma {:induction false} MembersShape(lv: Leaves, fields: seq<Field>, p: Progress, ms: Members)
    requires GoodProgress(fields, p) && DecMembers(lv, fields, p, ms).Ok?
    ensures GoodProgress(fields, DecMembers(lv, fields, p, ms).value)
    decreases ms, 0
  {
    if ms.MCons? {
      var i := FieldIndex(fields, ms.name);
      if i < 0 {
        MembersShape(lv, fields, p, ms.tail);
      } else {
        FieldShape(lv, fields[i], p.slots[i], ms.value);
        MembersShape(lv, fields, Record(fields, p, i, DecField(lv, fields[i], p.slots[i], ms.value).value), ms.tail);
      }
    }
  }

  // ---------- The request decoders ----------

  datatype RequestError =
    | BadMediaType | InvalidContentType(ct: string) | BodyRequired | Unreadable
    | BadBody(cause: DecodeError) | TrailingData | Invalid(problem: Problem)

  /** `media` is the parsed media type, when it parses; `declared` the declared length of the body;
      `read` the number of bytes read, if the body could be read, and `toks` their tokens. Each refusal
      comes exactly when no earlier one applies. */
  method DecodeRequest(lv: Leaves, sch: Schema, media: Option<string>, declared: int, read: Option<nat>,
      toks: seq<Token>)
    returns (r: Result<Val, RequestError>)
    requires SchemaOk(sch)
    ensures r == Err(BadMediaType) <==> media.None?
    ensures r.Err? && r.error.InvalidContentType? <==> media.Some? && media.value != "application/json"
    ensures r == Err(Unreadable) <==> media == Some("application/json") && declared != 0 && read.None?
    ensures r == Err(BodyRequired) <==> media == Some("application/json") && (declared == 0 || read == Some(0))
    ensures r.Err? && r.error.BadBody? <==> HasBody(media, declared, read) && !Decodes(lv, sch, toks)
    ensures r == Err(TrailingData)
      <==> HasBody(media, declared, read) && Decodes(lv, sch, toks) && Parse(toks).value.1 != []
    ensures r.Err? && r.error.Invalid? <==>
      HasBody(media, declared, read) && Decodes(lv, sch, toks) && Parse(toks).value.1 == []
      && !LeavesValid(lv, sch, Decoded(lv, sch, toks))
    ensures r.Err? && r.error.InvalidContentType? ==> media == Some(r.error.ct)
    ensures r.Err? && r.error.Invalid? ==> Some(r.error.problem) == Problems(lv, sch, Decoded(lv, sch, toks))
    ensures r.Ok? <==> HasBody(media, declared, read) && Accepted(lv, sch, toks)
    ensures r.Ok? ==> r.value == Decoded(lv, sch, toks)
  {
    if media.None? {
      return Err(BadMediaType);
    }
    if media.value != "application/json" {
      return Err(InvalidContentType(media.value));
    }
    if declared == 0 {
      return Err(BodyRequired);
    }
    if read.None? {
      return Err(Unreadable);
    }
    if read.value == 0 {
      return Err(BodyRequired);
    }
    var d := new Decoder(toks);
    var request := d.Decode(lv, sch, Zero(lv, sch));
    if request.Err? {
      return Err(BadBody(request.error));
    }
    if |d.toks| > 0 {
      return Err(TrailingData);
    }
    var v := request.value;
    ZeroMergeable(lv, sch);
    DecodedShape(lv, sch, Zero(lv, sch), Parse(toks).value.0);
    ValidMeans(lv, sch, v);
    var problem := Validate(lv, sch, v);
    if problem.Some? {
      return Err(Invalid(problem.value));
    }
    r := Ok(v);
  }

  /** The media type is right, and there are bytes to decode. */
  predicate HasBody(media: Option<string>, declared: int, read: Option<nat>) {
    media == Some("application/json") && declared != 0 && read.Some? && read.value > 0
  }

  /** The tokens start with a value that decodes. */
  predicate Decodes(lv: Leaves, sch: Schema, toks: seq<Token>) {
    Parse(toks).Some? && Dec(lv, sch, Zero(lv, sch), Parse(toks).value.0).Ok?
  }

  function Decoded(lv: Leaves, sch: Schema, toks: seq<Token>): Val
    requires Decodes(lv, sch, toks)
  {
    Dec(lv, sch, Zero(lv, sch), Parse(toks).value.0).value
  }

  /** A body is accepted when it is one value, the value decodes, and its strings meet their rules. */
  predicate Accepted(lv: Leaves, sch: Schema, toks: seq<Token>) {
    Decodes(lv, sch, toks) && Parse(toks).value.1 == [] && LeavesValid(lv, sch, Decoded(lv, sch, toks))
  }
}
