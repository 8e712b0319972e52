/** The generated encoders and decoders as they run: a decoder that consumes a token stream and fills
    a struct field by field, and an encoder that appends to one. */
module JsonCodec {
  import opened Wrappers
  import opened JsonTokens
  import opened JsonSchema
  import opened JsonTheorems
  import opened JsonBits

  /** What a decoding step must have done: on a stream that starts with a value it gives the meaning
      of that value and, on success, has consumed exactly its tokens; otherwise it fails. */
  function TextOf(j: Json): Option<string> { if j.JStr? then Some(j.text) else None }

  /** The text of the first value on the stream is taken off it, if that value is one that has a text. */
  predicate TakesText(before: seq<Token>, after: seq<Token>, r: Option<string>, text: Json -> Option<string>) {
    match Parse(before)
    case None => r.None?
    case Some(p) => r == text(p.0) && (r.Some? ==> after == p.1)
  }

  predicate Reads(lv: Leaves, sch: Schema, recv: Val, before: seq<Token>, after: seq<Token>,
      r: Result<Val, DecodeError>) {
    match Parse(before)
    case None => r.Err?
    case Some(p) => r == Dec(lv, sch, recv, p.0) && (r.Ok? ==> after == p.1)
  }

  /** The members still to come, from progress `p`, mean the same as all members from `p0`. */
  predicate OnTrack(lv: Leaves, fields: seq<Field>, start: seq<Token>, p0: Progress, now: seq<Token>, p: Progress)
    requires |p0.slots| == |fields| == |p.slots|
  {
    match (ParseMembers(start), ParseMembers(now))
    case (None, None) => true
    case (Some(a), Some(b)) => a.1 == b.1 && DecMembers(lv, fields, p0, a.0) == DecMembers(lv, fields, p, b.0)
    case _ => false
  }

  /** The elements still to come, after those already read. */
  predicate ItemsOnTrack(lv: Leaves, elem: Schema, start: seq<Token>, now: seq<Token>, vs: seq<Val>) {
    match (ParseItems(start), ParseItems(now))
    case (None, None) => true
    case (Some(a), Some(b)) => a.1 == b.1 && DecItems(lv, elem, a.0) == Prepend(vs, DecItems(lv, elem, b.0))
    case _ => false
  }

  function Prepend(vs: seq<Val>, r: Result<seq<Val>, DecodeError>): Result<seq<Val>, DecodeError> {
    match r case Err(e) => Err(e) case Ok(ws) => Ok(vs + ws)
  }

  /** The members still to be skipped end where all of them end. */
  predicate SameEnd(start: seq<Token>, now: seq<Token>) {
    match (ParseMembers(start), ParseMembers(now))
    case (None, None) => true
    case (Some(a), Some(b)) => a.1 == b.1
    case _ => false
  }

  predicate SameItemsEnd(start: seq<Token>, now: seq<Token>) {
    match (ParseItems(start), ParseItems(now))
    case (None, None) => true
    case (Some(a), Some(b)) => a.1 == b.1
    case _ => false
  }

  predicate Skips(before: seq<Token>, after: seq<Token>, ok: bool) {
    match Parse(before) case None => !ok case Some(p) => ok && after == p.1
  }

  class Decoder {
    var toks: seq<Token>

    constructor (toks: seq<Token>)
      ensures this.toks == toks
    {
      this.toks := toks;
    }

    /** Consumes one value of any kind and any depth. */
    method Skip() returns (ok: bool)
      modifies this
      ensures Skips(old(toks), toks, ok)
      decreases |toks|, 1
    {
      if |toks| == 0 {
        return false;
      }
      var first := toks[0];
      match first
      case ArrStart => ok := SkipArr();
      case ObjStart => ok := SkipObj();
      case ArrEnd | ObjEnd | Key(_) => ok := false;
      case _ =>
        toks := toks[1..];
        ok := true;
    }

    method SkipArr() returns (ok: bool)
      requires |toks| > 0 && toks[0].ArrStart?
      modifies this
      ensures Skips(old(toks), toks, ok)
      decreases |toks|, 0
    {
      toks := toks[1..];
      ghost var start := toks;
      while |toks| > 0 && !toks[0].ArrEnd?
        invariant |toks| <= |start| && SameItemsEnd(start, toks)
        decreases |toks|
      {
        ok := Skip();
        if !ok {
          return;
        }
      }
      if |toks| == 0 {
        return false;
      }
      toks := toks[1..];
      ok := true;
    }

    method SkipObj() returns (ok: bool)
      requires |toks| > 0 && toks[0].ObjStart?
      modifies this
      ensures Skips(old(toks), toks, ok)
      decreases |toks|, 0
    {
      toks := toks[1..];
      ghost var start := toks;
      while |toks| > 0 && toks[0].Key?
        invariant |toks| <= |start| && SameEnd(start, toks)
        decreases |toks|
      {
        toks := toks[1..];
        ok := Skip();
        if !ok {
          return;
        }
      }
      if |toks| == 0 || !toks[0].ObjEnd? {
        return false;
      }
      toks := toks[1..];
      ok := true;
    }

    /** `d.Str()` */
    method Str() returns (r: Option<string>)
      modifies this
      ensures TakesText(old(toks), toks, r, TextOf)
    {
      if |toks| > 0 && toks[0].Str? {
        var text := toks[0].text;
        toks := toks[1..];
        return Some(text);
      }
      r := None;
    }

    /** The text of a leaf: a string, or for a number `d.Int64()` up to the reading of the digits. */
    method Raw(format: Format) returns (r: Option<string>)
      modifies this
      ensures TakesText(old(toks), toks, r, p => RawText(format, p))
    {
      if !format.Int64? {
        r := Str();
        return;
      }
      if |toks| > 0 && toks[0].Num? {
        var digits := toks[0].digits;
        toks := toks[1..];
        return Some(digits);
      }
      r := None;
    }

    /** Decodes one value into a receiver. */
    method Decode(lv: Leaves, sch: Schema, recv: Val) returns (r: Result<Val, DecodeError>)
      requires SchemaOk(sch)
      modifies this
      ensures Reads(lv, sch, recv, old(toks), toks, r)
      decreases sch, 1
    {
      match sch
      case Text(_) =>
        var text := Str();
        r := if text.Some? then Ok(VText(text.value)) else Err(WrongType);
      case Formatted(format) =>
        var text := Raw(format);
        r := DecLeaf(lv, format, text);
      case Arr(elem) => r := DecodeArr(lv, elem, recv);
      case Obj(fields) => r := DecodeObj(lv, fields, recv);
    }

    /** A new slice, with the elements appended one by one. */
    method DecodeArr(lv: Leaves, elem: Schema, ghost recv: Val) returns (r: Result<Val, DecodeError>)
      requires SchemaOk(elem)
      modifies this
      ensures Reads(lv, Arr(elem), recv, old(toks), toks, r)
      decreases elem, 2
    {
      if |toks| == 0 || !toks[0].ArrStart? {
        return Err(WrongType);
      }
      toks := toks[1..];
      ghost var start := toks;
      var elems: seq<Val> := [];
      ItemsEntry(lv, elem, start);
      while |toks| > 0 && !toks[0].ArrEnd?
        invariant ItemsOnTrack(lv, elem, start, toks, elems)
        decreases |toks|
      {
        ghost var before := toks;
        var v := Decode(lv, elem, Zero(lv, elem));
        if v.Err? {
          return Err(v.error);
        }
        ItemsStep(lv, elem, start, before, elems, v.value, toks);
        elems := elems + [v.value];
      }
      if |toks| == 0 {
        return Err(WrongType);
      }
      toks := toks[1..];
      assert elems + [] == elems;
      r := Ok(VSlice(elems));
    }

    /** The loop over the members, and the check of the required fields. */
    method DecodeObj(lv: Leaves, fields: seq<Field>, recv: Val) returns (r: Result<Val, DecodeError>)
      requires SchemaOk(Obj(fields))
      modifies this
      ensures Reads(lv, Obj(fields), recv, old(toks), toks, r)
      decreases fields, 0
    {
      if |toks| == 0 || !toks[0].ObjStart? {
        return Err(WrongType);
      }
      toks := toks[1..];
      ghost var start := toks;
      var slots := Slots(lv, fields, recv);
      ghost var p0 := Progress(slots, {});
      var requiredBitSet: bv8 := 0;
      BitsZero();
      while |toks| > 0 && toks[0].Key?
        invariant |slots| == |fields| && OnTrack(lv, fields, start, p0, toks, Progress(slots, Bits(requiredBitSet)))
        decreases |toks|
      {
        ghost var before, p := toks, Progress(slots, Bits(requiredBitSet));
        var name := toks[0].name;
        toks := toks[1..];
        var i := FieldIndex(fields, name);
        if i < 0 {
          var ok := Skip();
          if !ok {
            return Err(WrongType);
          }
          UnknownStep(lv, fields, start, p0, before, p);
        } else {
          var f := fields[i];
          if f.required {
            BitsSet(requiredBitSet, i);
            requiredBitSet := requiredBitSet | BitAt(i);
          }
          var v := Decode(lv, f.sch, if f.required then slots[i] else Zero(lv, f.sch));
          if v.Err? {
            FailStep(lv, fields, start, p0, before, p, i, v.error);
            return Err(InField(name, v.error));
          }
          var slot := if f.required then v.value else VSet(v.value);
          slots := slots[i := slot];
          KnownStep(lv, fields, start, p0, before, p, i, slot);
        }
      }
      if |toks| == 0 || !toks[0].ObjEnd? {
        return Err(WrongType);
      }
      toks := toks[1..];
      r := CheckRequired(fields, slots, requiredBitSet);
    }
  }

  /** The check of the required fields, once the object has been read. */
  method CheckRequired(fields: seq<Field>, slots: seq<Val>, requiredBitSet: bv8) returns (r: Result<Val, DecodeError>)
    requires |fields| <= 8 && |slots| == |fields|
    ensures r == Finished(fields, Progress(slots, Bits(requiredBitSet)))
  {
    var mask := RequiredMask(fields, 0);
    var failures := MissingNames(requiredBitSet, mask, NamesOf(fields));
    MaskBits(fields, 0);
    LackingIsMissing(fields, Bits(mask) - Bits(requiredBitSet), Bits(requiredBitSet), 0);
    if |failures| > 0 {
      return Err(MissingFields(failures));
    }
    r := Ok(VObj(slots));
  }

  lemma ItemsStep(lv: Leaves, elem: Schema, start: seq<Token>, before: seq<Token>, vs: seq<Val>, v: Val,
      after: seq<Token>)
    requires before != [] && !before[0].ArrEnd? && ItemsOnTrack(lv, elem, start, before, vs)
    requires Reads(lv, elem, Zero(lv, elem), before, after, Ok(v))
    ensures ItemsOnTrack(lv, elem, start, after, vs + [v])
  {
    match ParseItems(after)
    case None =>
    case Some(b) =>
      var rest := DecItems(lv, elem, b.0);
      if rest.Ok? { assert vs + ([v] + rest.value) == (vs + [v]) + rest.value; }
  }

  lemma UnknownStep(lv: Leaves, fields: seq<Field>, start: seq<Token>, p0: Progress, before: seq<Token>, p: Progress)
    requires |p0.slots| == |fields| == |p.slots|
    requires before != [] && before[0].Key? && FieldIndex(fields, before[0].name) < 0
    requires OnTrack(lv, fields, start, p0, before, p) && Parse(before[1..]).Some?
    ensures OnTrack(lv, fields, start, p0, Parse(before[1..]).value.1, p)
  {
  }

  lemma KnownStep(lv: Leaves, fields: seq<Field>, start: seq<Token>, p0: Progress, before: seq<Token>, p: Progress,
      i: nat, slot: Val)
    requires |p0.slots| == |fields| == |p.slots|
    requires before != [] && before[0].Key? && FieldIndex(fields, before[0].name) == i
    requires OnTrack(lv, fields, start, p0, before, p)
    requires Parse(before[1..]).Some? && DecField(lv, fields[i], p.slots[i], Parse(before[1..]).value.0) == Ok(slot)
    ensures OnTrack(lv, fields, start, p0, Parse(before[1..]).value.1, Record(fields, p, i, slot))
  {
  }

  lemma ItemsEntry(lv: Leaves, elem: Schema, start: seq<Token>)
    ensures ItemsOnTrack(lv, elem, start, start, [])
  {
    assert forall ws: seq<Val> :: [] + ws == ws;
  }

  /** A field that fails makes the whole object fail in that field, if it is an object at all. */
  lemma FailStep(lv: Leaves, fields: seq<Field>, start: seq<Token>, p0: Progress, before: seq<Token>, p: Progress,
      i: nat, e: DecodeError)
    requires |p0.slots| == |fields| == |p.slots|
    requires before != [] && before[0].Key? && FieldIndex(fields, before[0].name) == i
    requires OnTrack(lv, fields, start, p0, before, p)
    requires Parse(before[1..]).Some? ==> DecField(lv, fields[i], p.slots[i], Parse(before[1..]).value.0) == Err(e)
    ensures ParseMembers(start).Some? ==>
      DecMembers(lv, fields, p0, ParseMembers(start).value.0) == Err(InField(before[0].name, e))
  {
  }

  // ---------- Encoding ----------

  class Encoder {
    var toks: seq<Token>

    constructor ()
      ensures toks == []
    {
      toks := [];
    }

    method Encode(lv: Leaves, sch: Schema, v: Val)
      requires Typed(lv, sch, v)
      modifies this
      ensures toks == old(toks) + Toks(ToJson(lv, sch, v))
      decreases v, 1
    {
      match sch
      case Text(_) => toks := toks + [Str(v.text)];
      case Formatted(f) =>
        var text := lv.encode(f, v.canonical);
        toks := toks + [if f.Int64? then Num(text) else Str(text)];
      case Arr(elem) => EncodeArr(lv, elem, v);
      case Obj(fields) => EncodeObj(lv, fields, v);
    }

    /** A nil slice is written like an empty one. */
    method EncodeArr(lv: Leaves, elem: Schema, v: Val)
      requires Typed(lv, Arr(elem), v)
      modifies this
      ensures toks == old(toks) + Toks(ToJson(lv, Arr(elem), v))
      decreases v, 0
    {
      toks := toks + [ArrStart];
      var elems := if v.VNil? then [] else v.elems;
      ghost var all := old(toks) + Toks(ToJson(lv, Arr(elem), v));
      ArrToks(lv, elem, v, old(toks));
      for i := 0 to |elems|
        invariant toks + ItemToks(ItemsJson(lv, elem, elems[i..])) == all
      {
        ghost var tail := ItemToks(ItemsJson(lv, elem, elems[i + 1..]));
        ghost var before := toks;
        ItemsFrom(lv, elem, elems, i);
        Encode(lv, elem, elems[i]);
        Regroup(before, Toks(ToJson(lv, elem, elems[i])), tail);
      }
      toks := toks + [ArrEnd];
    }

    method EncodeObj(lv: Leaves, fields: seq<Field>, v: Val)
      requires Typed(lv, Obj(fields), v)
      modifies this
      ensures toks == old(toks) + Toks(ToJson(lv, Obj(fields), v))
      decreases v, 0
    {
      toks := toks + [ObjStart];
      ghost var all := old(toks) + Toks(ToJson(lv, Obj(fields), v));
      assert fields[0..] == fields && v.slots[0..] == v.slots;
      for i := 0 to |fields|
        invariant toks + MemberToks(MembersJson(lv, fields[i..], v.slots[i..])) == all
      {
        ghost var before, tail := toks, MemberToks(MembersJson(lv, fields[i + 1..], v.slots[i + 1..]));
        MembersFrom(lv, fields, v.slots, i);
        assert TypedSlot(lv, fields[i], v.slots[i]);
        if fields[i].required {
          toks := toks + [Key(fields[i].name)];
          Encode(lv, fields[i].sch, v.slots[i]);
          RegroupMember(before, Key(fields[i].name), Toks(SlotJson(lv, fields[i], v.slots[i]).value), tail);
        } else if v.slots[i].VSet? {
          toks := toks + [Key(fields[i].name)];
          assert v.slots[i].value < v.slots[i];
          Encode(lv, fields[i].sch, v.slots[i].value);
          RegroupMember(before, Key(fields[i].name), Toks(SlotJson(lv, fields[i], v.slots[i]).value), tail);
        }
      }
      toks := toks + [ObjEnd];
    }
  }

  lemma Regroup(a: seq<Token>, b: seq<Token>, c: seq<Token>)
    ensures (a + b) + c == a + (b + c)
  {
  }

  lemma RegroupMember(a: seq<Token>, key: Token, b: seq<Token>, c: seq<Token>)
    ensures ((a + [key]) + b) + c == a + ([key] + b + c)
  {
  }

  lemma ItemsFrom(lv: Leaves, elem: Schema, vs: seq<Val>, i: nat)
    requires i < |vs|
    ensures ItemToks(ItemsJson(lv, elem, vs[i..])) ==
      Toks(ToJson(lv, elem, vs[i])) + ItemToks(ItemsJson(lv, elem, vs[i + 1..]))
  {
    assert vs[i..][1..] == vs[i + 1..];
  }

  lemma ArrToks(lv: Leaves, elem: Schema, v: Val, before: seq<Token>)
    requires Typed(lv, Arr(elem), v)
    ensures var elems := if v.VNil? then [] else v.elems;
      (before + [ArrStart]) + ItemToks(ItemsJson(lv, elem, elems[0..])) == before + Toks(ToJson(lv, Arr(elem), v))
  {
    var elems := if v.VNil? then [] else v.elems;
    assert elems[0..] == elems;
    Regroup(before, [ArrStart], ItemToks(ItemsJson(lv, elem, elems)));
  }

  lemma MembersFrom(lv: Leaves, fields: seq<Field>, slots: seq<Val>, i: nat)
    requires i < |fields| == |slots|
    ensures MemberToks(MembersJson(lv, fields[i..], slots[i..])) ==
      match SlotJson(lv, fields[i], slots[i])
      case Some(j) => [Key(fields[i].name)] + Toks(j) + MemberToks(MembersJson(lv, fields[i + 1..], slots[i + 1..]))
      case None => MemberToks(MembersJson(lv, fields[i + 1..], slots[i + 1..]))
  {
    assert fields[i..][1..] == fields[i + 1..] && slots[i..][1..] == slots[i + 1..];
  }

  /** On the wire: decoding, into a fresh struct, the tokens an encoder wrote followed by anything
      gives the value back, nil slices made empty, and leaves exactly what followed. */
  lemma WireRoundTrip(lv: Leaves, sch: Schema, v: Val, suffix: seq<Token>, after: seq<Token>,
      r: Result<Val, DecodeError>)
    requires SchemaOk(sch) && Typed(lv, sch, v)
    requires Reads(lv, sch, Zero(lv, sch), Toks(ToJson(lv, sch, v)) + suffix, after, r)
    ensures r == Ok(Canon(v)) && after == suffix
  {
    ParseToks(ToJson(lv, sch, v), suffix);
    ZeroBlank(lv, sch);
    RoundTrip(lv, sch, v, Zero(lv, sch));
  }

  /** Skipping consumes exactly one value of any shape. */
  lemma SkipTakesOne(j: Json, suffix: seq<Token>, after: seq<Token>, ok: bool)
    requires Skips(Toks(j) + suffix, after, ok)
    ensures ok && after == suffix
  {
    ParseToks(j, suffix);
  }
}
