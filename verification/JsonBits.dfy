/** The required-field bitset of the generated decoders, one byte wide, and the loop that names the
    fields it lacks. */
module JsonBits {
  import opened JsonSchema

  /** `1 << i` */
  function BitAt(i: nat): bv8 {
    match i
    case 0 => 0x01 case 1 => 0x02 case 2 => 0x04 case 3 => 0x08
    case 4 => 0x10 case 5 => 0x20 case 6 => 0x40 case 7 => 0x80
    case _ => 0
  }

  predicate HasBit(b: bv8, i: nat) { b & BitAt(i) != 0 }

  lemma SetBit(b: bv8, k: nat, i: nat)
    requires k < 8 && i < 8
    ensures HasBit(b | BitAt(k), i) <==> HasBit(b, i) || i == k
  {
    BitsApart(k, i);
    OrBits(b, BitAt(k), BitAt(i));
  }

  lemma ClearBit(b: bv8, k: nat, i: nat)
    requires k < 8 && i < 8
    ensures HasBit(b & !BitAt(k), i) <==> HasBit(b, i) && i != k
  {
    BitsApart(k, i);
    ClearBits(b, BitAt(k), BitAt(i));
  }

  lemma BitsApart(k: nat, i: nat)
    requires k < 8 && i < 8
    ensures BitAt(k) & BitAt(i) == (if i == k then BitAt(i) else 0) && BitAt(i) != 0
    ensures BitAt(k) == BitAt(i) <==> k == i
  {
  }

  lemma OrBits(b: bv8, m: bv8, n: bv8)
    requires n != 0 && (m & n == 0 || m == n)
    ensures (b | m) & n == (if m == n then n else b & n)
  {
  }

  lemma ClearBits(b: bv8, m: bv8, n: bv8)
    requires n != 0 && (m & n == 0 || m == n)
    ensures (b & !m) & n == (if m == n then 0 else b & n)
  {
  }

  /** Of the wanted bits, those that are not there. */
  lemma LackingBit(b: bv8, mask: bv8, i: nat)
    requires i < 8
    ensures HasBit((b & mask) ^ mask, i) <==> HasBit(mask, i) && !HasBit(b, i)
  {
    OneBit(b, i);
    OneBit(mask, i);
    LackingBits(b, mask, BitAt(i));
  }

  lemma OneBit(b: bv8, i: nat)
    requires i < 8
    ensures b & BitAt(i) == 0 || b & BitAt(i) == BitAt(i)
  {
  }

  lemma LackingBits(b: bv8, mask: bv8, n: bv8)
    requires b & n == 0 || b & n == n
    requires mask & n == 0 || mask & n == n
    ensures ((b & mask) ^ mask) & n == (if b & n == 0 then mask & n else 0)
  {
  }

  /** The positions of the bits that are set. */
  function Bits(b: bv8): set<nat> { set i: nat | i < 8 && HasBit(b, i) }

  lemma BitsSet(b: bv8, k: nat)
    requires k < 8
    ensures Bits(b | BitAt(k)) == Bits(b) + {k}
  {
    forall i: nat | i < 8 ensures HasBit(b | BitAt(k), i) <==> HasBit(b, i) || i == k { SetBit(b, k, i); }
  }

  lemma BitsClear(b: bv8, k: nat)
    requires k < 8
    ensures Bits(b & !BitAt(k)) == Bits(b) - {k}
  {
    forall i: nat | i < 8 ensures HasBit(b & !BitAt(k), i) <==> HasBit(b, i) && i != k { ClearBit(b, k, i); }
  }

  lemma BitsLacking(b: bv8, mask: bv8)
    ensures Bits((b & mask) ^ mask) == Bits(mask) - Bits(b)
  {
    forall i: nat | i < 8
      ensures HasBit((b & mask) ^ mask, i) <==> HasBit(mask, i) && !HasBit(b, i)
    {
      LackingBit(b, mask, i);
    }
  }

  lemma BitsZero()
    ensures Bits(0) == {}
  {
  }

  lemma SameByte(a: bv8, b: bv8)
    ensures a ^ b == 0 <==> a == b
  {
  }

  lemma NoBits(b: bv8)
    ensures Bits(b) == {} <==> b == 0
  {
    if b != 0 {
      SomeBit(b);
      var i: nat :| i < 8 && HasBit(b, i);
      assert i in Bits(b);
    } else {
      BitsZero();
    }
  }

  lemma SomeBit(b: bv8)
    requires b != 0
    ensures exists i: nat :: i < 8 && HasBit(b, i)
  {
    EightBits(b);
    var k := if b & 0x01 != 0 then 0 else if b & 0x02 != 0 then 1 else if b & 0x04 != 0 then 2
    else if b & 0x08 != 0 then 3 else if b & 0x10 != 0 then 4 else if b & 0x20 != 0 then 5
    else if b & 0x40 != 0 then 6 else 7;
    assert HasBit(b, k);
  }

  lemma EightBits(b: bv8)
    ensures b != 0 ==>
      b & 0x01 != 0 || b & 0x02 != 0 || b & 0x04 != 0 || b & 0x08 != 0 || b & 0x10 != 0 || b & 0x20 != 0
      || b & 0x40 != 0 || b & 0x80 != 0
  {
  }

  /** `bits.OnesCount8` */
  function OnesCount(b: bv8): nat { |Bits(b)| }

  function LowestFrom(b: bv8, i: nat): (k: nat)
    requires i <= 8
    ensures i <= k <= 8 && (k < 8 ==> HasBit(b, k)) && forall m: nat :: i <= m < k ==> !HasBit(b, m)
    decreases 8 - i
  {
    if i == 8 || HasBit(b, i) then i else LowestFrom(b, i + 1)
  }

  /** `bits.TrailingZeros8`: 8 when no bit is set. */
  function TrailingZeros(b: bv8): (k: nat)
    ensures k <= 8 && (k < 8 ==> k in Bits(b)) && forall m: nat :: m < k ==> m !in Bits(b)
  {
    LowestFrom(b, 0)
  }

  /** The names at the given positions from `i` on, in order. */
  function NamesAt(names: seq<string>, on: set<nat>, i: nat): seq<string>
    decreases |names| - i
  {
    if i >= |names| then [] else (if i in on then [names[i]] else []) + NamesAt(names, on, i + 1)
  }

  lemma {:induction false} SameAbove(names: seq<string>, a: set<nat>, b: set<nat>, i: nat)
    requires forall k: nat :: i <= k < |names| ==> (k in a <==> k in b)
    ensures NamesAt(names, a, i) == NamesAt(names, b, i)
    decreases |names| - i
  {
    if i < |names| { SameAbove(names, a, b, i + 1); }
  }

  lemma {:induction false} NoneBelow(names: seq<string>, on: set<nat>, i: nat, k: nat)
    requires i <= k <= |names| && forall m: nat :: i <= m < k ==> m !in on
    ensures NamesAt(names, on, i) == NamesAt(names, on, k)
    decreases k - i
  {
    if i < k { NoneBelow(names, on, i + 1, k); }
  }

  /** Taking the lowest position away takes the first name away. */
  lemma LowestFirst(names: seq<string>, on: set<nat>, k: nat)
    requires k in on && k < |names| && forall m: nat :: m < k ==> m !in on
    ensures NamesAt(names, on, 0) == [names[k]] + NamesAt(names, on - {k}, 0)
  {
    NoneBelow(names, on, 0, k);
    NoneBelow(names, on - {k}, 0, k + 1);
    SameAbove(names, on, on - {k}, k + 1);
  }

  /** One turn of the loop: the lowest bit is read off and reset. */
  method TakeLowest(b: bv8) returns (bitIdx: nat, rest: bv8)
    requires Bits(b) != {}
    ensures bitIdx < 8 && bitIdx in Bits(b) && (forall m: nat :: m < bitIdx ==> m !in Bits(b))
    ensures Bits(rest) == Bits(b) - {bitIdx}
  {
    bitIdx := TrailingZeros(b);
    ghost var i :| i in Bits(b);
    assert bitIdx <= i < 8;
    BitsClear(b, bitIdx);
    rest := b & !BitAt(bitIdx);
  }

  /** A byte whose set bits stand for the names in `list`. */
  ghost predicate Stands(names: seq<string>, b: bv8, list: seq<string>) {
    |Bits(b)| == |list| && NamesAt(names, Bits(b), 0) == list
  }

  method NextName(names: seq<string>, b: bv8, ghost list: seq<string>) returns (name: string, rest: bv8)
    requires |names| == 8 && Stands(names, b, list) && list != []
    ensures name == list[0] && Stands(names, rest, list[1..])
  {
    var bitIdx;
    bitIdx, rest := TakeLowest(b);
    LowestFirst(names, Bits(b), bitIdx);
    name := names[bitIdx];
  }

  lemma {:induction false} NamesCount(names: seq<string>, on: set<nat>, i: nat)
    requires i <= |names| && forall k: nat :: k in on ==> i <= k < |names|
    ensures |NamesAt(names, on, i)| == |on|
    decreases |names| - i
  {
    if i == |names| {
      assert on == {};
    } else {
      var above := on - {i};
      SameAbove(names, on, above, i + 1);
      NamesCount(names, above, i + 1);
    }
  }

  lemma StandsFor(names: seq<string>, b: bv8)
    requires |names| == 8
    ensures Stands(names, b, NamesAt(names, Bits(b), 0))
  {
    NamesCount(names, Bits(b), 0);
  }

  /** The loop that lists the missing fields: a name for each required bit that is not set. */
  method MissingNames(requiredBitSet: bv8, mask: bv8, names: seq<string>) returns (failures: seq<string>)
    requires |names| == 8
    ensures failures == NamesAt(names, Bits(mask) - Bits(requiredBitSet), 0)
  {
    BitsLacking(requiredBitSet, mask);
    var result := (requiredBitSet & mask) ^ mask;
    StandsFor(names, result);
    failures := NameBits(result, OnesCount(result), names, NamesAt(names, Bits(result), 0));
  }

  /** `missed` times, the lowest bit's name is appended and the bit reset. */
  method NameBits(lacking: bv8, missed: nat, names: seq<string>, ghost list: seq<string>)
    returns (failures: seq<string>)
    requires |names| == 8 && Stands(names, lacking, list) && missed == |list|
    ensures failures == list
  {
    failures := [];
    var result := lacking;
    for bitN := 0 to missed
      invariant failures == list[..bitN] && Stands(names, result, list[bitN..])
    {
      ghost var left := list[bitN..];
      var name, rest := NextName(names, result, left);
      failures := failures + [name];
      result := rest;
      assert left[1..] == list[bitN + 1..] && left[0] == list[bitN];
    }
  }

  // ---------- The bitset of a schema ----------

  function WithBit(b: bv8, i: nat): bv8 { b | BitAt(i) }

  /** The mask of required fields. */
  function RequiredMask(fields: seq<Field>, i: nat): bv8
    decreases |fields| - i
  {
    if i >= |fields| then 0
    else if fields[i].required then WithBit(RequiredMask(fields, i + 1), i)
    else RequiredMask(fields, i + 1)
  }

  lemma {:induction false} MaskBits(fields: seq<Field>, i: nat)
    requires |fields| <= 8
    ensures Bits(RequiredMask(fields, i)) == set k: nat | i <= k < |fields| && fields[k].required
    decreases |fields| - i
  {
    if i < |fields| {
      MaskBits(fields, i + 1);
      MarkRequired(fields, RequiredMask(fields, i + 1), i);
    } else {
      BitsZero();
    }
  }

  lemma MarkRequired(fields: seq<Field>, b: bv8, i: nat)
    requires |fields| <= 8 && i < |fields|
    requires Bits(b) == set k: nat | i + 1 <= k < |fields| && fields[k].required
    ensures Bits(if fields[i].required then WithBit(b, i) else b) ==
      set k: nat | i <= k < |fields| && fields[k].required
  {
    BitsSet(b, i);
  }

  /** The names of a type's fields, with blanks up to eight. */
  function NamesOf(fields: seq<Field>): (names: seq<string>)
    requires |fields| <= 8
    ensures |names| == 8 && forall i :: 0 <= i < |fields| ==> names[i] == fields[i].name
  {
    seq(8, i requires 0 <= i < 8 => if i < |fields| then fields[i].name else "")
  }

  /** The names of the positions that are required and not seen are the missing names. */
  lemma {:induction false} LackingIsMissing(fields: seq<Field>, on: set<nat>, seen: set<nat>, i: nat)
    requires |fields| <= 8 && i <= 8
    requires forall k: nat :: k in on <==> k < |fields| && fields[k].required && k !in seen
    ensures NamesAt(NamesOf(fields), on, i) == Missing(fields, seen, i)
    decreases 8 - i
  {
    if i < 8 { LackingIsMissing(fields, on, seen, i + 1); }
  }
}
