/** The bit operations of src/klib/khash.h on 32-bit words: two flag bits a bucket, sixteen buckets a
    word, and the rounding up to a power of two. */
module KBits {
  import opened Arith
  import opened KHash

  datatype Word = Word(bits: bv32)

  /** Bucket number 16 * word + slot, with slot below 16. */
  datatype Bucket = Bucket(word: nat, slot: bv32)

  predicate Within(flags: seq<Word>, i: Bucket) {
    i.word < |flags| && i.slot <= 0xf
  }

  /** `__ac_iseither`: the two flag bits of slot `i` in its word. */
  function IsEither(w: bv32, i: bv32): bv32
    requires i <= 0xf
  {
    (w >> (i << 1)) & 3
  }

  function SetDelTrue(w: bv32, i: bv32): bv32
    requires i <= 0xf
  {
    w | (1 << (i << 1))
  }

  function SetEmptyFalse(w: bv32, i: bv32): bv32
    requires i <= 0xf
  {
    w & !(2 << (i << 1))
  }

  function SetBothFalse(w: bv32, i: bv32): bv32
    requires i <= 0xf
  {
    w & !(3 << (i << 1))
  }

  /** What `__ac_isempty` and `__ac_isdel` read off the two bits. */
  function Meaning(bits: bv32): Flag {
    if bits & 2 != 0 then Empty else if bits & 1 != 0 then Deleted else Live
  }

  function FlagAt(flags: seq<Word>, i: Bucket): Flag
    requires Within(flags, i)
  {
    Meaning(IsEither(flags[i.word].bits, i.slot))
  }

  lemma DelTrueBits(w: bv32, i: bv32, j: bv32)
    requires i <= 0xf && j <= 0xf
    ensures IsEither(SetDelTrue(w, i), j) == if i == j then IsEither(w, j) | 1 else IsEither(w, j)
  {
  }

  lemma EmptyFalseBits(w: bv32, i: bv32, j: bv32)
    requires i <= 0xf && j <= 0xf
    ensures IsEither(SetEmptyFalse(w, i), j) == if i == j then IsEither(w, j) & 1 else IsEither(w, j)
  {
  }

  lemma BothFalseBits(w: bv32, i: bv32, j: bv32)
    requires i <= 0xf && j <= 0xf
    ensures IsEither(SetBothFalse(w, i), j) == if i == j then 0 else IsEither(w, j)
  {
  }

  lemma DeletedMeans(b: bv32)
    ensures Meaning(b | 1) == if Meaning(b) == Empty then Empty else Deleted
  {
  }

  /** Marking a bucket deleted changes the flag of that bucket, unless it is empty, and of no other. */
  lemma PackedDelete(flags: seq<Word>, i: Bucket, j: Bucket)
    requires Within(flags, i) && Within(flags, j)
    ensures FlagAt(flags[i.word := Word(SetDelTrue(flags[i.word].bits, i.slot))], j)
         == if i != j then FlagAt(flags, j) else if FlagAt(flags, i) == Empty then Empty else Deleted
  {
    DelTrueBits(flags[i.word].bits, i.slot, j.slot);
    DeletedMeans(IsEither(flags[i.word].bits, i.slot));
  }

  /** Taking an empty bucket in a rehash makes it live, and touches no other. */
  lemma PackedTake(flags: seq<Word>, i: Bucket, j: Bucket)
    requires Within(flags, i) && Within(flags, j) && IsEither(flags[i.word].bits, i.slot) == 2
    ensures FlagAt(flags[i.word := Word(SetEmptyFalse(flags[i.word].bits, i.slot))], j)
         == if i != j then FlagAt(flags, j) else Live
  {
    EmptyFalseBits(flags[i.word].bits, i.slot, j.slot);
  }

  /** Putting a key makes its bucket live, whatever it was, and touches no other. */
  lemma PackedPut(flags: seq<Word>, i: Bucket, j: Bucket)
    requires Within(flags, i) && Within(flags, j)
    ensures FlagAt(flags[i.word := Word(SetBothFalse(flags[i.word].bits, i.slot))], j)
         == if i != j then FlagAt(flags, j) else Live
  {
    BothFalseBits(flags[i.word].bits, i.slot, j.slot);
  }

  lemma FreshBits(i: bv32)
    requires i <= 0xf
    ensures IsEither(0xaaaa_aaaa, i) == 2
  {
  }

  /* ---------- The words as a sequence of flags ---------- */

  function Slot(k: nat): (b: bv32)
    requires k < 16
    ensures b <= 0xf
  {
    match k
    case 0 => 0 case 1 => 1 case 2 => 2 case 3 => 3
    case 4 => 4 case 5 => 5 case 6 => 6 case 7 => 7
    case 8 => 8 case 9 => 9 case 10 => 10 case 11 => 11
    case 12 => 12 case 13 => 13 case 14 => 14 case 15 => 15
  }

  lemma SlotsDiffer(j: nat, k: nat)
    requires j < 16 && k < 16 && j != k
    ensures Slot(j) != Slot(k)
  {
  }

  /** Where the bits of bucket `i` are: word `i >> 4`, slot `i & 0xf`. */
  function Spot(i: nat): Bucket {
    Bucket(i / 16, Slot(i % 16))
  }

  /** The words hold the flags; an empty bucket has the bits 10, as `memset` leaves them. */
  ghost predicate Packs(words: seq<Word>, flags: seq<Flag>) {
    && |flags| <= 16 * |words|
    && forall i: nat :: i < |flags| ==> Held(words, i, flags[i])
  }

  ghost predicate Held(words: seq<Word>, i: nat, f: Flag) {
    && Within(words, Spot(i))
    && FlagAt(words, Spot(i)) == f
    && (f == Empty ==> IsEither(words[Spot(i).word].bits, Spot(i).slot) == 2)
  }

  function Write(words: seq<Word>, i: nat, w: bv32): seq<Word>
    requires i / 16 < |words|
  {
    words[i / 16 := Word(w)]
  }

  lemma InRange(words: seq<Word>, flags: seq<Flag>, i: nat)
    requires |flags| <= 16 * |words| && i < |flags|
    ensures i / 16 < |words|
  {
  }

  /** A word written for bucket `i` that keeps the bits of all others. */
  lemma PacksAfter(words: seq<Word>, flags: seq<Flag>, i: nat, w: bv32, f: Flag)
    requires Packs(words, flags) && i < |flags| && i / 16 < |words| && Held(Write(words, i, w), i, f)
    requires forall k: nat :: k < 16 && k != i % 16 ==>
               IsEither(w, Slot(k)) == IsEither(words[i / 16].bits, Slot(k))
    ensures Packs(Write(words, i, w), flags[i := f])
  {
    var words', flags' := Write(words, i, w), flags[i := f];
    forall j: nat | j < |flags| ensures Held(words', j, flags'[j]) {
      assert Held(words, j, flags[j]);
    }
  }

  /** `__ac_set_isdel_true` of a live bucket. */
  lemma PacksDelete(words: seq<Word>, flags: seq<Flag>, i: nat)
    requires Packs(words, flags) && i < |flags| && flags[i] == Live
    ensures i / 16 < |words|
    ensures Packs(Write(words, i, SetDelTrue(words[i / 16].bits, Slot(i % 16))), flags[i := Deleted])
  {
    InRange(words, flags, i);
    var w := words[i / 16].bits;
    assert Held(words, i, Live);
    forall k: nat | k < 16 && k != i % 16
      ensures IsEither(SetDelTrue(w, Slot(i % 16)), Slot(k)) == IsEither(w, Slot(k))
    {
      SlotsDiffer(k, i % 16);
      DelTrueBits(w, Slot(i % 16), Slot(k));
    }
    PackedDelete(words, Spot(i), Spot(i));
    PacksAfter(words, flags, i, SetDelTrue(w, Slot(i % 16)), Deleted);
  }

  /** `__ac_set_isempty_false` of an empty bucket, in a rehash. */
  lemma PacksTake(words: seq<Word>, flags: seq<Flag>, i: nat)
    requires Packs(words, flags) && i < |flags| && flags[i] == Empty
    ensures i / 16 < |words|
    ensures Packs(Write(words, i, SetEmptyFalse(words[i / 16].bits, Slot(i % 16))), flags[i := Live])
  {
    InRange(words, flags, i);
    var w := words[i / 16].bits;
    assert Held(words, i, Empty);
    forall k: nat | k < 16 && k != i % 16
      ensures IsEither(SetEmptyFalse(w, Slot(i % 16)), Slot(k)) == IsEither(w, Slot(k)) {
      SlotsDiffer(k, i % 16);
      EmptyFalseBits(w, Slot(i % 16), Slot(k));
    }
    PackedTake(words, Spot(i), Spot(i));
    PacksAfter(words, flags, i, SetEmptyFalse(w, Slot(i % 16)), Live);
  }

  /** `__ac_set_isboth_false` of any bucket, in a put. */
  lemma PacksPut(words: seq<Word>, flags: seq<Flag>, i: nat)
    requires Packs(words, flags) && i < |flags|
    ensures i / 16 < |words|
    ensures Packs(Write(words, i, SetBothFalse(words[i / 16].bits, Slot(i % 16))), flags[i := Live])
  {
    InRange(words, flags, i);
    var w := words[i / 16].bits;
    assert Held(words, i, flags[i]);
    forall k: nat | k < 16 && k != i % 16
      ensures IsEither(SetBothFalse(w, Slot(i % 16)), Slot(k)) == IsEither(w, Slot(k)) {
      SlotsDiffer(k, i % 16);
      BothFalseBits(w, Slot(i % 16), Slot(k));
    }
    PackedPut(words, Spot(i), Spot(i));
    PacksAfter(words, flags, i, SetBothFalse(w, Slot(i % 16)), Live);
  }

  /** The byte 0xaa, four times a word, makes every bucket empty. */
  lemma PacksFresh(words: seq<Word>, n: nat)
    requires n <= 16 * |words| && forall k :: 0 <= k < |words| ==> words[k] == Word(0xaaaa_aaaa)
    ensures Packs(words, seq(n, i => Empty))
  {
    forall i: nat | i < n ensures Held(words, i, Empty) {
      FreshBits(Spot(i).slot);
    }
  }

  /* ---------- Rounding up ---------- */

  /** The number a word stands for. */
  ghost function Num(b: bv32): (n: nat)
    ensures b != 0 ==> n >= 1
    decreases b
  {
    if b == 0 then 0 else 2 * Num(b >> 1) + if b & 1 == 1 then 1 else 0
  }

  lemma NumHalved(b: bv32)
    ensures Num(b) == 2 * Num(b >> 1) + if b & 1 == 1 then 1 else 0
  {
    if b == 0 {
      assert b >> 1 == 0 && b & 1 == 0;
    }
  }

  lemma Doubled(b: bv32)
    requires b < 0x8000_0000
    ensures (b << 1) >> 1 == b && (b << 1) & 1 == 0
  {
  }

  lemma NumDoubled(b: bv32)
    requires b < 0x8000_0000
    ensures Num(b << 1) == 2 * Num(b)
  {
    Doubled(b);
    var c := b << 1;
    NumHalved(c);
    assert Num(c >> 1) == Num(b);
  }

  lemma TopBit()
    ensures Num(0x8000_0000) == TWO31
  {
    NumHalved(1);
    NumDoubled(0x1); NumDoubled(0x2); NumDoubled(0x4); NumDoubled(0x8);
    NumDoubled(0x10); NumDoubled(0x20); NumDoubled(0x40); NumDoubled(0x80);
    NumDoubled(0x100); NumDoubled(0x200); NumDoubled(0x400); NumDoubled(0x800);
    NumDoubled(0x1000); NumDoubled(0x2000); NumDoubled(0x4000); NumDoubled(0x8000);
    NumDoubled(0x10000); NumDoubled(0x20000); NumDoubled(0x40000); NumDoubled(0x80000);
    NumDoubled(0x100000); NumDoubled(0x200000); NumDoubled(0x400000); NumDoubled(0x800000);
    NumDoubled(0x1000000); NumDoubled(0x2000000); NumDoubled(0x4000000); NumDoubled(0x8000000);
    NumDoubled(0x10000000); NumDoubled(0x20000000); NumDoubled(0x40000000);
  }

  lemma SubsetHalved(a: bv32, b: bv32)
    requires a & !b == 0
    ensures (a >> 1) & !(b >> 1) == 0 && (a & 1 == 1 ==> b & 1 == 1) && (b == 0 ==> a == 0)
  {
  }

  /** A word with fewer bits set stands for a number that is not larger. */
  lemma {:induction false} NumOfSubset(a: bv32, b: bv32)
    requires a & !b == 0
    ensures Num(a) <= Num(b)
    decreases Num(b)
  {
    SubsetHalved(a, b);
    if b == 0 {
    } else {
      NumHalved(a);
      NumHalved(b);
      NumOfSubset(a >> 1, b >> 1);
    }
  }

  lemma LastBit(b: bv32)
    ensures b & 1 == 0 || b & 1 == 1
    ensures b & 1 == 1 ==> (b - 1) >> 1 == b >> 1 && (b - 1) & 1 == 0
    ensures b & 1 == 0 && b != 0 ==> b >> 1 != 0 && (b - 1) >> 1 == (b >> 1) - 1 && (b - 1) & 1 == 1
  {
  }

  lemma {:induction false} NumBefore(b: bv32)
    requires b != 0
    ensures Num(b) == Num(b - 1) + 1
    decreases Num(b)
  {
    LastBit(b);
    NumHalved(b);
    NumHalved(b - 1);
    if b & 1 == 1 {
    } else {
      NumBefore(b >> 1);
    }
  }

  /** The five or-and-shift steps: every bit below a set bit is set. */
  function Smear(a: bv32): bv32 {
    var b := a | (a >> 1);
    var c := b | (b >> 2);
    var d := c | (c >> 4);
    var e := d | (d >> 8);
    e | (e >> 16)
  }

  lemma SmearHalved(b: bv32)
    ensures Smear(b) >> 1 == Smear(b >> 1) && (b != 0 ==> Smear(b) & 1 == 1)
  {
  }

  /** A smeared word is one below the next power of two. */
  lemma {:induction false} NumOfSmear(b: bv32) returns (k: nat)
    ensures Num(Smear(b)) == Pow2(k) - 1 && Num(b) < Pow2(k) && (k > 0 ==> Pow2(k - 1) <= Num(b))
    decreases Num(b)
  {
    if b == 0 {
      assert Smear(0) == 0;
      k := 0;
    } else {
      SmearHalved(b);
      NumHalved(b);
      NumHalved(Smear(b));
      k := NumOfSmear(b >> 1);
      k := k + 1;
    }
  }

  /** `kroundup32`: the least power of two at or above `x`, or 0 when that has 33 bits. */
  function KRoundUp32(x: bv32): (r: bv32)
    ensures r & (r - 1) == 0
    ensures 1 <= x <= 0x8000_0000 ==> r >= x && r >> 1 < x
    ensures x == 0 || x > 0x8000_0000 ==> r == 0
  {
    Smear(x - 1) + 1
  }

  lemma SmearOfTop(a: bv32)
    ensures a & 0x8000_0000 != 0 ==> Smear(a) + 1 == 0
    ensures a & 0x8000_0000 == 0 ==> Smear(a) + 1 != 0
  {
  }

  /** On the numbers the words stand for, it is the rounding that the table uses. */
  lemma RoundUpAgrees(x: bv32)
    ensures Num(KRoundUp32(x)) == RoundUp32(Num(x))
  {
    if x == 0 {
    } else {
      NumBefore(x);
      RoundUpOf(x - 1, Num(x));
    }
  }

  lemma BesidesTop(a: bv32)
    ensures a & 0x8000_0000 == 0 ==> a & !0x7fff_ffff == 0
    ensures a & 0x8000_0000 != 0 ==> 0x8000_0000 & !a == 0
  {
  }

  lemma RoundUpOf(a: bv32, x: nat)
    requires x == Num(a) + 1
    ensures Num(Smear(a) + 1) == RoundUp32(x)
  {
    TopBit();
    NumBefore(0x8000_0000);
    SmearOfTop(a);
    BesidesTop(a);
    if a & 0x8000_0000 == 0 {
      NumOfSubset(a, 0x7fff_ffff);
      var k := NumOfSmear(a);
      NumBefore(Smear(a) + 1);
      assert Smear(a) + 1 - 1 == Smear(a);
      RoundTo(x, k);
    } else {
      NumOfSubset(0x8000_0000, a);
    }
  }

  lemma RoundTo(x: nat, k: nat)
    requires 1 <= x <= TWO31 && x <= Pow2(k) && (k > 0 ==> Pow2(k - 1) < x)
    ensures Pow2(k) == RoundUp32(x)
  {
    RoundLogIs(x, k);
  }
}
