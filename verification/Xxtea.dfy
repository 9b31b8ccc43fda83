/** The XXTEA block cipher of src/klib/xxtea.c, and the byte strings it is used on. */
module Xxtea {
  import opened Basics
  import opened Arith

  const M: int := 0x1_0000_0000
  const DELTA: int := 0x9e37_79b9
  const SIZE_MAX1: int := 0x1_0000_0000_0000_0000

  type Word = w: int | 0 <= w < 0x1_0000_0000
  /** What one word is changed by: its left neighbour, its right neighbour, the round constant and
      its index. */
  type Mix = (Word, Word, Word, nat) -> Word

  function Bits(b: bv32): Word {
    (b as int) % 0x1_0000_0000
  }

  /** The macro `MX`, with `e` as both loops set it. */
  function MX(key: seq<Word>, z: Word, y: Word, sum: Word, p: nat): Word
    requires |key| == 4
  {
    var zb, yb, sb := z as bv32, y as bv32, sum as bv32;
    var e := (sb >> 2) & 3;
    var k := Bits(((p % 4) as bv32) ^ e) % 4;
    Bits((((zb >> 5) ^ (yb << 2)) + ((yb >> 3) ^ (zb << 4))) ^ ((sb ^ yb) + ((key[k] as bv32) ^ zb)))
  }

  /* ---------- The cipher on words ---------- */

  function Plus(a: int, b: int): Word {
    (a + b) % M
  }

  function Minus(a: int, b: int): Word {
    (a - b) % M
  }

  /** The neighbours of a word, round the ends of the array. */
  function Left(n: nat, p: nat): (q: nat)
    requires p < n
    ensures q < n && (n >= 2 ==> q != p)
  {
    if p == 0 then n - 1 else p - 1
  }

  function Right(n: nat, p: nat): (q: nat)
    requires p < n
    ensures q < n && (n >= 2 ==> q != p)
  {
    if p == n - 1 then 0 else p + 1
  }

  function Change(mix: Mix, d: seq<Word>, sum: Word, p: nat): Word
    requires p < |d|
  {
    mix(d[Left(|d|, p)], d[Right(|d|, p)], sum, p)
  }

  function AddAt(mix: Mix, d: seq<Word>, sum: Word, p: nat): (r: seq<Word>)
    requires p < |d|
    ensures |r| == |d|
  {
    d[p := Plus(d[p], Change(mix, d, sum, p))]
  }

  function SubAt(mix: Mix, d: seq<Word>, sum: Word, p: nat): (r: seq<Word>)
    requires p < |d|
    ensures |r| == |d|
  {
    d[p := Minus(d[p], Change(mix, d, sum, p))]
  }

  /** The first `k` steps of an encryption round, on the words 0, 1, ... */
  ghost function AddUpTo(mix: Mix, d: seq<Word>, sum: Word, k: nat): (r: seq<Word>)
    requires k <= |d|
    ensures |r| == |d|
  {
    if k == 0 then d else AddAt(mix, AddUpTo(mix, d, sum, k - 1), sum, k - 1)
  }

  /** The last `k` steps of a decryption round, on the words k - 1, ..., 0. */
  ghost function SubDownFrom(mix: Mix, d: seq<Word>, sum: Word, k: nat): (r: seq<Word>)
    requires k <= |d|
    ensures |r| == |d|
    decreases k
  {
    if k == 0 then d else SubDownFrom(mix, SubAt(mix, d, sum, k - 1), sum, k - 1)
  }

  /** The round constant of round `r`, counted from one. */
  function Sum(r: nat): Word {
    (r * DELTA) % M
  }

  ghost function EncryptRounds(mix: Mix, d: seq<Word>, r: nat): (c: seq<Word>)
    ensures |c| == |d|
  {
    if r == 0 then d else AddUpTo(mix, EncryptRounds(mix, d, r - 1), Sum(r), |d|)
  }

  ghost function DecryptRounds(mix: Mix, c: seq<Word>, r: nat): (d: seq<Word>)
    ensures |d| == |c|
    decreases r
  {
    if r == 0 then c else DecryptRounds(mix, SubDownFrom(mix, c, Sum(r), |c|), r - 1)
  }

  function Rounds(n: nat): (q: nat)
    requires n >= 1
    ensures 6 <= q <= 58
  {
    6 + 52 / n
  }

  /** The cipher counts words in 32 bits, and leaves the words past that count as they are.  A count of
      zero is a division by zero. */
  predicate Countable(len: nat) {
    len % M != 0
  }

  ghost function Encrypted(mix: Mix, d: seq<Word>): (c: seq<Word>)
    requires Countable(|d|)
    ensures |c| == |d|
  {
    var k := |d| % M;
    if k < 2 then d else EncryptRounds(mix, d[..k], Rounds(k)) + d[k..]
  }

  ghost function Decrypted(mix: Mix, c: seq<Word>): (d: seq<Word>)
    requires Countable(|c|)
    ensures |d| == |c|
  {
    var k := |c| % M;
    if k < 2 then c else DecryptRounds(mix, c[..k], Rounds(k)) + c[k..]
  }

  lemma PlusMinus(a: Word, b: Word)
    ensures Minus(Plus(a, b), b) == a && Plus(Minus(a, b), b) == a
  {
  }

  lemma StepInverse(mix: Mix, d: seq<Word>, sum: Word, p: nat)
    requires p < |d| && |d| >= 2
    ensures SubAt(mix, AddAt(mix, d, sum, p), sum, p) == d
    ensures AddAt(mix, SubAt(mix, d, sum, p), sum, p) == d
  {
    PlusMinus(d[p], Change(mix, d, sum, p));
  }

  lemma {:induction false} SubUndoesAdd(mix: Mix, d: seq<Word>, sum: Word, k: nat)
    requires k <= |d| && |d| >= 2
    ensures SubDownFrom(mix, AddUpTo(mix, d, sum, k), sum, k) == d
    decreases k
  {
    if k == 0 {
    } else {
      StepInverse(mix, AddUpTo(mix, d, sum, k - 1), sum, k - 1);
      SubUndoesAdd(mix, d, sum, k - 1);
    }
  }

  lemma {:induction false} AddUndoesSub(mix: Mix, d: seq<Word>, sum: Word, k: nat)
    requires k <= |d| && |d| >= 2
    ensures AddUpTo(mix, SubDownFrom(mix, d, sum, k), sum, k) == d
    decreases k
  {
    if k == 0 {
    } else {
      AddUndoesSub(mix, SubAt(mix, d, sum, k - 1), sum, k - 1);
      StepInverse(mix, d, sum, k - 1);
    }
  }

  lemma {:induction false} RoundsInverse(mix: Mix, d: seq<Word>, r: nat)
    requires |d| >= 2
    ensures DecryptRounds(mix, EncryptRounds(mix, d, r), r) == d
    ensures EncryptRounds(mix, DecryptRounds(mix, d, r), r) == d
    decreases r
  {
    if r == 0 {
    } else {
      SubUndoesAdd(mix, EncryptRounds(mix, d, r - 1), Sum(r), |d|);
      RoundsInverse(mix, d, r - 1);
      RoundsInverse(mix, SubDownFrom(mix, d, Sum(r), |d|), r - 1);
      AddUndoesSub(mix, d, Sum(r), |d|);
    }
  }

  /** Whatever the mixing function, encryption and decryption of words undo each other. */
  lemma CipherInverse(mix: Mix, d: seq<Word>)
    requires Countable(|d|)
    ensures Decrypted(mix, Encrypted(mix, d)) == d && Encrypted(mix, Decrypted(mix, d)) == d
  {
    var k := |d| % M;
    if k >= 2 {
      RoundsInverse(mix, d[..k], Rounds(k));
      Rejoined(EncryptRounds(mix, d[..k], Rounds(k)), d, k);
      Rejoined(DecryptRounds(mix, d[..k], Rounds(k)), d, k);
    }
  }

  lemma Rejoined(c: seq<Word>, d: seq<Word>, k: nat)
    requires |c| == k <= |d|
    ensures (c + d[k..])[..k] == c && (c + d[k..])[k..] == d[k..] && d[..k] + d[k..] == d
  {
  }

  lemma SumNext(r: nat)
    ensures Plus(Sum(r), DELTA) == Sum(r + 1) && Minus(Sum(r + 1), DELTA) == Sum(r)
  {
    ModStep(r * DELTA, DELTA, M);
    PlusMinus(Sum(r), DELTA);
  }

  /** The decryption loop stops at a zero constant; `DELTA` is odd, so no round before the last has
      one. */
  lemma SumZero(r: nat)
    requires r < M
    ensures Sum(r) == 0 <==> r == 0
  {
    if Sum(r) == 0 {
      var t := r * DELTA / M;
      Pow2Of32();
      var u := OddFactor(32, r, DELTA, t);
    }
  }

  /** One turn of the encryption loop, on the first `k` words. */
  method EncryptRound(mix: Mix, data: array<Word>, k: nat, z0: Word, sum: Word) returns (z: Word)
    requires 2 <= k <= data.Length && z0 == data[k - 1]
    modifies data
    ensures data[..k] == AddUpTo(mix, old(data[..k]), sum, k) && data[k..] == old(data[k..]) && z == data[k - 1]
  {
    z := z0;
    var n := k - 1;
    var p := 0;
    while p < n
      invariant 0 <= p <= n && z == data[Left(k, p)] && data[k..] == old(data[k..])
      invariant data[..k] == AddUpTo(mix, old(data[..k]), sum, p)
    {
      var y := data[p + 1];
      data[p] := Plus(data[p], mix(z, y, sum, p));
      z := data[p];
      p := p + 1;
    }
    var y := data[0];
    data[n] := Plus(data[n], mix(z, y, sum, p));
    z := data[n];
  }

  /** The encryption loop. */
  method EncryptLoop(mix: Mix, data: array<Word>, k: nat)
    requires 2 <= k <= data.Length
    modifies data
    ensures data[..k] == EncryptRounds(mix, old(data[..k]), Rounds(k)) && data[k..] == old(data[k..])
  {
    var z := data[k - 1];
    var q := Rounds(k);
    var sum: Word := 0;
    ghost var r := 0;
    while 0 < q
      invariant r + q == Rounds(k) && sum == Sum(r) && z == data[k - 1] && data[k..] == old(data[k..])
      invariant data[..k] == EncryptRounds(mix, old(data[..k]), r)
    {
      SumNext(r);
      q, r := q - 1, r + 1;
      sum := Plus(sum, DELTA);
      z := EncryptRound(mix, data, k, z, sum);
    }
  }

  /** `xxtea_uint_encrypt`; not `ok` is the division by zero. */
  method EncryptWords(mix: Mix, data: array<Word>) returns (ok: bool)
    requires data.Length >= 1
    modifies data
    ensures ok == Countable(data.Length)
    ensures data[..] == if ok then Encrypted(mix, old(data[..])) else old(data[..])
  {
    var k := data.Length % M;
    if k == 0 {
      return false;
    }
    if k >= 2 {
      EncryptLoop(mix, data, k);
      Joined(old(data[..]), k);
      Joined(data[..], k);
    }
    return true;
  }

  lemma Joined(d: seq<Word>, k: nat)
    requires k <= |d|
    ensures d == d[..k] + d[k..]
  {
  }

  /** One turn of the decryption loop, on the first `k` words. */
  method DecryptRound(mix: Mix, data: array<Word>, k: nat, y0: Word, sum: Word) returns (y: Word)
    requires 2 <= k <= data.Length && y0 == data[0]
    modifies data
    ensures data[..k] == SubDownFrom(mix, old(data[..k]), sum, k) && data[k..] == old(data[k..]) && y == data[0]
  {
    y := y0;
    var n := k - 1;
    var p := n;
    while p > 0
      invariant 0 <= p <= n && y == data[Right(k, p)] && data[k..] == old(data[k..])
      invariant SubDownFrom(mix, data[..k], sum, p + 1) == SubDownFrom(mix, old(data[..k]), sum, k)
    {
      var z := data[p - 1];
      data[p] := Minus(data[p], mix(z, y, sum, p));
      y := data[p];
      p := p - 1;
    }
    var z := data[n];
    data[0] := Minus(data[0], mix(z, y, sum, p));
    y := data[0];
  }

  /** `sum -= DELTA` */
  method SumBefore(sum: Word, ghost r: nat) returns (sum': Word)
    requires 1 <= r < M && sum == Sum(r)
    ensures sum' == Sum(r - 1) && (sum' == 0 <==> r - 1 == 0)
  {
    SumNext(r - 1);
    SumZero(r - 1);
    sum' := Minus(sum, DELTA);
  }

  /** The decryption loop: it stops when the constant is zero. */
  method DecryptLoop(mix: Mix, data: array<Word>, k: nat)
    requires 2 <= k <= data.Length
    modifies data
    ensures data[..k] == DecryptRounds(mix, old(data[..k]), Rounds(k)) && data[k..] == old(data[k..])
  {
    var y := data[0];
    var q := Rounds(k);
    var sum := Sum(q);
    ghost var r := q;
    SumZero(q);
    while sum != 0
      invariant 0 <= r <= q && sum == Sum(r) && (sum == 0 <==> r == 0) && y == data[0] && data[k..] == old(data[k..])
      invariant DecryptRounds(mix, data[..k], r) == DecryptRounds(mix, old(data[..k]), q)
      decreases r
    {
      ghost var d := data[..k];
      y := DecryptRound(mix, data, k, y, sum);
      assert DecryptRounds(mix, data[..k], r - 1) == DecryptRounds(mix, d, r);
      sum := SumBefore(sum, r);
      r := r - 1;
    }
  }

  /** `xxtea_uint_decrypt`; not `ok` is the division by zero. */
  method DecryptWords(mix: Mix, data: array<Word>) returns (ok: bool)
    requires data.Length >= 1
    modifies data
    ensures ok == Countable(data.Length)
    ensures data[..] == if ok then Decrypted(mix, old(data[..])) else old(data[..])
  {
    var k := data.Length % M;
    if k == 0 {
      return false;
    }
    if k >= 2 {
      DecryptLoop(mix, data, k);
      Joined(old(data[..]), k);
      Joined(data[..], k);
    }
    return true;
  }

  /* ---------- Bytes ---------- */

  function Pack(b0: Byte, b1: Byte, b2: Byte, b3: Byte): Word {
    b0 + 0x100 * b1 + 0x1_0000 * b2 + 0x100_0000 * b3
  }

  function ByteOf(w: Word, k: nat): Byte
    requires k < 4
  {
    match k
    case 0 => w % 256
    case 1 => w / 0x100 % 256
    case 2 => w / 0x1_0000 % 256
    case 3 => w / 0x100_0000
  }

  /** Bytes past the end are the zeros `calloc` left. */
  function Padded(data: seq<Byte>, i: nat): Byte {
    if i < |data| then data[i] else 0
  }

  function WordCount(len: nat): nat {
    if len % 4 == 0 then len / 4 else len / 4 + 1
  }

  /** `xxtea_to_uint_array` without the length word, on a little-endian machine. */
  function ToWords(data: seq<Byte>): (ws: seq<Word>)
    ensures |ws| == WordCount(|data|)
  {
    seq(WordCount(|data|), i requires 0 <= i =>
      Pack(Padded(data, 4 * i), Padded(data, 4 * i + 1), Padded(data, 4 * i + 2), Padded(data, 4 * i + 3)))
  }

  /** The `memcpy` of `xxtea_to_ubyte_array`. */
  function ToBytes(ws: seq<Word>, n: nat): (data: seq<Byte>)
    requires n <= 4 * |ws|
    ensures |data| == n
  {
    seq(n, i requires 0 <= i < n => ByteOf(ws[i / 4], i % 4))
  }

  lemma PackBytes(b0: Byte, b1: Byte, b2: Byte, b3: Byte)
    ensures var w := Pack(b0, b1, b2, b3);
            ByteOf(w, 0) == b0 && ByteOf(w, 1) == b1 && ByteOf(w, 2) == b2 && ByteOf(w, 3) == b3
  {
    var w, c2 := Pack(b0, b1, b2, b3), b2 + 0x100 * b3;
    var c1 := b1 + 0x100 * c2;
    ModUnique(w, c1, b0, 0x100);
    ModUnique(c1, c2, b1, 0x100);
    ModUnique(w, c2, b0 + 0x100 * b1, 0x1_0000);
    ModUnique(c2, b3, b2, 0x100);
    ModUnique(w, b3, b0 + 0x100 * b1 + 0x1_0000 * b2, 0x100_0000);
  }

  lemma PackOf(w: Word)
    ensures Pack(ByteOf(w, 0), ByteOf(w, 1), ByteOf(w, 2), ByteOf(w, 3)) == w
  {
    var a, b := w / 0x100, w / 0x1_0000;
    ModUnique(w, a / 0x100, a % 0x100 * 0x100 + w % 0x100, 0x1_0000);
    ModUnique(w, b / 0x100, b % 0x100 * 0x1_0000 + w % 0x1_0000, 0x100_0000);
  }

  lemma BytesOfWords(data: seq<Byte>, x: Word)
    ensures |data| <= 4 * |ToWords(data)| && ToBytes(ToWords(data) + [x], |data|) == data
  {
    var r := ToBytes(ToWords(data) + [x], |data|);
    forall i | 0 <= i < |data| ensures r[i] == data[i] {
      var k := i / 4;
      PackBytes(Padded(data, 4 * k), Padded(data, 4 * k + 1), Padded(data, 4 * k + 2), Padded(data, 4 * k + 3));
    }
  }

  lemma QuotRem(k: nat, j: nat)
    requires j < 4
    ensures (4 * k + j) / 4 == k && (4 * k + j) % 4 == j
  {
  }

  lemma WordOfBytes(ws: seq<Word>, k: nat)
    requires k < |ws|
    ensures var d := ToBytes(ws, 4 * |ws|);
            Pack(Padded(d, 4 * k), Padded(d, 4 * k + 1), Padded(d, 4 * k + 2), Padded(d, 4 * k + 3)) == ws[k]
  {
    QuotRem(k, 0);
    QuotRem(k, 1);
    QuotRem(k, 2);
    QuotRem(k, 3);
    PackOf(ws[k]);
  }

  lemma WordsOfBytes(ws: seq<Word>)
    ensures ToWords(ToBytes(ws, 4 * |ws|)) == ws
  {
    var r := ToWords(ToBytes(ws, 4 * |ws|));
    forall k: nat | k < |ws| ensures r[k] == ws[k] {
      WordOfBytes(ws, k);
    }
  }

  /* ---------- eypt and dypt ---------- */

  /** `FIXED_KEY`: the key stops at its first zero byte. */
  ghost function KeyUpToZero(key: seq<Byte>): (r: seq<Byte>)
    ensures |r| == |key|
  {
    seq(|key|, j requires 0 <= j < |key| => if 0 in key[..j] then 0 else key[j])
  }

  method FixKey(key: seq<Byte>) returns (fixed: seq<Byte>)
    requires |key| == 16
    ensures fixed == KeyUpToZero(key)
  {
    fixed := key;
    var i := 0;
    while i < 16 && fixed[i] != 0
      invariant 0 <= i <= 16 && 0 !in key[..i]
    {
      i := i + 1;
    }
    ghost var z := i;
    i := i + 1;
    while i < 16
      invariant z < i && z <= 16 && (z < 16 ==> i <= 16 && key[z] == 0) && |fixed| == 16
      invariant forall j :: 0 <= j < 16 ==> fixed[j] == if z < j < i then 0 else key[j]
    {
      fixed := fixed[i := 0];
      i := i + 1;
    }
    assert forall j :: z < j < 16 ==> key[z] in key[..j];
  }

  function KeyMix(key: seq<Word>): Mix
    requires |key| == 4
  {
    (z, y, sum, p) => MX(key, z, y, sum, p)
  }

  /** The data and its length modulo 2^32, as words. */
  function Framed(data: seq<Byte>): seq<Word> {
    ToWords(data) + [|data| % M]
  }

  /** What a call ends in: a division by zero, a null pointer, or bytes. */
  datatype Outcome = Trap | Null | Bytes(value: seq<Byte>)

  /** The length check of `xxtea_to_ubyte_array`; `n - 3` wraps in `size_t` when there is one word. */
  predicate Accepts(m: int, n: int) {
    !(m < (n - 3) % SIZE_MAX1 || m > n)
  }

  function Unframed(ws: seq<Word>): (r: Outcome)
    requires |ws| >= 1
  {
    var n := 4 * (|ws| - 1);
    var m := ws[|ws| - 1];
    if Accepts(m, n) then Bytes(ToBytes(ws, m)) else Null
  }

  ghost function EyptOf(data: seq<Byte>, key: seq<Byte>): Outcome
    requires |key| == 16
  {
    if data == [] then Null
    else if !Countable(|Framed(data)|) then Trap
    else
      var ws := Encrypted(KeyMix(ToWords(KeyUpToZero(key))), Framed(data));
      Bytes(ToBytes(ws, 4 * |ws|))
  }

  ghost function DyptOf(data: seq<Byte>, key: seq<Byte>): Outcome
    requires |key| == 16
  {
    if data == [] then Null
    else if !Countable(|ToWords(data)|) then Trap
    else Unframed(Decrypted(KeyMix(ToWords(KeyUpToZero(key))), ToWords(data)))
  }

  /** The bytes of the words fit in a `size_t`. */
  predicate Sizable(words: nat) {
    4 * words < SIZE_MAX1
  }

  /** `eypt` */
  method Eypt(data: seq<Byte>, key: seq<Byte>) returns (r: Outcome)
    requires |key| == 16 && Sizable(WordCount(|data|) + 1)
    ensures r == EyptOf(data, key)
  {
    var fixed := FixKey(key);
    if |data| == 0 {
      return Null;
    }
    var ws := Framed(data);
    var a := new Word[|ws|](i requires 0 <= i < |ws| => ws[i]);
    assert a[..] == ws;
    var ok := EncryptWords(KeyMix(ToWords(fixed)), a);
    return if ok then Bytes(ToBytes(a[..], 4 * a.Length)) else Trap;
  }

  /** `dypt` */
  method Dypt(data: seq<Byte>, key: seq<Byte>) returns (r: Outcome)
    requires |key| == 16 && Sizable(WordCount(|data|))
    ensures r == DyptOf(data, key)
  {
    var fixed := FixKey(key);
    if |data| == 0 {
      return Null;
    }
    var ws := ToWords(data);
    var a := new Word[|ws|](i requires 0 <= i < |ws| => ws[i]);
    assert a[..] == ws;
    var ok := DecryptWords(KeyMix(ToWords(fixed)), a);
    return if ok then Unframed(a[..]) else Trap;
  }

  lemma LengthCheck(len: nat)
    requires 1 <= len && Sizable(WordCount(len) + 1)
    ensures Accepts(len % M, 4 * WordCount(len)) <==> len < M
    ensures len < M ==> len % M == len
  {
    var n := 4 * WordCount(len);
    assert n - 3 <= len <= n;
    ModUnique(n - 3, 0, n - 3, SIZE_MAX1);
    if len < M {
      ModUnique(len, 0, len, M);
    }
  }

  /** Framing loses nothing, unless the length does not fit its word. */
  lemma UnframedFramed(data: seq<Byte>)
    requires 1 <= |data| && Sizable(WordCount(|data|) + 1)
    ensures Unframed(Framed(data)) == if |data| < M then Bytes(data) else Null
  {
    var ws := Framed(data);
    assert |ws| - 1 == WordCount(|data|) && ws[|ws| - 1] == |data| % M;
    LengthCheck(|data|);
    BytesOfWords(data, |data| % M);
  }

  /** Decryption undoes encryption, for every key, exactly on the data whose length fits in 32 bits; longer
      data is refused when it comes back, or divides by zero on the way out. */
  lemma DyptEypt(data: seq<Byte>, key: seq<Byte>)
    requires |key| == 16 && 1 <= |data| && Sizable(WordCount(|data|) + 1)
    ensures |data| < M ==> EyptOf(data, key).Bytes? && DyptOf(EyptOf(data, key).value, key) == Bytes(data)
    ensures |data| >= M ==> EyptOf(data, key).Trap? ||
                            (EyptOf(data, key).Bytes? && DyptOf(EyptOf(data, key).value, key) == Null)
    ensures EyptOf(data, key).Trap? <==> (WordCount(|data|) + 1) % M == 0
  {
    if |data| < M {
      ModUnique(WordCount(|data|) + 1, 0, WordCount(|data|) + 1, M);
    }
    if Countable(|Framed(data)|) {
      var mix := KeyMix(ToWords(KeyUpToZero(key)));
      var ws := Encrypted(mix, Framed(data));
      WordsOfBytes(ws);
      CipherInverse(mix, Framed(data));
      UnframedFramed(data);
    }
  }

  /** The shortest data that does not come back: 2^32 bytes, here zeros. */
  lemma TooLong(data: seq<Byte>, key: seq<Byte>)
    requires |key| == 16 && data == seq(M, i => 0)
    ensures EyptOf(data, key).Bytes? && DyptOf(EyptOf(data, key).value, key) == Null
  {
    DyptEypt(data, key);
    ModUnique(WordCount(M) + 1, 0, WordCount(M) + 1, M);
  }

  lemma KeyPrefix(key: seq<Byte>, key': seq<Byte>, z: nat)
    requires |key| == |key'| == 16 && z < 16 && key[..z + 1] == key'[..z + 1] && key[z] == 0
    ensures KeyUpToZero(key) == KeyUpToZero(key')
  {
  }

  /** What follows the first zero byte of a key makes no difference: it decrypts what the other
      encrypted. */
  lemma KeyTail(data: seq<Byte>, key: seq<Byte>, key': seq<Byte>, z: nat)
    requires |key| == |key'| == 16 && z < 16 && key[..z + 1] == key'[..z + 1] && key[z] == 0
    requires 1 <= |data| < M
    ensures EyptOf(data, key') == EyptOf(data, key) && EyptOf(data, key).Bytes?
    ensures DyptOf(EyptOf(data, key).value, key') == Bytes(data)
  {
    KeyPrefix(key, key', z);
    DyptEypt(data, key);
  }
}
