/** The rotate-and-add checksums of the C library and of its JavaScript binding. */
module Checksum {
  import opened Bits

  /** The two rotations in use: 5 for frames, 8 for machine states. */
  type Rotation = k: nat | k == 5 || k == 8 witness 5

  /** `(c << k) | (c >> (32 - k))` on `uint32_t`. */
  function RotateLeft(c: Word, k: Rotation): (r: nat) {
    if k == 5 then BitOr(c * 0x20 % WORD, c / 0x800_0000)
    else BitOr(c * 0x100 % WORD, c / 0x100_0000)
  }

  /** One step of the checksum loop, in `uint32_t` arithmetic. */
  function Absorb(k: Rotation, acc: Word, b: Byte): (r: Word)
  {
    (RotateLeft(acc, k) + b) % WORD
  }

  /** The checksum of `data` starting from `acc`. */
  function Sum(k: Rotation, acc: Word, data: seq<Byte>): (r: Word)
  {
    if data == [] then acc
    else Absorb(k, Sum(k, acc, data[..|data| - 1]), data[|data| - 1])
  }

  /** The checksum carried by a frame (rotation by 5). */
  function FrameChecksum(data: seq<Byte>): (r: Word) {
    Sum(5, 0, data)
  }

  /** The loop of polycall_protocol_calculate_checksum. */
  method CalculateChecksum(data: seq<Byte>) returns (checksum: Word)
    ensures checksum == FrameChecksum(data)
  {
    if |data| == 0 {
      return 0;
    }
    checksum := 0;
    for i := 0 to |data|
      invariant checksum == Sum(5, 0, data[..i])
    {
      assert data[..i + 1][..i] == data[..i];
      checksum := Absorb(5, checksum, data[i]);
    }
    assert data[..|data|] == data;
  }

  /** The loop of calculate_state_checksum: rotate in one statement, add in the next. */
  method CalculateStateChecksum(data: seq<Byte>) returns (checksum: Word)
    ensures checksum == Sum(8, 0, data)
  {
    checksum := 0;
    for i := 0 to |data|
      invariant checksum == Sum(8, 0, data[..i])
    {
      assert data[..i + 1][..i] == data[..i];
      RotateParts(checksum, 8);
      checksum := RotateLeft(checksum, 8);
      checksum := (checksum + data[i]) % WORD;
    }
    assert data[..|data|] == data;
  }

  // ----- A step loses nothing

  lemma OrIsSum5(a: nat, y: nat)
    requires y < 0x20
    ensures BitOr(a * 0x20, y) == a * 0x20 + y
  {
    OrIsSum(a, y, 5);
  }

  lemma OrIsSum8(a: nat, y: nat)
    requires y < 0x100
    ensures BitOr(a * 0x100, y) == a * 0x100 + y
  {
    OrIsSum(a, y, 8);
  }

  /** Rotation as arithmetic: the low bits move up, the high bits move down. */
  function Rotated(c: Word, k: Rotation): (r: Word) {
    if k == 5 then c % 0x800_0000 * 0x20 + c / 0x800_0000
    else c % 0x100_0000 * 0x100 + c / 0x100_0000
  }

  lemma RotateParts(c: Word, k: Rotation)
    ensures RotateLeft(c, k) == Rotated(c, k)
  {
    if k == 5 {
      assert c * 0x20 % WORD == c % 0x800_0000 * 0x20;
      OrIsSum5(c % 0x800_0000, c / 0x800_0000);
    } else {
      assert c * 0x100 % WORD == c % 0x100_0000 * 0x100;
      OrIsSum8(c % 0x100_0000, c / 0x100_0000);
    }
  }

  lemma RotateInjective(c: Word, d: Word, k: Rotation)
    requires Rotated(c, k) == Rotated(d, k)
    ensures c == d
  {
    if k == 5 {
      Rejoin(c / 0x800_0000, c % 0x800_0000, d / 0x800_0000, d % 0x800_0000, 0x20);
    } else {
      Rejoin(c / 0x100_0000, c % 0x100_0000, d / 0x100_0000, d % 0x100_0000, 0x100);
    }
  }

  lemma Rejoin(high: nat, low: nat, high': nat, low': nat, base: nat)
    requires base == 0x20 || base == 0x100
    requires high < base && high' < base
    requires low * base + high == low' * base + high'
    ensures high == high' && low == low'
  {
  }

  /** For a fixed byte the step is injective in the accumulator, and for a fixed
      accumulator it is injective in the byte. */
  lemma AbsorbInjective(k: Rotation, x: Word, y: Word, b: Byte, c: Byte)
    requires Absorb(k, x, b) == Absorb(k, y, c)
    ensures (x == y) == (b == c)
  {
    RotateParts(x, k);
    RotateParts(y, k);
    var r, s: int := RotateLeft(x, k), RotateLeft(y, k);
    if x == y {
      CongruentBytes(r, b, c);
    } else if b == c {
      CongruentWords(r, s, b);
      RotateInjective(x, y, k);
    }
  }

  lemma CongruentBytes(r: Word, b: Byte, c: Byte)
    requires (r + b) % WORD == (r + c) % WORD
    ensures b == c
  {
  }

  lemma CongruentWords(r: Word, s: Word, b: Byte)
    requires (r + b) % WORD == (s + b) % WORD
    ensures r == s
  {
  }

  /** Different accumulators stay different under the same further bytes. */
  lemma {:induction false} SumInjective(k: Rotation, x: Word, y: Word, data: seq<Byte>)
    requires x != y
    ensures Sum(k, x, data) != Sum(k, y, data)
  {
    if data != [] {
      var n := |data| - 1;
      SumInjective(k, x, y, data[..n]);
      if Sum(k, x, data) == Sum(k, y, data) {
        AbsorbInjective(k, Sum(k, x, data[..n]), Sum(k, y, data[..n]), data[n], data[n]);
      }
    }
  }

  lemma {:induction false} SumConcat(k: Rotation, acc: Word, s: seq<Byte>, t: seq<Byte>)
    ensures Sum(k, acc, s + t) == Sum(k, Sum(k, acc, s), t)
  {
    if t == [] {
      assert s + t == s;
    } else {
      var n := |t| - 1;
      SumConcat(k, acc, s, t[..n]);
      assert (s + t)[..|s + t| - 1] == s + t[..n];
    }
  }

  /** Changing exactly one byte always changes the checksum. */
  lemma OneByteChangesSum(k: Rotation, acc: Word, data: seq<Byte>, p: nat, b: Byte)
    requires p < |data| && b != data[p]
    ensures Sum(k, acc, data[p := b]) != Sum(k, acc, data)
  {
    var pre, post := data[..p], data[p + 1..];
    assert data == (pre + [data[p]]) + post;
    assert data[p := b] == (pre + [b]) + post;
    SumConcat(k, acc, pre + [data[p]], post);
    SumConcat(k, acc, pre + [b], post);
    var x := Sum(k, acc, pre);
    assert (pre + [data[p]])[..p] == pre && (pre + [b])[..p] == pre;
    if Absorb(k, x, data[p]) == Absorb(k, x, b) {
      AbsorbInjective(k, x, x, data[p], b);
    }
    SumInjective(k, Absorb(k, x, data[p]), Absorb(k, x, b), post);
  }

  /** Two payloads of one length that differ in exactly one place never share a checksum. */
  lemma SingleByteErrorDetected(k: Rotation, s: seq<Byte>, t: seq<Byte>, p: nat)
    requires |s| == |t| && p < |s| && s[p] != t[p]
    requires forall i :: 0 <= i < |s| && i != p ==> s[i] == t[i]
    ensures Sum(k, 0, s) != Sum(k, 0, t)
  {
    assert t == s[p := t[p]];
    OneByteChangesSum(k, 0, s, p, t[p]);
  }

  /** Whatever stands around it, a changed window goes unnoticed exactly if the two windows
      lead from the accumulator before them to the same one; they may differ in length. */
  lemma WindowDecides(k: Rotation, acc: Word, pre: seq<Byte>, a: seq<Byte>, b: seq<Byte>, post: seq<Byte>)
    ensures Sum(k, acc, pre + a + post) == Sum(k, acc, pre + b + post)
       <==> Sum(k, Sum(k, acc, pre), a) == Sum(k, Sum(k, acc, pre), b)
  {
    SumConcat(k, acc, pre + a, post);
    SumConcat(k, acc, pre + b, post);
    SumConcat(k, acc, pre, a);
    SumConcat(k, acc, pre, b);
    var x, y := Sum(k, acc, pre + a), Sum(k, acc, pre + b);
    if x != y { SumInjective(k, x, y, post); }
  }

  /** Which changes of the first two bytes of a payload pass: whatever follows, those that
      trade one in the first for 32 in the second. */
  lemma FrontPairPassesExactly(a: Byte, b: Byte, c: Byte, d: Byte, post: seq<Byte>)
    ensures FrameChecksum([a, b] + post) == FrameChecksum([c, d] + post) <==> 32 * a + b == 32 * c + d
  {
    SumOfTwo(a, b);
    SumOfTwo(c, d);
    WindowDecides(5, 0, [], [a, b], [c, d], post);
    assert [] + [a, b] + post == [a, b] + post && [] + [c, d] + post == [c, d] + post;
  }

  lemma TwoByteErrorCanPass(post: seq<Byte>)
    ensures FrameChecksum([1, 0] + post) == FrameChecksum([0, 32] + post)
  {
    FrontPairPassesExactly(1, 0, 0, 32, post);
  }

  /** With the state machine's rotation no change of the first two bytes passes. */
  lemma StateFrontPairIsNoticed(a: Byte, b: Byte, c: Byte, d: Byte, post: seq<Byte>)
    ensures Sum(8, 0, [a, b] + post) == Sum(8, 0, [c, d] + post) <==> a == c && b == d
  {
    StateSumOfTwo(a, b);
    StateSumOfTwo(c, d);
    WindowDecides(8, 0, [], [a, b], [c, d], post);
    assert [] + [a, b] + post == [a, b] + post && [] + [c, d] + post == [c, d] + post;
  }

  lemma StateSumOfTwo(b: Byte, c: Byte)
    ensures Sum(8, 0, [b, c]) == 256 * b + c
  {
    assert [b, c][..1] == [b];
    StateSumOfOne(b);
    RotateParts(b, 8);
    assert Rotated(b, 8) == 256 * b;
  }

  lemma StateSumOfOne(b: Byte)
    ensures Sum(8, 0, [b]) == b
  {
    assert [b][..0] == [];
    RotateParts(0, 8);
  }

  lemma SumOfOne(b: Byte)
    ensures Sum(5, 0, [b]) == b
  {
    assert [b][..0] == [];
    RotateParts(0, 5);
  }

  lemma SumOfTwo(b: Byte, c: Byte)
    ensures FrameChecksum([b, c]) == 32 * b + c
  {
    assert [b, c][..1] == [b];
    SumOfOne(b);
    RotateParts(b, 5);
    assert Rotated(b, 5) == 32 * b;
  }

  // ----- JavaScript

  /** ECMA-262 section 7.1.7. */
  function ToUint32(x: int): (r: Word) {
    x % WORD
  }

  /** ECMA-262 section 7.1.6. */
  function ToInt32(x: int): (r: int)
    ensures -0x8000_0000 <= r < 0x8000_0000
  {
    var m := x % WORD;
    if m >= 0x8000_0000 then m - WORD else m
  }

  function JsShiftLeft(x: int, k: nat): (r: int)
    requires k < 32
  {
    ToInt32(ToInt32(x) * Pow2(k))
  }

  /** The operator `>>>`. */
  function JsShiftRightUnsigned(x: int, k: nat): (r: int)
    requires k < 32
  {
    ToUint32(x) / Pow2(k)
  }

  function JsOr(x: int, y: int): (r: int) {
    ToInt32(BitOr(ToUint32(x), ToUint32(y)))
  }

  lemma JsShiftLeft5(x: int)
    ensures ToUint32(JsShiftLeft(x, 5)) == ToUint32(x) * 0x20 % WORD
  {
    assert Pow2(5) == 0x20;
    assert ToInt32(x) * 0x20 % WORD == x % WORD * 0x20 % WORD;
  }

  lemma JsShiftRight27(x: int)
    ensures ToUint32(JsShiftRightUnsigned(x, 27)) == ToUint32(x) / 0x800_0000
  {
    Pow2Word();
  }

  lemma JsOrIsRotation(u: int, v: int, c: Word)
    requires ToUint32(u) == c * 0x20 % WORD && ToUint32(v) == c / 0x800_0000
    ensures JsOr(u, v) == ToInt32(Rotated(c, 5))
  {
    RotateParts(c, 5);
  }

  lemma SignedSumCongruent(y: Word, b: Byte)
    ensures ToUint32(ToInt32(y) + b) == (y + b) % WORD
  {
  }

  /** The body of the JavaScript loop. */
  function JsStep(x: int, b: Byte): (r: int) {
    JsOr(JsShiftLeft(x, 5), JsShiftRightUnsigned(x, 27)) + b
  }

  lemma JsStepIs(x: int, b: Byte)
    ensures JsStep(x, b) == ToInt32(Rotated(ToUint32(x), 5)) + b
  {
    JsShiftLeft5(x);
    JsShiftRight27(x);
    JsOrIsRotation(JsShiftLeft(x, 5), JsShiftRightUnsigned(x, 27), ToUint32(x));
  }

  /** Whatever signed or over-wide Number represents the accumulator, one untruncated
      JavaScript step is congruent to the C step. */
  lemma JsStepCongruent(x: int, b: Byte)
    ensures ToUint32(JsStep(x, b)) == Absorb(5, ToUint32(x), b)
  {
    JsStepIs(x, b);
    RotateParts(ToUint32(x), 5);
    SignedSumCongruent(Rotated(ToUint32(x), 5), b);
  }

  /** ProtocolHandler.calculateChecksum: the accumulator is a Number that is never
      truncated inside the loop, only by `>>> 0` at the end. */
  method JsCalculateChecksum(data: seq<Byte>) returns (r: Word)
    ensures r == FrameChecksum(data)
  {
    var checksum: int := 0;
    for i := 0 to |data|
      invariant ToUint32(checksum) == Sum(5, 0, data[..i])
    {
      assert data[..i + 1][..i] == data[..i];
      JsStepCongruent(checksum, data[i]);
      checksum := JsStep(checksum, data[i]);
    }
    assert data[..|data|] == data;
    assert Pow2(0) == 1;
    r := JsShiftRightUnsigned(checksum, 0);
  }
}
