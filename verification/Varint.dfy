/** Base 128 varints: the length prefix of every frame on the socket. */
module Varint {

  type byte = b: int | 0 <= b < 256

  const U32_LIMIT: nat := 0x1_0000_0000

  /** Longest varint the decoder reads before it gives up (64 bits in groups of 7). */
  const MAX_GROUPS: nat := 10

  // ---------------------------------------------------------------- encoding

  /** Groups of seven bits, least significant first; all but the last carry the high bit. */
  function Encode(value: nat): seq<byte>
    decreases value
  {
    if value < 128 then [value] else [128 + value % 128] + Encode(value / 128)
  }

  /** The encoder's loop: emits the current group with the high bit while more bits remain. */
  method EncodeVarint(value: nat) returns (out: seq<byte>)
    ensures out == Encode(value)
  {
    out := [];
    var bits: nat, rest: nat := value % 128, value / 128;
    while rest != 0
      invariant bits < 128
      invariant out + Encode(bits + 128 * rest) == Encode(value)
      decreases rest
    {
      ghost var left := bits + 128 * rest;
      assert left % 128 == bits && left / 128 == rest;
      out := out + [128 + bits];
      bits, rest := rest % 128, rest / 128;
    }
    out := out + [bits];
  }

  // ---------------------------------------------------------------- decoding

  datatype Decoded =
    | Complete(value: nat, length: nat)
    | Incomplete
    | Overlong

  /** How many bytes at the front of `s` announce a successor. */
  function Continuations(s: seq<byte>): (n: nat)
    ensures n <= |s|
  {
    if s == [] || s[0] < 128 then 0 else 1 + Continuations(s[1..])
  }

  /** The number whose base-128 digits are the low seven bits of `s`. */
  function Value(s: seq<byte>): nat {
    if s == [] then 0 else s[0] % 128 + 128 * Value(s[1..])
  }

  /** What a reader at the front of `s` sees. */
  function Decode(s: seq<byte>): Decoded {
    var k := Continuations(s);
    if k >= MAX_GROUPS then Overlong
    else if k == |s| then Incomplete
    else Complete(Value(s[..k + 1]) % U32_LIMIT, k + 1)
  }

  function Pow2(n: nat): (p: nat)
    ensures p > 0
  {
    if n == 0 then 1 else 2 * Pow2(n - 1)
  }

  /** The decoder's loop. Its bitwise `or` is written as `+`: the accumulated value stays
      below 2^shift, so the operands never share a bit. */
  method DecodeVarint(buffer: seq<byte>, start: nat) returns (r: Decoded)
    requires start <= |buffer|
    ensures r == Decode(buffer[start..])
  {
    var result, shift, pos := 0, 0, start;
    ghost var s := buffer[start..];
    while true
      invariant start <= pos <= |buffer|
      invariant shift == 7 * (pos - start) < 64
      invariant result == Value(s[..pos - start]) < Pow2(shift)
      invariant forall i :: 0 <= i < pos - start ==> s[i] >= 128
      decreases |buffer| - pos
    {
      ghost var k := pos - start;
      if pos == |buffer| {
        ContinuationsAre(s, k);
        return Incomplete;
      }
      var b := buffer[pos];
      assert s[..k + 1] == s[..k] + [b];
      ValueSnoc(s[..k], b);
      ValueBound(s[..k + 1]);
      result := result + (b % 128) * Pow2(shift);
      pos := pos + 1;
      if b < 128 {
        ContinuationsAre(s, k);
        return Complete(result % U32_LIMIT, pos - start);
      }
      shift := shift + 7;
      if shift >= 64 {
        ContinuationsAtLeast(s, k + 1);
        return Overlong;
      }
    }
  }

  // ------------------------------------------------------------------ lemmas

  lemma {:induction false} ContinuationsAre(s: seq<byte>, k: nat)
    requires k <= |s|
    requires forall i :: 0 <= i < k ==> s[i] >= 128
    requires k == |s| || s[k] < 128
    ensures Continuations(s) == k
  {
    if k == 0 {
    } else {
      ContinuationsAre(s[1..], k - 1);
    }
  }

  lemma {:induction false} ContinuationsAtLeast(s: seq<byte>, k: nat)
    requires k <= |s|
    requires forall i :: 0 <= i < k ==> s[i] >= 128
    ensures Continuations(s) >= k
  {
    if k == 0 {
    } else {
      ContinuationsAtLeast(s[1..], k - 1);
    }
  }

  lemma {:induction false} ContinuationsPrefix(s: seq<byte>)
    ensures forall i :: 0 <= i < Continuations(s) ==> s[i] >= 128
    ensures Continuations(s) < |s| ==> s[Continuations(s)] < 128
  {
    if s == [] || s[0] < 128 {
    } else {
      ContinuationsPrefix(s[1..]);
      var k := Continuations(s);
      assert forall i :: 0 < i < k ==> s[i] == s[1..][i - 1];
    }
  }

  lemma {:induction false} ValueBound(s: seq<byte>)
    ensures Value(s) < Pow2(7 * |s|)
  {
    if s == [] {
    } else {
      ValueBound(s[1..]);
      Shift7(7 * |s| - 7);
    }
  }

  lemma ShiftDigit(v: nat, d: nat, p: nat)
    ensures 128 * (v + d * p) == 128 * v + d * (128 * p)
  {
  }

  lemma {:induction false} ValueSnoc(s: seq<byte>, b: byte)
    ensures Value(s + [b]) == Value(s) + (b % 128) * Pow2(7 * |s|)
  {
    var d := b % 128;
    if s == [] {
      assert (s + [b])[1..] == [] && Pow2(0) == 1;
      assert d * 1 == d;
    } else {
      var p := Pow2(7 * |s| - 7);
      assert (s + [b])[1..] == s[1..] + [b];
      calc {
        Value(s + [b]);
        s[0] % 128 + 128 * Value(s[1..] + [b]);
        { ValueSnoc(s[1..], b); }
        s[0] % 128 + 128 * (Value(s[1..]) + d * p);
        { ShiftDigit(Value(s[1..]), d, p); }
        Value(s) + d * (128 * p);
        { Shift7(7 * |s| - 7); }
        Value(s) + d * Pow2(7 * |s|);
      }
    }
  }

  lemma Shift7(n: nat)
    ensures Pow2(n + 7) == 128 * Pow2(n)
  {
    assert Pow2(n + 7) == 2 * Pow2(n + 6) == 4 * Pow2(n + 5) == 8 * Pow2(n + 4);
    assert Pow2(n + 4) == 2 * Pow2(n + 3) == 4 * Pow2(n + 2) == 8 * Pow2(n + 1);
  }

  /** An encoding is one run of continuation bytes and a terminator, and spells its value. */
  lemma {:induction false} EncodeShape(value: nat)
    ensures Encode(value) != []
    ensures Continuations(Encode(value)) == |Encode(value)| - 1
    ensures Value(Encode(value)) == value
    decreases value
  {
    if value < 128 {
      assert [value][1..] == [];
    } else {
      var tail := Encode(value / 128);
      EncodeShape(value / 128);
      assert Encode(value)[1..] == tail;
    }
  }

  lemma {:induction false} EncodeLength(value: nat, groups: nat)
    requires groups > 0 && value < Pow2(7 * groups)
    ensures |Encode(value)| <= groups
  {
    if value < 128 {
    } else {
      assert Pow2(7) == 128 by { Shift7(0); }
      Shift7(7 * (groups - 1));
      EncodeLength(value / 128, groups - 1);
    }
  }

  /** Every 32-bit length takes at most five bytes. */
  lemma EncodeAtMostFive(value: nat)
    requires value < U32_LIMIT
    ensures 1 <= |Encode(value)| <= 5
  {
    Shift7(0); Shift7(7); Shift7(14); Shift7(21); Shift7(28);
    EncodeLength(value, 5);
    EncodeShape(value);
  }

  /** Bytes that arrive later never change what has been decoded, nor an overlong verdict. */
  lemma DecodeStable(s: seq<byte>, more: seq<byte>)
    requires Decode(s) != Incomplete
    ensures Decode(s + more) == Decode(s)
  {
    ContinuationsPrefix(s);
    var k := Continuations(s);
    if k < |s| {
      ContinuationsAre(s + more, k);
      assert (s + more)[..k + 1] == s[..k + 1];
    } else {
      ContinuationsAtLeast(s + more, k);
    }
  }

  /** A decode consumes exactly its own bytes: none of its proper prefixes decodes. */
  lemma DecodeExact(s: seq<byte>, cut: nat)
    requires Decode(s).Complete?
    requires cut < Decode(s).length
    ensures Decode(s).length <= |s|
    ensures Decode(s[..cut]) == Incomplete
  {
    ContinuationsPrefix(s);
    ContinuationsAre(s[..cut], cut);
  }

  /** Round trip: for any trailing bytes, decoding an encoding returns the value and the
      encoding's length, and no proper prefix of the encoding decodes. */
  lemma VarintRoundTrip(value: nat, more: seq<byte>)
    requires value < U32_LIMIT
    ensures Decode(Encode(value) + more) == Complete(value, |Encode(value)|)
    ensures 1 <= |Encode(value)| <= 5
    ensures forall cut :: 0 <= cut < |Encode(value)| ==> Decode(Encode(value)[..cut]) == Incomplete
  {
    var e := Encode(value);
    EncodeShape(value);
    EncodeAtMostFive(value);
    assert e[..|e|] == e;
    assert Decode(e) == Complete(value, |e|);
    DecodeStable(e, more);
    forall cut | 0 <= cut < |e| ensures Decode(e[..cut]) == Incomplete {
      DecodeExact(e, cut);
    }
  }
}
