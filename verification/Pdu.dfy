/** Building and decoding the data of FC01-04 responses: bits packed eight to a byte, lowest
    first, and big-endian words (sections 6.1 to 6.4 of the MODBUS Application Protocol
    Specification; internal/modbus/client.go:338-348, internal/replay/replay.go:331-351). */
module Pdu {
  import opened ScanTypes

  const MAX_READ_BITS: U16 := 2000
  const MAX_READ_REGISTERS: U16 := 125

  // ----- bits -----

  predicate Bit(b: nat, k: nat) {
    if k == 0 then b % 2 == 1 else Bit(b / 2, k - 1)
  }

  /** b with bit k set: b | 1<<k. */
  function SetBit(b: nat, k: nat): nat {
    if k == 0 then b - b % 2 + 1 else b % 2 + 2 * SetBit(b / 2, k - 1)
  }

  lemma {:induction false} SetBitFits(b: nat, k: nat, n: nat)
    requires b < Pow2(n) && k < n
    ensures SetBit(b, k) < Pow2(n)
  {
    var half, m := b / 2, Pow2(n - 1);
    assert Pow2(n) == 2 * m && half < m;
    if k > 0 {
      SetBitFits(half, k - 1, n - 1);
      assert SetBit(b, k) == b % 2 + 2 * SetBit(half, k - 1);
    }
  }

  lemma {:induction false} SetBitSets(b: nat, k: nat, j: nat)
    ensures Bit(SetBit(b, k), j) <==> j == k || Bit(b, j)
  {
    if k > 0 && j > 0 {
      SetBitSets(b / 2, k - 1, j - 1);
      assert SetBit(b, k) / 2 == SetBit(b / 2, k - 1);
    } else if j > 0 {
      assert SetBit(b, 0) / 2 == b / 2;
    }
  }

  lemma {:induction false} ZeroHasNoBits(j: nat)
    ensures !Bit(0, j)
  {
    if j > 0 {
      ZeroHasNoBits(j - 1);
    }
  }

  /** Bit k of a byte by arithmetic: shifted right by k it is odd. */
  lemma {:induction false} BitIsShifted(b: nat, k: nat)
    requires k < 8
    ensures Bit(b, k) <==> b / Pow2(k) % 2 == 1
  {
    if k > 0 {
      BitIsShifted(b / 2, k - 1);
      ShiftTwice(b, k);
    }
  }

  lemma ShiftTwice(b: nat, k: nat)
    requires 1 <= k < 8
    ensures b / 2 / Pow2(k - 1) == b / Pow2(k)
  {
    assert Pow2(1) == 2 && Pow2(2) == 4 && Pow2(3) == 8 && Pow2(4) == 16;
    assert Pow2(5) == 32 && Pow2(6) == 64 && Pow2(7) == 128;
    assert k == 1 || k == 2 || k == 3 || k == 4 || k == 5 || k == 6 || k == 7;
  }

  /** Bit k of the packed data. */
  predicate BitOf(data: seq<Byte>, k: nat)
    requires k < 8 * |data|
  {
    Bit(data[k / 8], k % 8)
  }

  /** The first bits of data are bits, and the rest are padding. */
  ghost predicate Packs(data: seq<Byte>, bits: seq<bool>) {
    && |data| == (|bits| + 7) / 8
    && forall k {:trigger BitOf(data, k)} :: 0 <= k < 8 * |data| ==> (BitOf(data, k) <==> k < |bits| && bits[k])
  }

  /** Packs bools, one bit each, lowest bit of the first byte first. */
  method PackCoilsToBytes(bools: seq<bool>) returns (out: seq<Byte>)
    ensures Packs(out, bools) && PackedBytes(out, bools)
  {
    var n := (|bools| + 7) / 8;
    out := seq(n, _ => 0);
    forall k | 0 <= k < 8 * n ensures !BitOf(out, k) {
      ZeroHasNoBits(k % 8);
    }
    for i := 0 to |bools|
      invariant |out| == n
      invariant forall k {:trigger BitOf(out, k)} :: 0 <= k < 8 * n ==> (BitOf(out, k) <==> k < i && bools[k])
    {
      if bools[i] {
        ghost var was := out;
        SetBitFits(out[i / 8], i % 8, 8);
        assert Pow2(8) == 256;
        out := out[i / 8 := SetBit(out[i / 8], i % 8)];
        forall k | 0 <= k < 8 * n ensures BitOf(out, k) <==> k == i || BitOf(was, k) {
          if k / 8 == i / 8 {
            SetBitSets(was[i / 8], i % 8, k % 8);
          }
        }
      }
    }
    PackedIsBytes(out, bools);
  }

  /** Packed data, byte by byte: the k-th bool is in byte k / 8 with the value 2^(k % 8), and
      every bit beyond the last bool is zero. */
  ghost predicate PackedBytes(data: seq<Byte>, bits: seq<bool>) {
    && |data| == (|bits| + 7) / 8
    && forall i, j :: 0 <= i < |data| && 0 <= j < 8 ==> BitAt(data[i], j) == (8 * i + j < |bits| && bits[8 * i + j])
  }

  predicate BitAt(b: Byte, j: nat) {
    b / Pow2(j) % 2 == 1
  }

  lemma PackedIsBytes(data: seq<Byte>, bits: seq<bool>)
    requires Packs(data, bits)
    ensures PackedBytes(data, bits)
  {
    forall i, j | 0 <= i < |data| && 0 <= j < 8 ensures BitAt(data[i], j) == (8 * i + j < |bits| && bits[8 * i + j]) {
      var k := 8 * i + j;
      BitIsShifted(data[i], j);
      assert k / 8 == i && k % 8 == j;
      assert BitOf(data, k) <==> k < |bits| && bits[k];
    }
  }

  function Unpack(data: seq<Byte>, n: nat): seq<bool>
    requires n <= 8 * |data|
  {
    seq(n, i requires 0 <= i < n => BitOf(data, i))
  }

  /** Unpacking undoes packing, whatever the padding is. */
  lemma UnpackPacked(data: seq<Byte>, bits: seq<bool>)
    requires Packs(data, bits)
    ensures Unpack(data, |bits|) == bits
  {
    forall i | 0 <= i < |bits| ensures Unpack(data, |bits|)[i] == bits[i] {
      assert BitOf(data, i) <==> i < |bits| && bits[i];
    }
  }

  // ----- words -----

  function HighByte(w: U16): Byte {
    w / 256
  }

  function LowByte(w: U16): Byte {
    w % 256
  }

  function Word(high: Byte, low: Byte): U16 {
    var h: int, l: int := high, low;
    h * 256 + l
  }

  lemma WordOfBytes(w: U16)
    ensures Word(HighByte(w), LowByte(w)) == w
  {
  }

  function WordBytes(words: seq<U16>): seq<Byte> {
    if words == [] then []
    else WordBytes(words[..|words| - 1]) + [HighByte(words[|words| - 1]), LowByte(words[|words| - 1])]
  }

  function Words(data: seq<Byte>): seq<U16>
    requires |data| % 2 == 0
  {
    seq(|data| / 2, i requires 0 <= i < |data| / 2 => Word(data[2 * i], data[2 * i + 1]))
  }

  lemma {:induction false} WordsOfBytes(words: seq<U16>)
    ensures |WordBytes(words)| == 2 * |words| && Words(WordBytes(words)) == words
  {
    if words != [] {
      var front, w := words[..|words| - 1], words[|words| - 1];
      WordsOfBytes(front);
      WordOfBytes(w);
      assert forall i :: 0 <= i < |front| ==> Words(WordBytes(words))[i] == Words(WordBytes(front))[i];
    }
  }

  // ----- responses -----

  function Bools(vals: seq<U16>): seq<bool> {
    seq(|vals|, i requires 0 <= i < |vals| => vals[i] != 0)
  }

  function Flags(bits: seq<bool>): seq<U16> {
    seq(|bits|, i requires 0 <= i < |bits| => if bits[i] then 1 else 0)
  }

  /** What a client reads from the response to a request for qty values of fc. */
  function Decode(fc: Byte, qty: U16, resp: seq<Byte>): Option<seq<U16>> {
    if |resp| < 2 || resp[0] != fc || resp[1] != |resp| - 2 then None
    else if fc <= 2 then
      if |resp| - 2 != (qty + 7) / 8 then None else Some(Flags(Unpack(resp[2..], qty)))
    else
      if |resp| - 2 != 2 * qty then None else Some(Words(resp[2..]))
  }

  /** The bytes of the response carrying vals: the function, the number of bytes, and behind
      them bits lowest first (a bit is set if the value is not zero) or words high byte first. */
  ghost predicate Carries(fc: Byte, vals: seq<U16>, resp: seq<Byte>) {
    && |resp| == 2 + (if fc <= 2 then (|vals| + 7) / 8 else 2 * |vals|)
    && resp[0] == fc && resp[1] == |resp| - 2
    && if fc <= 2 then
         var data := resp[2..];
         forall i, j :: 0 <= i < |data| && 0 <= j < 8 ==> BitAt(data[i], j) == (8 * i + j < |vals| && vals[8 * i + j] != 0)
       else
         forall i :: 0 <= i < |vals| ==> resp[2 + 2 * i] == vals[i] / 256 && resp[3 + 2 * i] == vals[i] % 256
  }

  lemma {:induction false} WordBytesAre(words: seq<U16>)
    ensures |WordBytes(words)| == 2 * |words|
    ensures forall i :: 0 <= i < |words| ==> WordBytes(words)[2 * i] == words[i] / 256 && WordBytes(words)[2 * i + 1] == words[i] % 256
  {
    if words != [] {
      WordBytesAre(words[..|words| - 1]);
    }
  }

  lemma BitsCarry(fc: Byte, vals: seq<U16>, data: seq<Byte>, resp: seq<Byte>)
    requires 1 <= fc <= 2 && |vals| <= MAX_READ_BITS && PackedBytes(data, Bools(vals)) && resp == [fc, |data|] + data
    ensures Carries(fc, vals, resp)
  {
    assert resp[2..] == data;
    forall i, j | 0 <= i < |data| && 0 <= j < 8 ensures BitAt(data[i], j) == (8 * i + j < |vals| && vals[8 * i + j] != 0) {
      assert 8 * i + j < |vals| ==> Bools(vals)[8 * i + j] == (vals[8 * i + j] != 0);
    }
  }

  lemma WordsCarry(fc: Byte, vals: seq<U16>, resp: seq<Byte>)
    requires 3 <= fc <= 4 && |vals| <= MAX_READ_REGISTERS && resp == [fc, 2 * |vals|] + WordBytes(vals)
    ensures Carries(fc, vals, resp)
  {
    WordBytesAre(vals);
    forall i | 0 <= i < |vals| ensures resp[2 + 2 * i] == vals[i] / 256 && resp[3 + 2 * i] == vals[i] % 256 {
      assert resp[2 + 2 * i] == WordBytes(vals)[2 * i] && resp[3 + 2 * i] == WordBytes(vals)[2 * i + 1];
    }
  }

  /** The response carrying vals. */
  method Encode(fc: Byte, vals: seq<U16>) returns (resp: seq<Byte>)
    requires 1 <= fc <= 4 && |vals| <= if fc <= 2 then MAX_READ_BITS else MAX_READ_REGISTERS
    ensures Decode(fc, |vals|, resp) == Some(if fc <= 2 then Flags(Bools(vals)) else vals)
    ensures Carries(fc, vals, resp)
  {
    if fc <= 2 {
      var data := PackCoilsToBytes(Bools(vals));
      UnpackPacked(data, Bools(vals));
      resp := [fc, |data|] + data;
      assert resp[2..] == data;
      BitsCarry(fc, vals, data, resp);
    } else {
      resp := [fc, 2 * |vals|];
      for i := 0 to |vals|
        invariant resp == [fc, 2 * |vals|] + WordBytes(vals[..i])
      {
        assert vals[..i + 1][..i] == vals[..i];
        resp := resp + [HighByte(vals[i]), LowByte(vals[i])];
      }
      assert vals[..|vals|] == vals;
      WordsOfBytes(vals);
      assert resp[2..] == WordBytes(vals);
      WordsCarry(fc, vals, resp);
    }
  }
}
