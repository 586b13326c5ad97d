/** CRC-64 as in Annex B of ECMA-182, most significant bit first, with a zero initial register and
    no final inversion: the table-driven update against bit-serial division.  A register is its 64
    bits, the most significant first. */
module Crc64 {
  import opened LinearRegister

  type Register = s: seq<bool> | |s| == 64 witness seq(64, _ => false)

  function Zero(): Register {
    seq(64, _ => false)
  }

  function Power(k: nat): (r: nat)
    ensures r > 0
  {
    if k == 0 then 1 else 2 * Power(k - 1)
  }

  /** The generator polynomial without its leading term. */
  function Polynomial(): Register {
    seq(64, i requires 0 <= i < 64 => 0x42F0E1EBA9EA3693 / Power(63 - i) % 2 == 1)
  }

  function Xor(x: Register, y: Register): Register {
    seq(64, i requires 0 <= i < 64 => x[i] != y[i])
  }

  function ShiftLeft(x: Register): Register {
    x[1..] + [false]
  }

  /** One bit of division by the polynomial. */
  function BitStep(x: Register): Register {
    if x[0] then Xor(ShiftLeft(x), Polynomial()) else ShiftLeft(x)
  }

  /** Bit k of a byte, the most significant first. */
  function Bit(byte: bv8, k: nat): bool
    requires k < 8
  {
    if k == 0 then byte & 128 != 0 else if k == 1 then byte & 64 != 0 else if k == 2 then byte & 32 != 0 else if k == 3
      then byte & 16 != 0
    else if k == 4 then byte & 8 != 0 else if k == 5 then byte & 4 != 0 else if k == 6 then byte & 2 != 0
      else byte & 1 != 0
  }

  /** A byte at the leading end of a register. */
  function Lead(byte: bv8): Register {
    seq(64, i requires 0 <= i < 64 => i < 8 && Bit(byte, i))
  }

  function ByteStep(x: Register): Register {
    Iterate(BitStep, x, 8)
  }

  /** The register after a payload, bit by bit. */
  function Serial(crc: Register, bytes: seq<bv8>): Register {
    Fold(ByteStep, Xor, Lead, crc, bytes)
  }

  // ---- the bit step is linear and can be undone

  lemma BitStepLinear(x: Register, y: Register)
    ensures LinearAt(BitStep, Xor, x, y)
  {
    assert BitStep(Xor(x, y)) == Xor(BitStep(x), BitStep(y));
  }

  /** The polynomial is odd, so the last bit tells what was shifted out. */
  lemma LastBit(x: Register)
    ensures BitStep(x)[63] == x[0]
  {
    assert Power(0) == 1;
  }

  lemma ShiftInjective(x: Register, y: Register)
    requires ShiftLeft(x) == ShiftLeft(y) && x[0] == y[0]
    ensures x == y
  {
    assert x == [x[0]] + ShiftLeft(x)[..63] && y == [y[0]] + ShiftLeft(y)[..63];
  }

  lemma XorCancels(x: Register, y: Register, z: Register)
    requires Xor(x, z) == Xor(y, z)
    ensures x == y
  {
    forall i | 0 <= i < 64
      ensures x[i] == y[i]
    {
      assert Xor(x, z)[i] == Xor(y, z)[i];
    }
  }

  lemma BitStepInjective(x: Register, y: Register)
    ensures InjectiveAt(BitStep, x, y)
  {
    if BitStep(x) == BitStep(y) {
      LastBit(x);
      LastBit(y);
      if x[0] {
        XorCancels(ShiftLeft(x), ShiftLeft(y), Polynomial());
      }
      ShiftInjective(x, y);
    }
  }

  lemma StepsAreLinear()
    ensures Linear(BitStep, Xor) && Linear(ByteStep, Xor)
  {
    forall x, y
      ensures LinearAt(BitStep, Xor, x, y)
    {
      BitStepLinear(x, y);
    }
    forall x, y
      ensures LinearAt(ByteStep, Xor, x, y)
    {
      IterateLinear(BitStep, Xor, x, y, 8);
    }
  }

  lemma StepsAreInjective()
    ensures Injective(BitStep) && Injective(ByteStep)
  {
    forall x, y
      ensures InjectiveAt(BitStep, x, y)
    {
      BitStepInjective(x, y);
    }
    forall x, y
      ensures InjectiveAt(ByteStep, x, y)
    {
      if ByteStep(x) == ByteStep(y) {
        IterateInjective(BitStep, x, y, 8);
      }
    }
  }

  lemma XorLaws()
    ensures Associative(Xor) && CancelsRight(Xor)
    ensures forall y :: AddsNothing(Xor, Zero(), y)
  {
    forall x, y, z
      ensures AssociativeAt(Xor, x, y, z)
    {
      assert Xor(Xor(x, y), z) == Xor(x, Xor(y, z));
    }
    forall x, y, z
      ensures CancelsRightAt(Xor, x, y, z)
    {
      if Xor(x, z) == Xor(y, z) {
        XorCancels(x, y, z);
      }
    }
    forall y
      ensures AddsNothing(Xor, Zero(), y)
    {
      assert Xor(y, Zero()) == y;
    }
  }

  // ---- the table

  /** What a leading byte leaves behind eight steps later. */
  function Entry(byte: bv8): Register {
    ByteStep(Lead(byte))
  }

  /** The top eight bits of a register as a byte. */
  function TopByte(x: Register): bv8 {
    ByteOf(x[0], x[1], x[2], x[3], x[4], x[5], x[6], x[7])
  }

  function ByteOf(b0: bool, b1: bool, b2: bool, b3: bool, b4: bool, b5: bool, b6: bool, b7: bool): bv8 {
    (if b0 then 128 else 0) | (if b1 then 64 else 0) | (if b2 then 32 else 0) | (if b3 then 16 else 0)
    | (if b4 then 8 else 0) | (if b5 then 4 else 0) | (if b6 then 2 else 0) | (if b7 then 1 else 0)
  }

  lemma BitsOfByte(b0: bool, b1: bool, b2: bool, b3: bool, b4: bool, b5: bool, b6: bool, b7: bool)
    ensures var b := ByteOf(b0, b1, b2, b3, b4, b5, b6, b7);
            && Bit(b, 0) == b0 && Bit(b, 1) == b1 && Bit(b, 2) == b2 && Bit(b, 3) == b3
            && Bit(b, 4) == b4 && Bit(b, 5) == b5 && Bit(b, 6) == b6 && Bit(b, 7) == b7
  {
  }

  lemma MaskOfXor(a: bv8, b: bv8, m: bv8)
    ensures (a ^ b) & m == (a & m) ^ (b & m)
  {
  }

  lemma BitOfXor(a: bv8, b: bv8, k: nat)
    requires k < 8
    ensures Bit(a ^ b, k) == (Bit(a, k) != Bit(b, k))
  {
    MaskOfXor(a, b, if k == 0 then 128 else if k == 1 then 64 else if k == 2 then 32 else if k == 3 then 16
                    else if k == 4 then 8 else if k == 5 then 4 else if k == 6 then 2 else 1);
  }

  lemma ByteByBits(a: bv8, b: bv8)
    requires forall k | 0 <= k < 8 :: Bit(a, k) == Bit(b, k)
    ensures a == b
  {
    assert Bit(a, 0) == Bit(b, 0) && Bit(a, 1) == Bit(b, 1) && Bit(a, 2) == Bit(b, 2) && Bit(a, 3) == Bit(b, 3);
    assert Bit(a, 4) == Bit(b, 4) && Bit(a, 5) == Bit(b, 5) && Bit(a, 6) == Bit(b, 6) && Bit(a, 7) == Bit(b, 7);
  }

  function Falses(n: nat): (r: seq<bool>)
    ensures |r| == n
  {
    seq(n, _ => false)
  }

  /** A register whose leading bits are clear is only shifted. */
  lemma {:induction false} ShiftOnly(x: Register, n: nat)
    requires n <= 64 && x[..n] == Falses(n)
    ensures Iterate(BitStep, x, n) == x[n..] + Falses(n)
    decreases n
  {
    if n == 0 {
      assert x[0..] + Falses(0) == x;
    } else {
      assert x[0] == x[..n][0] == false;
      var next := ShiftLeft(x);
      assert next[..n - 1] == Falses(n - 1) by {
        assert forall i | 0 <= i < n - 1 :: next[i] == x[..n][i + 1];
      }
      ShiftOnly(next, n - 1);
      assert next[n - 1..] + Falses(n - 1) == x[n..] + Falses(n);
    }
  }

  /** The register shifted by a byte. */
  function ShiftByte(x: Register): Register {
    x[8..] + Falses(8)
  }

  /** The register without its leading byte. */
  function Tail(x: Register): Register {
    Falses(8) + x[8..]
  }

  lemma TopByteBits(x: Register, k: nat)
    requires k < 8
    ensures Bit(TopByte(x), k) == x[k]
  {
    BitsOfByte(x[0], x[1], x[2], x[3], x[4], x[5], x[6], x[7]);
  }

  lemma LeadingByteOut(crc: Register, byte: bv8, top: bv8)
    requires forall k | 0 <= k < 8 :: Bit(top, k) == (crc[k] != Bit(byte, k))
    ensures Xor(crc, Lead(byte)) == Xor(Lead(top), Tail(crc))
  {
  }

  /** The table step is eight bit-serial steps. */
  lemma TableStepIsSerial(crc: Register, byte: bv8)
    ensures Xor(Entry(TopByte(crc) ^ byte), ShiftByte(crc)) == ByteStep(Xor(crc, Lead(byte)))
  {
    var top := TopByte(crc) ^ byte;
    IndexBits(crc, byte, top);
    LeadingByteOut(crc, byte, top);
    StepsAreLinear();
    assert LinearAt(ByteStep, Xor, Lead(top), Tail(crc));
    ShiftOnly(Tail(crc), 8);
    assert Tail(crc)[8..] == crc[8..];
  }

  lemma IndexBits(crc: Register, byte: bv8, top: bv8)
    requires top == TopByte(crc) ^ byte
    ensures forall k | 0 <= k < 8 :: Bit(top, k) == (crc[k] != Bit(byte, k))
  {
    forall k | 0 <= k < 8
      ensures Bit(top, k) == (crc[k] != Bit(byte, k))
    {
      TopByteBits(crc, k);
      BitOfXor(TopByte(crc), byte, k);
    }
  }

  function TableEntry(index: nat): (r: Register)
    requires index < 256
  {
    Entry(index as bv8)
  }

  lemma EntryOfByte(byte: bv8)
    ensures TableEntry(byte as nat) == Entry(byte)
  {
  }

  /** One entry: eight steps. */
  method BuildEntry(index: nat) returns (value: Register)
    requires index < 256
    ensures value == TableEntry(index)
  {
    value := Lead(index as bv8);
    for bit := 0 to 8
      invariant Iterate(BitStep, value, 8 - bit) == TableEntry(index)
    {
      value := if value[0] then Xor(ShiftLeft(value), Polynomial()) else ShiftLeft(value);
    }
  }

  ghost predicate IsTable(table: seq<Register>) {
    |table| == 256 && forall i | 0 <= i < 256 :: table[i] == TableEntry(i)
  }

  /** The 256 entries. */
  method BuildTable() returns (table: seq<Register>)
    ensures IsTable(table)
  {
    table := [];
    for index := 0 to 256
      invariant |table| == index && forall i | 0 <= i < index :: table[i] == TableEntry(i)
    {
      var value := BuildEntry(index);
      table := table + [value];
    }
  }

  lemma Looked(table: seq<Register>, byte: bv8)
    requires IsTable(table)
    ensures table[byte as nat] == Entry(byte)
  {
    EntryOfByte(byte);
  }

  /** The next byte: one step with the table. */
  method UpdateByte(table: seq<Register>, state: Register, byte: bv8) returns (crc: Register)
    requires IsTable(table)
    ensures crc == ByteStep(Xor(state, Lead(byte)))
  {
    var index := TopByte(state) ^ byte;
    TableStepIsSerial(state, byte);
    Looked(table, index);
    crc := Xor(table[index as nat], ShiftByte(state));
  }

  /** crc64_ecma_update. */
  method Update(table: seq<Register>, state: Register, bytes: seq<bv8>) returns (crc: Register)
    requires IsTable(table)
    ensures crc == Serial(state, bytes)
  {
    crc := state;
    for i := 0 to |bytes|
      invariant Serial(crc, bytes[i..]) == Serial(state, bytes)
    {
      assert bytes[i..][1..] == bytes[i + 1..];
      crc := UpdateByte(table, crc, bytes[i]);
    }
  }

  // ---- what the checksum detects

  /** The register moved down by a byte. */
  function Down(x: Register): Register {
    Falses(8) + x[..56]
  }

  function WindowOf(bytes: seq<bv8>): Register {
    Window(Xor, Lead, Down, Zero(), bytes)
  }

  /** A window leaves the bits below its bytes clear. */
  lemma {:induction false} WindowTail(bytes: seq<bv8>, i: nat)
    requires 8 * |bytes| <= i < 64
    ensures !WindowOf(bytes)[i]
    decreases |bytes|
  {
    if bytes != [] {
      WindowTail(bytes[1..], i - 8);
    }
  }

  lemma WindowRaises(bytes: seq<bv8>)
    requires |bytes| <= 7
    ensures StepRaises(ByteStep, Xor, Lead, Down, Zero(), bytes)
  {
    var w := WindowOf(bytes);
    ShiftOnly(Down(w), 8);
    forall i | 56 <= i < 64
      ensures !w[i]
    {
      WindowTail(bytes, i);
    }
    assert Down(w)[8..] + Falses(8) == w;
  }

  lemma {:induction false} WindowInjective(a: seq<bv8>, b: seq<bv8>)
    requires |a| == |b| <= 8 && WindowOf(a) == WindowOf(b)
    ensures a == b
    decreases |a|
  {
    if a != [] {
      var x, y := WindowOf(a), WindowOf(b);
      var u, v := WindowOf(a[1..]), WindowOf(b[1..]);
      forall k | 0 <= k < 8
        ensures Bit(a[0], k) == Bit(b[0], k)
      {
        assert x[k] == Bit(a[0], k) && y[k] == Bit(b[0], k);
      }
      ByteByBits(a[0], b[0]);
      forall i | 0 <= i < 64
        ensures u[i] == v[i]
      {
        if i < 56 {
          assert x[i + 8] == u[i] && y[i + 8] == v[i];
        } else {
          WindowTail(a[1..], i);
          WindowTail(b[1..], i);
        }
      }
      WindowInjective(a[1..], b[1..]);
      assert a == [a[0]] + a[1..] && b == [b[0]] + b[1..];
    }
  }

  /** Different windows of up to eight bytes drive a register apart. */
  lemma WindowsDiffer(crc: Register, a: seq<bv8>, b: seq<bv8>)
    requires |a| == |b| <= 8 && Serial(crc, a) == Serial(crc, b)
    ensures a == b
  {
    StepsAreLinear();
    StepsAreInjective();
    XorLaws();
    assert AddsNothing(Xor, Zero(), crc);
    forall n | 0 < n <= |a|
      ensures StepRaises(ByteStep, Xor, Lead, Down, Zero(), a[n..])
              && StepRaises(ByteStep, Xor, Lead, Down, Zero(), b[n..])
    {
      WindowRaises(a[n..]);
      WindowRaises(b[n..]);
    }
    FoldWindow(ByteStep, Xor, Lead, Down, Zero(), crc, a);
    FoldWindow(ByteStep, Xor, Lead, Down, Zero(), crc, b);
    IterateInjective(ByteStep, Xor(crc, WindowOf(a)), Xor(crc, WindowOf(b)), |a|);
    XorCancelsLeft(crc, WindowOf(a), WindowOf(b));
    WindowInjective(a, b);
  }

  lemma XorCancelsLeft(z: Register, x: Register, y: Register)
    requires Xor(z, x) == Xor(z, y)
    ensures x == y
  {
    forall i | 0 <= i < 64
      ensures x[i] == y[i]
    {
      assert Xor(z, x)[i] == Xor(z, y)[i];
    }
  }

  /** The checksum of a payload. */
  function Checksum(bytes: seq<bv8>): Register {
    Serial(Zero(), bytes)
  }

  /** Updating composes over any chunking. */
  lemma UpdateComposes(crc: Register, a: seq<bv8>, b: seq<bv8>)
    ensures Serial(crc, a + b) == Serial(Serial(crc, a), b)
  {
    FoldAppend(ByteStep, Xor, Lead, crc, a, b);
  }

  /** The register is never forgotten: equal payloads keep different registers apart. */
  lemma UpdateInjective(x: Register, y: Register, bytes: seq<bv8>)
    requires Serial(x, bytes) == Serial(y, bytes)
    ensures x == y
  {
    StepsAreInjective();
    XorLaws();
    FoldInjective(ByteStep, Xor, Lead, x, y, bytes);
  }

  lemma ThreeParts(prefix: seq<bv8>, window: seq<bv8>, suffix: seq<bv8>)
    ensures Checksum(prefix + (window + suffix)) == Serial(Serial(Checksum(prefix), window), suffix)
  {
    UpdateComposes(Zero(), prefix, window + suffix);
    UpdateComposes(Checksum(prefix), window, suffix);
  }

  lemma WindowDetectedIn(prefix: seq<bv8>, a: seq<bv8>, b: seq<bv8>, suffix: seq<bv8>)
    requires |a| == |b| <= 8 && a != b
    ensures Checksum(prefix + (a + suffix)) != Checksum(prefix + (b + suffix))
  {
    var crc := Checksum(prefix);
    ThreeParts(prefix, a, suffix);
    ThreeParts(prefix, b, suffix);
    if Serial(Serial(crc, a), suffix) == Serial(Serial(crc, b), suffix) {
      UpdateInjective(Serial(crc, a), Serial(crc, b), suffix);
      WindowsDiffer(crc, a, b);
    }
  }

  /** Two payloads of equal length that differ, but only within eight consecutive bytes, have
      different checksums. */
  lemma WindowDetected(p: seq<bv8>, q: seq<bv8>, at: nat)
    requires |p| == |q| && p != q && at <= |p|
    requires forall i | 0 <= i < |p| && p[i] != q[i] :: at <= i < at + 8
    ensures Checksum(p) != Checksum(q)
  {
    var end := if at + 8 <= |p| then at + 8 else |p|;
    var prefix, a, b, suffix := p[..at], p[at..end], q[at..end], p[end..];
    assert prefix == q[..at] && suffix == q[end..];
    assert p == prefix + (a + suffix) && q == prefix + (b + suffix);
    WindowDetectedIn(prefix, a, b, suffix);
  }
}
