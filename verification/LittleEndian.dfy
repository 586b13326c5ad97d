/** Little-endian numbers, and packed records of them. */
module LittleEndian {
  import opened Division

  /** 256 to the given power. */
  function Bound(width: nat): (r: nat)
    ensures r > 0
  {
    if width == 0 then 1 else 256 * Bound(width - 1)
  }

  function LowByte(n: nat): bv8 {
    (n % 256) as bv8
  }

  function ByteValue(b: bv8): (r: nat)
    ensures r < 256
  {
    b as nat
  }

  lemma NibbleConversion(k: nat)
    requires k < 16
    ensures (k as bv8) as nat == k && (k as bv8) < 16
  {
  }

  lemma NibblesOf(high: bv8, low: bv8)
    requires high < 16 && low < 16
    ensures ((high << 4) | low) as nat == (high as nat) * 16 + low as nat
  {
  }

  lemma ByteOfValue(b: bv8, k: nat)
    requires k == b as nat
    ensures k as bv8 == b
  {
  }

  lemma ByteConversion(k: nat)
    requires k < 256
    ensures (k as bv8) as nat == k
  {
    var high, low := (k / 16) as bv8, (k % 16) as bv8;
    NibbleConversion(k / 16);
    NibbleConversion(k % 16);
    NibblesOf(high, low);
    ByteOfValue((high << 4) | low, k);
  }

  lemma ByteRoundTrip(n: nat)
    ensures ByteValue(LowByte(n)) == n % 256
  {
    ByteConversion(n % 256);
  }

  /** The low bytes of a number, the least significant first. */
  function Le(n: nat, width: nat): (r: seq<bv8>)
    ensures |r| == width
    decreases width
  {
    if width == 0 then [] else [LowByte(n)] + Le(n / 256, width - 1)
  }

  function FromLe(bytes: seq<bv8>): nat {
    if bytes == [] then 0 else ByteValue(bytes[0]) + 256 * FromLe(bytes[1..])
  }

  lemma {:induction false} LeRoundTrip(n: nat, width: nat)
    requires n < Bound(width)
    ensures FromLe(Le(n, width)) == n
    decreases width
  {
    if width > 0 {
      ByteRoundTrip(n);
      LeRoundTrip(n / 256, width - 1);
      assert Le(n, width)[1..] == Le(n / 256, width - 1);
    }
  }

  lemma NestedQuotient(n: nat, b: nat)
    requires b > 0
    ensures n / 256 / b == n / (256 * b)
  {
    var m := n / 256;
    var q, r := m / b, m % b;
    assert m == b * q + r;
    assert 256 * m == 256 * b * q + 256 * r;
    QuotientIs(n, 256 * b, q, 256 * r + n % 256);
  }

  /** Byte i holds the digit of 256 to the power i. */
  lemma {:induction false} LeDigit(n: nat, width: nat, i: nat)
    requires i < width
    ensures ByteValue(Le(n, width)[i]) == n / Bound(i) % 256
    decreases width
  {
    ByteRoundTrip(n);
    if i > 0 {
      LeDigit(n / 256, width - 1, i - 1);
      NestedQuotient(n, Bound(i - 1));
    }
  }

  // ---- packed records

  /** The size of the first n fields. */
  function Width(widths: seq<nat>, n: nat): nat
    requires n <= |widths|
  {
    if n == 0 then 0 else Width(widths, n - 1) + widths[n - 1]
  }

  function Encode(widths: seq<nat>, values: seq<nat>): (r: seq<bv8>)
    requires |values| <= |widths|
    ensures |r| == Width(widths, |values|)
    decreases |values|
  {
    if values == [] then []
    else
      var n := |values| - 1;
      Encode(widths, values[..n]) + Le(values[n], widths[n])
  }

  function Decode(widths: seq<nat>, bytes: seq<bv8>, n: nat): (r: seq<nat>)
    requires n <= |widths| && |bytes| == Width(widths, n)
    ensures |r| == n
    decreases n
  {
    if n == 0 then []
    else
      var at := Width(widths, n - 1);
      Decode(widths, bytes[..at], n - 1) + [FromLe(bytes[at..])]
  }

  /** A whole record. */
  function Record(widths: seq<nat>, bytes: seq<bv8>): (r: seq<nat>)
    requires |bytes| == Width(widths, |widths|)
    ensures |r| == |widths|
  {
    Decode(widths, bytes, |widths|)
  }

  lemma {:induction false} WidthGrows(widths: seq<nat>, i: nat, n: nat)
    requires i <= n <= |widths|
    ensures Width(widths, i) <= Width(widths, n)
  {
    if i < n {
      WidthGrows(widths, i, n - 1);
    }
  }

  /** A field stands in a record behind the fields before it. */
  lemma {:induction false} FieldStands(widths: seq<nat>, values: seq<nat>, i: nat, at: nat, width: nat)
    requires i < |values| <= |widths| && at == Width(widths, i) && width == widths[i]
    ensures at + width <= Width(widths, |values|) && Encode(widths, values)[at..at + width] == Le(values[i], width)
    decreases |values|
  {
    var n := |values| - 1;
    WidthGrows(widths, i + 1, |values|);
    if i < n {
      FieldStands(widths, values[..n], i, at, width);
      assert Encode(widths, values)[..Width(widths, n)] == Encode(widths, values[..n]);
    }
  }

  ghost predicate Fits(widths: seq<nat>, values: seq<nat>) {
    |values| <= |widths| && forall i | 0 <= i < |values| :: values[i] < Bound(widths[i])
  }

  /** Decoding inverts encoding for values that fit their fields. */
  lemma {:induction false} RecordRoundTrip(widths: seq<nat>, values: seq<nat>)
    requires Fits(widths, values)
    ensures Decode(widths, Encode(widths, values), |values|) == values
    decreases |values|
  {
    if values != [] {
      var n := |values| - 1;
      var bytes := Encode(widths, values);
      assert bytes[..Width(widths, n)] == Encode(widths, values[..n]);
      assert bytes[Width(widths, n)..] == Le(values[n], widths[n]);
      LeRoundTrip(values[n], widths[n]);
      RecordRoundTrip(widths, values[..n]);
    }
  }
}
