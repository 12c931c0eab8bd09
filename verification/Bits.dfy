/** Numbers as fixed-width bit strings, most significant bit first, and bit strings cut into equal groups. */
module Bits {
  import opened Wrappers

  function Pow2(k: nat): (p: nat)
    ensures p > 0
  {
    if k == 0 then 1 else 2 * Pow2(k - 1)
  }

  /** `n.toString(2).padStart(width, "0")` for n below 2^width. */
  function BitsOf(n: nat, width: nat): (bits: seq<bool>)
    ensures |bits| == width
  {
    if width == 0 then [] else BitsOf(n / 2, width - 1) + [n % 2 == 1]
  }

  /** `Number.parseInt(bits, 2)`. */
  function ValueOf(bits: seq<bool>): nat {
    if bits == [] then 0 else 2 * ValueOf(bits[..|bits| - 1]) + if bits[|bits| - 1] then 1 else 0
  }

  lemma {:induction false} ValueOfBits(n: nat, width: nat)
    requires n < Pow2(width)
    ensures ValueOf(BitsOf(n, width)) == n
  {
    if width > 0 {
      ValueOfBits(n / 2, width - 1);
      assert BitsOf(n, width)[..width - 1] == BitsOf(n / 2, width - 1);
    }
  }

  lemma {:induction false} BitsOfValue(bits: seq<bool>)
    ensures ValueOf(bits) < Pow2(|bits|) && BitsOf(ValueOf(bits), |bits|) == bits
  {
    if bits != [] {
      var init := bits[..|bits| - 1];
      BitsOfValue(init);
      assert ValueOf(bits) / 2 == ValueOf(init);
      assert bits == init + [bits[|bits| - 1]];
    }
  }

  ghost predicate AllBelow(values: seq<nat>, bound: nat) { forall i | 0 <= i < |values| :: values[i] < bound }

  /** k * width, by addition. */
  function Times(k: nat, width: nat): nat {
    if k == 0 then 0 else width + Times(k - 1, width)
  }

  lemma {:induction false} TimesIsProduct(k: nat, width: nat)
    ensures Times(k, width) == k * width
  {
    if k > 0 {
      TimesIsProduct(k - 1, width);
    }
  }

  /** Each value in `width` bits, one after the other. */
  function Ungroup(values: seq<nat>, width: nat): (bits: seq<bool>)
    ensures |bits| == Times(|values|, width)
  {
    if values == [] then [] else BitsOf(values[0], width) + Ungroup(values[1..], width)
  }

  /** The value of each successive group of `width` bits; bits left over at the end are not read. */
  function Groups(bits: seq<bool>, width: nat): (values: seq<nat>)
    requires width > 0
    ensures Times(|values|, width) <= |bits| < Times(|values|, width) + width
  {
    if |bits| < width then [] else [ValueOf(bits[..width])] + Groups(bits[width..], width)
  }

  lemma GroupsPrepend(first: seq<bool>, rest: seq<bool>)
    requires first != []
    ensures Groups(first + rest, |first|) == [ValueOf(first)] + Groups(rest, |first|)
  {
    hide ValueOf;
    assert (first + rest)[..|first|] == first && (first + rest)[|first|..] == rest;
  }

  /** Groups undo Ungroup, and a tail shorter than one group is not read. */
  lemma {:induction false} GroupsIgnoreTail(values: seq<nat>, width: nat, tail: seq<bool>)
    requires width > 0 && AllBelow(values, Pow2(width)) && |tail| < width
    ensures Groups(Ungroup(values, width) + tail, width) == values
  {
    if values == [] {
      assert Ungroup(values, width) + tail == tail;
    } else {
      hide BitsOf, ValueOf, Groups, Pow2, Times;
      var first, rest := BitsOf(values[0], width), Ungroup(values[1..], width);
      GroupsIgnoreTail(values[1..], width, tail);
      ValueOfBits(values[0], width);
      GroupsPrepend(first, rest + tail);
      Reassociate(first, rest, tail);
      assert values == [values[0]] + values[1..];
    }
  }

  lemma GroupsOfUngroup(values: seq<nat>, width: nat)
    requires width > 0 && AllBelow(values, Pow2(width))
    ensures Groups(Ungroup(values, width), width) == values
  {
    GroupsIgnoreTail(values, width, []);
    assert Ungroup(values, width) + [] == Ungroup(values, width);
  }

  lemma {:induction false} UngroupOfGroups(bits: seq<bool>, width: nat, count: nat)
    requires width > 0 && |bits| == Times(count, width)
    ensures |Groups(bits, width)| == count && AllBelow(Groups(bits, width), Pow2(width))
    ensures Ungroup(Groups(bits, width), width) == bits
  {
    if count > 0 {
      UngroupOfGroups(bits[width..], width, count - 1);
      BitsOfValue(bits[..width]);
      assert bits == bits[..width] + bits[width..];
    }
  }

  /** Group i reads `width` bits from position i * width. */
  lemma {:induction false} GroupAt(bits: seq<bool>, width: nat, i: nat, at: nat)
    requires width > 0 && at == Times(i, width) && at + width <= |bits|
    ensures i < |Groups(bits, width)| && Groups(bits, width)[i] == ValueOf(bits[at..at + width])
  {
    hide ValueOf;
    var rest := bits[width..];
    assert bits == bits[..width] + rest;
    GroupsPrepend(bits[..width], rest);
    if i == 0 {
      assert bits[0..width] == bits[..width];
    } else {
      GroupAt(rest, width, i - 1, at - width);
      assert rest[at - width..at] == bits[at..at + width];
    }
  }

  // ---- bit strings as numbers

  /** The number with these digits, the most significant first. */
  function BigEndian(digits: seq<nat>, base: nat): nat {
    if digits == [] then 0 else BigEndian(digits[..|digits| - 1], base) * base + digits[|digits| - 1]
  }

  lemma {:induction false} ValueOfAppend(a: seq<bool>, b: seq<bool>)
    ensures ValueOf(a + b) == ValueOf(a) * Pow2(|b|) + ValueOf(b)
  {
    if b == [] {
      assert a + b == a;
    } else {
      var init := b[..|b| - 1];
      ValueOfAppend(a, init);
      assert (a + b)[..|a + b| - 1] == a + init && (a + b)[|a + b| - 1] == b[|b| - 1];
      var bit := if b[|b| - 1] then 1 else 0;
      assert ValueOf(a + b) == 2 * ValueOf(a + init) + bit && ValueOf(b) == 2 * ValueOf(init) + bit;
      assert Pow2(|b|) == 2 * Pow2(|init|);
      hide ValueOf, Pow2;
      DoubleProduct(ValueOf(a), Pow2(|init|));
    }
  }

  lemma DoubleProduct(x: nat, p: nat)
    ensures 2 * (x * p) == x * (2 * p)
  {
  }

  lemma {:induction false} UngroupAppend(values: seq<nat>, last: nat, width: nat)
    ensures Ungroup(values + [last], width) == Ungroup(values, width) + BitsOf(last, width)
  {
    if values == [] {
      assert [] + [last] == [last] && [last][1..] == [];
      assert BitsOf(last, width) + Ungroup([], width) == BitsOf(last, width);
    } else {
      UngroupAppend(values[1..], last, width);
      assert (values + [last])[1..] == values[1..] + [last] && (values + [last])[0] == values[0];
      Reassociate(BitsOf(values[0], width), Ungroup(values[1..], width), BitsOf(last, width));
    }
  }

  /** Writing digits in `width` bits each writes the number they stand for. */
  lemma {:induction false} ValueOfUngroup(values: seq<nat>, width: nat)
    requires AllBelow(values, Pow2(width))
    ensures ValueOf(Ungroup(values, width)) == BigEndian(values, Pow2(width))
  {
    if values != [] {
      var init, last := values[..|values| - 1], values[|values| - 1];
      ValueOfUngroup(init, width);
      UngroupAppend(init, last, width);
      assert init + [last] == values;
      ValueOfAppend(Ungroup(init, width), BitsOf(last, width));
      ValueOfBits(last, width);
    }
  }

  /** Only the low bits are written. */
  lemma {:induction false} ValueOfLowBits(n: nat, width: nat)
    ensures ValueOf(BitsOf(n, width)) == n % Pow2(width)
  {
    if width > 0 {
      ValueOfLowBits(n / 2, width - 1);
      assert BitsOf(n, width)[..width - 1] == BitsOf(n / 2, width - 1);
      HalvedRemainder(n, Pow2(width - 1));
    }
  }

  lemma HalvedRemainder(n: nat, m: nat)
    requires m > 0
    ensures 2 * (n / 2 % m) + n % 2 == n % (2 * m)
  {
    var q := n / 2 / m;
    assert n == 2 * m * q + (2 * (n / 2 % m) + n % 2);
    RemainderIs(n, 2 * m, q, 2 * (n / 2 % m) + n % 2);
  }

  lemma RemainderIs(n: nat, m: nat, q: nat, r: nat)
    requires n == m * q + r && r < m
    ensures n % m == r
  {
    var q' := n / m;
    if q < q' {
      ProductGap(m, q, q');
    } else if q' < q {
      ProductGap(m, q', q);
    }
  }

  lemma {:induction false} ProductGap(m: nat, a: nat, b: nat)
    requires a < b
    ensures m * a + m <= m * b
    decreases b
  {
    assert m * b == m * (b - 1) + m;
    if a < b - 1 {
      ProductGap(m, a, b - 1);
    }
  }

  /** Bit strings of one length with one value are the same. */
  lemma SameValueSameBits(a: seq<bool>, b: seq<bool>)
    requires |a| == |b| && ValueOf(a) == ValueOf(b)
    ensures a == b
  {
    BitsOfValue(a);
    BitsOfValue(b);
  }

  // ---- bitwise operations on bytes

  function Xor(a: nat, b: nat): nat {
    var x, y := BitsOf(a, 8), BitsOf(b, 8);
    ValueOf(seq(8, i requires 0 <= i < 8 => x[i] != y[i]))
  }

  function Or(a: nat, b: nat): nat {
    var x, y := BitsOf(a, 8), BitsOf(b, 8);
    ValueOf(seq(8, i requires 0 <= i < 8 => x[i] || y[i]))
  }

  lemma {:induction false} ZeroValue(bits: seq<bool>)
    ensures ValueOf(bits) == 0 <==> forall i | 0 <= i < |bits| :: !bits[i]
  {
    if bits != [] {
      ZeroValue(bits[..|bits| - 1]);
    }
  }

  lemma XorIsZero(a: nat, b: nat)
    requires a < 256 && b < 256
    ensures Xor(a, b) == 0 <==> a == b
  {
    var x, y := BitsOf(a, 8), BitsOf(b, 8);
    var z := seq(8, i requires 0 <= i < 8 => x[i] != y[i]);
    ZeroValue(z);
    assert Pow2(4) == 16 && Pow2(8) == 16 * Pow2(4);
    ValueOfBits(a, 8);
    ValueOfBits(b, 8);
    if Xor(a, b) == 0 {
      assert forall i | 0 <= i < 8 :: !z[i] && z[i] == (x[i] != y[i]);
      assert x == y;
    }
  }

  lemma OrIsZero(a: nat, b: nat)
    requires a < 256 && b < 256
    ensures Or(a, b) < 256 && (Or(a, b) == 0 <==> a == 0 && b == 0)
  {
    var x, y := BitsOf(a, 8), BitsOf(b, 8);
    var z := seq(8, i requires 0 <= i < 8 => x[i] || y[i]);
    assert Pow2(4) == 16 && Pow2(8) == 16 * Pow2(4);
    BitsOfValue(z);
    ZeroValue(z);
    ZeroValue(x);
    ZeroValue(y);
    ValueOfBits(a, 8);
    ValueOfBits(b, 8);
    assert forall i | 0 <= i < 8 :: z[i] == (x[i] || y[i]);
    assert Or(a, b) == 0 <==> forall i | 0 <= i < 8 :: !x[i] && !y[i];
  }

  lemma XorIsByte(a: nat, b: nat)
    ensures Xor(a, b) < 256
  {
    var x, y := BitsOf(a, 8), BitsOf(b, 8);
    assert Pow2(4) == 16 && Pow2(8) == 16 * Pow2(4);
    BitsOfValue(seq(8, i requires 0 <= i < 8 => x[i] != y[i]));
  }
}
