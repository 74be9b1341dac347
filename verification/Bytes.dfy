/** Bytes, fixed-width little-endian numbers and NUL-terminated strings: the vocabulary of the wire. */
module Bytes {
  type Byte = b: int | 0 <= b < 256
  type Bytes = seq<Byte>

  const U64 := 0x1_0000_0000_0000_0000

  function Min(a: nat, b: nat): nat {
    if a < b then a else b
  }

  /** Taking `m` elements off a stream and then `n` more. */
  lemma TakenInTwo(stream: Bytes, m: nat, n: nat)
    requires m + n <= |stream|
    ensures stream[..m] + stream[m..][..n] == stream[..m + n]
    ensures stream[m..][n..] == stream[m + n..]
  {
  }

  /** A stream that has got the first `n` bytes of something. */
  lemma PartSent(out: Bytes, content: Bytes, n: nat)
    requires n <= |content|
    ensures out <= out + content[..n] <= out + content
  {
  }

  /** A stream that has got part of the first of two things, or all of it and part of the second. */
  lemma SentInTwo(out: Bytes, first: Bytes, second: Bytes, sent: Bytes)
    ensures out + first + second == out + (first + second)
    ensures out <= sent <= out + first ==> sent <= out + (first + second)
    ensures out + first <= sent <= out + first + second ==> out <= sent <= out + (first + second)
  {
  }

  lemma AddedInTwo(s: Bytes, t: Bytes, u: Bytes)
    ensures s + t + u == s + (t + u)
  {
  }

  /** 256 to the power `width`: how many values a field of `width` bytes holds. */
  function Capacity(width: nat): (c: nat)
    ensures c >= 1
  {
    if width == 0 then 1 else 256 * Capacity(width - 1)
  }

  /** The `width` low-order bytes of `n`, least significant first, as a store to an integer field leaves them. */
  function LittleEndian(n: nat, width: nat): (s: Bytes)
    ensures |s| == width
  {
    if width == 0 then [] else [n % 256] + LittleEndian(n / 256, width - 1)
  }

  function FromLittleEndian(s: Bytes): (n: nat) {
    if s == [] then 0 else s[0] + 256 * FromLittleEndian(s[1..])
  }

  lemma MultipleAtLeast(k: int, d: int)
    requires d >= 0
    ensures k >= 1 ==> k * d >= d
    ensures k <= -1 ==> k * d <= -d
  {
    if k >= 1 {
      assert k * d == d + (k - 1) * d;
      assert (k - 1) * d >= 0;
    } else if k <= -1 {
      assert k * d == -d + (k + 1) * d;
      assert (k + 1) * d <= 0;
    }
  }

  lemma ModuloUnique(n: nat, d: nat, q: int, r: nat)
    requires d >= 1 && r < d && n == q * d + r
    ensures n % d == r
  {
    var k := n / d - q;
    assert k * d == (n / d) * d - q * d;
    assert k * d == r - n % d;
    MultipleAtLeast(k, d);
  }

  lemma SplitModulo(n: nat, c: nat)
    requires c >= 1
    ensures n % 256 + 256 * ((n / 256) % c) == n % (256 * c)
  {
    var q, r := n / 256, n % 256;
    var a, b := q / c, q % c;
    assert q == a * c + b;
    assert n == a * (256 * c) + (256 * b + r) by {
      assert 256 * (a * c) == a * (256 * c);
    }
    ModuloUnique(n, 256 * c, a, 256 * b + r);
  }

  /** Storing and loading a field keeps exactly the number modulo the field's capacity. */
  lemma {:induction false} StoreLoad(n: nat, width: nat)
    ensures FromLittleEndian(LittleEndian(n, width)) == n % Capacity(width)
    decreases width
  {
    if width > 0 {
      var s := LittleEndian(n, width);
      assert s[1..] == LittleEndian(n / 256, width - 1);
      StoreLoad(n / 256, width - 1);
      SplitModulo(n, Capacity(width - 1));
    }
  }

  lemma Capacities()
    ensures Capacity(2) == 0x1_0000
    ensures Capacity(8) == U64
  {
    assert Capacity(2) == 256 * 256;
    assert Capacity(4) == 256 * 256 * Capacity(2);
    assert Capacity(6) == 256 * 256 * Capacity(4);
    assert Capacity(8) == 256 * 256 * Capacity(6);
  }

  lemma {:induction false} LoadBounded(s: Bytes)
    ensures FromLittleEndian(s) < Capacity(|s|)
  {
    if s != [] {
      LoadBounded(s[1..]);
    }
  }

  lemma {:induction false} LoadZeros(s: Bytes)
    requires forall i | 0 <= i < |s| :: s[i] == 0
    ensures FromLittleEndian(s) == 0
  {
    if s != [] {
      LoadZeros(s[1..]);
    }
  }

  lemma LoadU64(n: nat)
    requires n < U64
    ensures FromLittleEndian(LittleEndian(n, 8)) == n
  {
    hide LittleEndian, FromLittleEndian, Capacity;
    StoreLoad(n, 8);
    Capacities();
  }

  lemma LoadU16(n: nat)
    requires n < 0x1_0000
    ensures FromLittleEndian(LittleEndian(n, 2)) == n
  {
    hide LittleEndian, FromLittleEndian, Capacity;
    StoreLoad(n, 2);
    Capacities();
  }

  /** What a `const char*` into `s` denotes: everything before the first NUL. */
  function UntilNul(s: Bytes): (t: Bytes)
    ensures 0 !in t && |t| <= |s|
  {
    if s == [] || s[0] == 0 then [] else [s[0]] + UntilNul(s[1..])
  }

  lemma {:induction false} UntilNulFinds(name: Bytes, tail: Bytes)
    requires 0 !in name
    ensures UntilNul(name + [0] + tail) == name
  {
    var s := name + [0] + tail;
    if name != [] {
      assert s[1..] == name[1..] + [0] + tail;
      UntilNulFinds(name[1..], tail);
    }
  }

  lemma {:induction false} EndsBeforeNul(s: Bytes)
    requires 0 in s
    ensures |UntilNul(s)| < |s|
  {
    if s[0] != 0 {
      EndsBeforeNul(s[1..]);
    }
  }

  lemma {:induction false} UntilNulWithin(s: Bytes, tail: Bytes)
    requires 0 in s
    ensures UntilNul(s + tail) == UntilNul(s)
  {
    if s[0] != 0 {
      assert (s + tail)[1..] == s[1..] + tail;
      UntilNulWithin(s[1..], tail);
    }
  }

  /** Byte order: every byte weighs 256 times as much as the one before it. */
  lemma {:induction false} LaterWeighsMore(s: Bytes, b: Byte)
    ensures FromLittleEndian(s + [b]) == FromLittleEndian(s) + b * Capacity(|s|)
    ensures Capacity(|s| + 1) == 256 * Capacity(|s|) && Capacity(0) == 1
  {
    if s == [] {
      assert s + [b] == [b] && [b][1..] == [];
    } else {
      assert (s + [b])[1..] == s[1..] + [b];
      LaterWeighsMore(s[1..], b);
      assert 256 * (b * Capacity(|s| - 1)) == b * (256 * Capacity(|s| - 1));
    }
  }

  /** A C string is what stands before the first NUL, or all there is. */
  lemma {:induction false} UntilNulIs(s: Bytes)
    ensures UntilNul(s) <= s && (UntilNul(s) == s || s[|UntilNul(s)|] == 0)
  {
    if s != [] && s[0] != 0 {
      UntilNulIs(s[1..]);
    }
  }
}
