/** The Bernstein hash `inv_checksum` of ml_math_func.c, and exactly which changes of a
    message it detects. */
module Checksum {

  type Byte = x: int | 0 <= x < 256

  /** The hash as an unbounded polynomial in 33, continued from `h`. */
  function Horner(h: int, s: seq<Byte>): int {
    if s == [] then h else 33 * Horner(h, s[..|s| - 1]) + s[|s| - 1]
  }

  function Residue(x: int): (r: int)
    ensures 0 <= r < 0x1_0000_0000
  {
    x % 0x1_0000_0000
  }

  /** What the 32-bit loop computes. */
  function Hash(s: seq<Byte>): (r: int)
    ensures 0 <= r < 0x1_0000_0000
  {
    Residue(Horner(5381, s))
  }

  lemma StepResidue(h: int, c: Byte)
    ensures Residue(Residue(Residue(Residue(h) * 32) + Residue(h)) + c) == Residue(33 * h + c)
  {
    var r, k := Residue(h), h / 0x1_0000_0000;
    InnerResidue(r * 32, r);
    InnerResidue(r * 32 + r, c);
    assert 33 * h + c == r * 32 + r + c + 0x1_0000_0000 * (33 * k);
    ResidueShift(r * 32 + r, c, 33 * k);
  }

  lemma ResidueShift(x: int, y: int, k: int)
    ensures Residue(x + y + 0x1_0000_0000 * k) == Residue(x + y)
  {
  }

  /** Cutting a summand first changes nothing. */
  lemma InnerResidue(x: int, y: int)
    ensures Residue(Residue(x) + y) == Residue(x + y)
  {
  }

  /** `inv_checksum`: the running hash is a uint32_t, so every shift and addition wraps.
      A non-positive `len` hashes nothing. */
  method InvChecksum(str: seq<Byte>, len: int) returns (hash: int)
    requires len <= |str|
    ensures hash == Hash(str[..if len < 0 then 0 else len])
  {
    hash := 5381;
    var i := 0;
    while i < len
      invariant 0 <= i && (i <= len || i == 0)
      invariant hash == Hash(str[..i])
    {
      var c := str[i];
      assert str[..i + 1][..i] == str[..i];
      StepResidue(Horner(5381, str[..i]), c);
      hash := Residue(Residue(Residue(hash * 32) + hash) + c);
      i := i + 1;
    }
  }

  // ---------------------------------------------------------------- the sum it computes

  /** 33^n. */
  function Weight(n: nat): int {
    if n == 0 then 1 else 33 * Weight(n - 1)
  }

  /** Each byte times 33 to the number of bytes that follow it. */
  function WeightedSum(s: seq<Byte>): int {
    if s == [] then 0 else s[0] * Weight(|s| - 1) + WeightedSum(s[1..])
  }

  lemma WeightedFirst(h: int, c: int, w: int, rest: int)
    ensures (33 * h + c) * w + rest == h * (33 * w) + (c * w + rest)
  {
  }

  lemma {:induction false} HornerSum(h: int, s: seq<Byte>)
    ensures Horner(h, s) == h * Weight(|s|) + WeightedSum(s)
    decreases |s|
  {
    if s != [] {
      assert s == s[..1] + s[1..] && s[..1][..0] == [];
      HornerAppend(h, s[..1], s[1..]);
      HornerSum(33 * h + s[0], s[1..]);
      WeightedFirst(h, s[0], Weight(|s| - 1), WeightedSum(s[1..]));
    }
  }

  /** Main result: the hash is 5381 * 33^n plus each byte times 33 to the number of bytes that
      follow it, modulo 2^32. */
  lemma HashIsWeightedSum(s: seq<Byte>)
    ensures Hash(s) == (5381 * Weight(|s|) + WeightedSum(s)) % 0x1_0000_0000
  {
    HornerSum(5381, s);
  }

  /** The position of a byte decides its weight: the sum is linear in every byte. */
  lemma {:induction false} WeightOfByte(s: seq<Byte>, i: nat, b: Byte)
    requires i < |s|
    ensures WeightedSum(s[i := b]) - WeightedSum(s) == (b - s[i]) * Weight(|s| - 1 - i)
    decreases |s|
  {
    if i > 0 {
      assert s[i := b][1..] == s[1..][i - 1 := b];
      WeightOfByte(s[1..], i - 1, b);
    } else {
      assert s[i := b][1..] == s[1..];
    }
  }

  /** For instance: the hash of nothing, of "a" and of "ab". */
  lemma HashExamples()
    ensures Hash([]) == 5381 && Hash([97]) == 177670 && Hash([97, 98]) == 5863208
  {
    assert [97 as Byte, 98][..1] == [97] && [97 as Byte][..0] == [];
  }

  // ---------------------------------------------------------------- what it detects

  /** The polynomial in 33 whose coefficients are the byte differences. */
  function Delta(s: seq<Byte>, t: seq<Byte>): int
    requires |s| == |t|
  {
    if s == [] then 0
    else 33 * Delta(s[..|s| - 1], t[..|t| - 1]) + (s[|s| - 1] as int - t[|t| - 1] as int)
  }

  lemma {:induction false} HornerAppend(h: int, s: seq<Byte>, t: seq<Byte>)
    ensures Horner(h, s + t) == Horner(Horner(h, s), t)
    decreases |t|
  {
    if t == [] {
      assert s + t == s;
    } else {
      assert (s + t)[..|s + t| - 1] == s + t[..|t| - 1];
      HornerAppend(h, s, t[..|t| - 1]);
    }
  }

  lemma {:induction false} HornerDelta(h: int, s: seq<Byte>, t: seq<Byte>)
    requires |s| == |t|
    ensures Horner(h, s) - Horner(h, t) == Delta(s, t)
  {
    if s != [] {
      HornerDelta(h, s[..|s| - 1], t[..|t| - 1]);
    }
  }

  /** 33 is odd, hence a unit modulo 2^32; its inverse is 1041204193. */
  lemma UnitStep(x: int)
    ensures Residue(33 * x) == 0 <==> Residue(x) == 0
  {
    if Residue(33 * x) == 0 {
      var m := 33 * x / 0x1_0000_0000;
      assert x == 0x1_0000_0000 * (1041204193 * m - 8 * x);
    }
  }

  /** Hashing a common tail neither creates nor removes a collision. */
  lemma {:induction false} TailPreservesDifference(h: int, k: int, q: seq<Byte>)
    ensures Residue(Horner(h, q) - Horner(k, q)) == 0 <==> Residue(h - k) == 0
    decreases |q|
  {
    if q != [] {
      var init := q[..|q| - 1];
      TailPreservesDifference(h, k, init);
      UnitStep(Horner(h, init) - Horner(k, init));
      assert Horner(h, q) - Horner(k, q) == 33 * (Horner(h, init) - Horner(k, init));
    }
  }

  lemma HashesAgree(h: int, k: int, q: seq<Byte>)
    ensures Residue(Horner(h, q)) == Residue(Horner(k, q)) <==> Residue(h - k) == 0
  {
    TailPreservesDifference(h, k, q);
    SameResidue(Horner(h, q), Horner(k, q));
  }

  lemma SameResidue(a: int, b: int)
    ensures Residue(a) == Residue(b) <==> Residue(a - b) == 0
  {
  }

  /** The hash of `s` and then `q` continued from `h`. */
  function Continue(h: int, s: seq<Byte>, q: seq<Byte>): int {
    Residue(Horner(Horner(h, s), q))
  }

  lemma HashSplit(p: seq<Byte>, s: seq<Byte>, q: seq<Byte>)
    ensures Hash(p + s + q) == Continue(Horner(5381, p), s, q)
  {
    HornerAppend(5381, p, s);
    HornerAppend(5381, p + s, q);
  }

  lemma ContinueDetects(h: int, s: seq<Byte>, t: seq<Byte>, q: seq<Byte>)
    requires |s| == |t|
    ensures Continue(h, s, q) == Continue(h, t, q) <==> Residue(Delta(s, t)) == 0
  {
    HornerDelta(h, s, t);
    HashesAgree(Horner(h, s), Horner(h, t), q);
  }

  /** Main result: replacing a stretch of a message by another of the same length goes
      undetected exactly when 2^32 divides the stretch's difference polynomial; what comes
      before and after plays no part. */
  lemma BurstDetection(p: seq<Byte>, s: seq<Byte>, t: seq<Byte>, q: seq<Byte>)
    requires |s| == |t|
    ensures Hash(p + s + q) == Hash(p + t + q) <==> Residue(Delta(s, t)) == 0
  {
    HashSplit(p, s, q);
    HashSplit(p, t, q);
    ContinueDetects(Horner(5381, p), s, t, q);
  }

  /** A stretch of at most five bytes is too short for the modulus to matter. */
  lemma {:induction false} ShortDeltaBound(s: seq<Byte>, t: seq<Byte>)
    requires |s| == |t| <= 5
    ensures -0x1_0000_0000 < Delta(s, t) < 0x1_0000_0000
    ensures |s| <= 4 ==> -0x76B_FFFF < Delta(s, t) < 0x76B_FFFF
    ensures |s| <= 3 ==> -300000 < Delta(s, t) < 300000
    ensures |s| <= 2 ==> -8671 < Delta(s, t) < 8671
    ensures |s| <= 1 ==> -256 < Delta(s, t) < 256
  {
    if s != [] {
      ShortDeltaBound(s[..|s| - 1], t[..|t| - 1]);
    }
  }

  /** Changes confined to five consecutive bytes are missed only when their integer
      difference polynomial is zero. */
  lemma ShortBurst(p: seq<Byte>, s: seq<Byte>, t: seq<Byte>, q: seq<Byte>)
    requires |s| == |t| <= 5
    ensures Hash(p + s + q) == Hash(p + t + q) <==> Delta(s, t) == 0
  {
    BurstDetection(p, s, t, q);
    ShortDeltaBound(s, t);
  }

  /** Two neighbouring changes are missed exactly when the second is -33 times the first. */
  lemma TwoByteChange(p: seq<Byte>, a: Byte, b: Byte, c: Byte, d: Byte, q: seq<Byte>)
    ensures Hash(p + [a, b] + q) == Hash(p + [c, d] + q)
      <==> d as int - b as int == -33 * (c as int - a as int)
  {
    ShortBurst(p, [a, b], [c, d], q);
    assert [a, b][..1] == [a] && [c, d][..1] == [c];
    assert [a][..0] == [] && [c][..0] == [];
    assert Delta([a], [c]) == 33 * Delta([], []) + (a as int - c as int);
  }

  /** Changing one byte always changes the hash. */
  lemma SingleByteChange(s: seq<Byte>, i: nat, b: Byte)
    requires i < |s| && b != s[i]
    ensures Hash(s[i := b]) != Hash(s)
  {
    assert s == s[..i] + [s[i]] + s[i + 1..];
    assert s[i := b] == s[..i] + [b] + s[i + 1..];
    ShortBurst(s[..i], [s[i]], [b], s[i + 1..]);
  }
}
