/**
 * PlanVertex: one occurrence of a plan fragment in a batch, its packed
 * identity (hash_code / equals) and PLANVERTEX_COMPARATOR.
 */
module PlanVertices {
  import opened Catalog

  /**
   * The vertex's fields. frag_id and read_only are read off the catalog
   * fragment, so the model keeps the fragment itself (getCatalogItem);
   * hashCode is the packed identity the constructor computes, as an
   * unsigned 32-bit pattern.
   */
  datatype PlanVertex = PlanVertex(
    frag: Fragment,
    stmtIndex: int,
    round: int,
    inputId: int,
    outputId: int,
    hashCode: nat)

  function Pow2(k: nat): (r: nat)
    ensures r >= 1
  {
    if k == 0 then 1 else 2 * Pow2(k - 1)
  }

  lemma Pow2Constants()
    ensures Pow2(16) == 0x1_0000 && Pow2(24) == 0x100_0000 && Pow2(32) == 0x1_0000_0000
  {
    assert Pow2(2) == 4;
    assert Pow2(4) == 16;
    assert Pow2(6) == 64;
    assert Pow2(8) == 0x100;
    assert Pow2(10) == 0x400;
    assert Pow2(12) == 0x1000;
    assert Pow2(14) == 0x4000;
    assert Pow2(16) == 0x1_0000;
    assert Pow2(18) == 0x4_0000;
    assert Pow2(20) == 0x10_0000;
    assert Pow2(22) == 0x40_0000;
    assert Pow2(24) == 0x100_0000;
    assert Pow2(26) == 0x400_0000;
    assert Pow2(28) == 0x1000_0000;
    assert Pow2(30) == 0x4000_0000;
  }

  /** Bitwise OR of the low n bits of two bit patterns. */
  function OrBits(a: nat, b: nat, n: nat): nat
  {
    if n == 0 then 0
    else 2 * OrBits(a / 2, b / 2, n - 1) + (if a % 2 == 1 || b % 2 == 1 then 1 else 0)
  }

  /** A Java `int` as its unsigned 32-bit pattern. */
  function Pattern(x: int): nat
  {
    x % 0x1_0000_0000
  }

  /** Java `x << k` for k < 32, as a 32-bit pattern; `scale` is 2^k. */
  function ShiftLeft(x: int, scale: nat): nat
  {
    (Pattern(x) * scale) % 0x1_0000_0000
  }

  /** hash_code = frag_id | round << 16 | stmt_index << 24, as a 32-bit pattern. */
  function PackedHash(fragId: int, round: int, stmtIndex: int): nat
  {
    OrBits(OrBits(Pattern(fragId), ShiftLeft(round, 0x1_0000), 32), ShiftLeft(stmtIndex, 0x100_0000), 32)
  }

  /** The PlanVertex constructor: the given fields, and the packed hash code. */
  function NewVertex(frag: Fragment, stmtIndex: int, round: int, inputId: int, outputId: int): PlanVertex
  {
    PlanVertex(frag, stmtIndex, round, inputId, outputId, PackedHash(frag.id, round, stmtIndex))
  }

  /** PlanVertex.equals: two vertices are the same iff their hash codes are. */
  predicate SameVertex(a: PlanVertex, b: PlanVertex)
  {
    a.hashCode == b.hashCode
  }

  /**
   * A vertex made by the constructor whose fields the packing keeps apart:
   * 16 bits of fragment id, 8 of round, 8 of statement.
   */
  predicate PackingInRange(v: PlanVertex)
  {
    FieldsInRange(v) && v.hashCode == PackedHash(v.frag.id, v.round, v.stmtIndex)
  }

  /** 16 bits of fragment id, 8 of round, 8 of statement. */
  predicate FieldsInRange(v: PlanVertex)
  {
    0 <= v.frag.id < 0x1_0000 && 0 <= v.round < 0x100 && 0 <= v.stmtIndex < 0x100
  }

  /** The (fragment id, round, statement) triple identity is meant to mirror. */
  function Key(v: PlanVertex): (int, int, int)
  {
    (v.frag.id, v.round, v.stmtIndex)
  }

  lemma {:induction false} OrBitsZero(b: nat, n: nat)
    requires b < Pow2(n)
    ensures OrBits(0, b, n) == b && OrBits(b, 0, n) == b
  {
    if n > 0 { OrBitsZero(b / 2, n - 1); }
  }

  /** OR of a value below 2^k with a multiple of 2^k is their sum. */
  lemma {:induction false} OrBitsDisjoint(a: nat, c: nat, k: nat, n: nat)
    requires a < Pow2(k) && k <= n
    requires a + c * Pow2(k) < Pow2(n)
    ensures OrBits(a, c * Pow2(k), n) == a + c * Pow2(k)
  {
    if k == 0 {
      OrBitsZero(c, n);
    } else {
      var b := c * Pow2(k);
      assert b == 2 * (c * Pow2(k - 1));
      assert b % 2 == 0 && b / 2 == c * Pow2(k - 1);
      assert a / 2 + c * Pow2(k - 1) < Pow2(n - 1);
      OrBitsDisjoint(a / 2, c, k - 1, n - 1);
    }
  }

  /** In range the three fields occupy disjoint bits, so the code is their packed sum. */
  lemma HashCodeInRange(v: PlanVertex)
    requires PackingInRange(v)
    ensures v.hashCode == v.frag.id + v.round * 0x1_0000 + v.stmtIndex * 0x100_0000
  {
    Pow2Constants();
    var f, r, s := v.frag.id, v.round, v.stmtIndex;
    assert Pattern(f) == f by { assert 0 <= f < 0x1_0000_0000; }
    ShiftInRange(r, 0x1_0000);
    ShiftInRange(s, 0x100_0000);
    var low := f + r * 0x1_0000;
    assert low < 0x100_0000 by { PackBound(f, r); }
    assert low + s * 0x100_0000 < 0x1_0000_0000 by { PackTopBound(low, s); }
    OrBitsDisjoint(f, r, 16, 32);
    assert OrBits(Pattern(f), ShiftLeft(r, 0x1_0000), 32) == low;
    OrBitsDisjoint(low, s, 24, 32);
    assert PackedHash(f, r, s) == OrBits(low, ShiftLeft(s, 0x100_0000), 32);
  }

  /** A value below 2^8 shifted into place stays below 2^32: its pattern is the plain product. */
  lemma ShiftInRange(x: int, scale: nat)
    requires 0 <= x < 0x100 && scale <= 0x100_0000
    ensures ShiftLeft(x, scale) == x * scale
  {
    assert Pattern(x) == x;
    assert x * scale <= 0xFF * 0x100_0000 by {
      assert x * scale <= 0xFF * scale;
    }
  }

  /** A 24-bit value below an 8-bit value shifted by 24 fits in 32 bits. */
  lemma PackTopBound(a: int, c: int)
    requires 0 <= a < 0x100_0000 && 0 <= c < 0x100
    ensures a + c * 0x100_0000 < 0x1_0000_0000
  {
    assert c * 0x100_0000 <= 0xFF * 0x100_0000;
  }

  /** A 16-bit value below an 8-bit value shifted by 16 fits in 24 bits. */
  lemma PackBound(a: int, c: int)
    requires 0 <= a < 0x1_0000 && 0 <= c < 0x100
    ensures a + c * 0x1_0000 < 0x100_0000
  {
    assert c * 0x1_0000 <= 0xFF * 0x1_0000;
  }

  /**
   * Vertex equality is triple equality as long as the packed fields stay in
   * range, in both directions.
   */
  lemma SameVertexIffSameKey(a: PlanVertex, b: PlanVertex)
    requires PackingInRange(a) && PackingInRange(b)
    ensures SameVertex(a, b) <==> Key(a) == Key(b)
  {
    HashCodeInRange(a);
    HashCodeInRange(b);
    if SameVertex(a, b) {
      UnpackFields(a.frag.id, a.round, a.stmtIndex, b.frag.id, b.round, b.stmtIndex);
    }
  }

  lemma UnpackFields(f1: int, r1: int, s1: int, f2: int, r2: int, s2: int)
    requires 0 <= f1 < 0x1_0000 && 0 <= r1 < 0x100 && 0 <= s1 < 0x100
    requires 0 <= f2 < 0x1_0000 && 0 <= r2 < 0x100 && 0 <= s2 < 0x100
    requires f1 + r1 * 0x1_0000 + s1 * 0x100_0000 == f2 + r2 * 0x1_0000 + s2 * 0x100_0000
    ensures f1 == f2 && r1 == r2 && s1 == s2
  {
    var low1, low2 := f1 + r1 * 0x1_0000, f2 + r2 * 0x1_0000;
    assert 0 <= low1 < 0x100_0000 && 0 <= low2 < 0x100_0000;
    assert s1 == s2;
  }

  /**
   * Out of range, the packing merges distinct vertices: fragment 65536 in
   * round 0 is "equal" to fragment 0 in round 1 of the same statement.
   */
  lemma SameVertexCollidesOutOfRange()
    ensures var a := NewVertex(Fragment(0x1_0000, true), 0, 0, NULL_DEPENDENCY_ID, 9000);
            var b := NewVertex(Fragment(0, true), 0, 1, NULL_DEPENDENCY_ID, 9001);
            SameVertex(a, b) && Key(a) != Key(b)
  {
    Pow2Constants();
    assert ShiftLeft(0, 0x1_0000) == 0 && ShiftLeft(0, 0x100_0000) == 0 && ShiftLeft(1, 0x1_0000) == 0x1_0000;
    OrBitsZero(0x1_0000, 32);
    assert PackedHash(0x1_0000, 0, 0) == 0x1_0000;
    assert PackedHash(0, 1, 0) == 0x1_0000;
  }

  /** Java `int` subtraction as PLANVERTEX_COMPARATOR performs it. */
  function Sub32(a: int, b: int): int
  {
    Wrap32(a - b)
  }

  /** PLANVERTEX_COMPARATOR: statement index, then round, then fragment id. */
  function Compare(o1: PlanVertex, o2: PlanVertex): int
  {
    if o1.stmtIndex != o2.stmtIndex then Sub32(o1.stmtIndex, o2.stmtIndex)
    else if o1.round != o2.round then Sub32(o1.round, o2.round)
    else Sub32(o1.frag.id, o2.frag.id)
  }

  /** Lexicographic order on (statement index, round, fragment id). */
  predicate KeyLess(a: PlanVertex, b: PlanVertex)
  {
    || a.stmtIndex < b.stmtIndex
    || (a.stmtIndex == b.stmtIndex && a.round < b.round)
    || (a.stmtIndex == b.stmtIndex && a.round == b.round && a.frag.id < b.frag.id)
  }

  /**
   * With the fields in range no subtraction wraps, so the comparator's sign
   * is the lexicographic order: negative, zero or positive exactly when o1
   * sorts before, with, or after o2.
   */
  lemma CompareIsLexicographic(o1: PlanVertex, o2: PlanVertex)
    requires FieldsInRange(o1) && FieldsInRange(o2)
    ensures Compare(o1, o2) < 0 <==> KeyLess(o1, o2)
    ensures Compare(o1, o2) > 0 <==> KeyLess(o2, o1)
    ensures Compare(o1, o2) == 0 <==> Key(o1) == Key(o2)
  {
  }

  /** Every pair in order under the comparator (what Collections.sort yields). */
  ghost predicate SortedByComparator(s: seq<PlanVertex>)
  {
    forall i, j :: 0 <= i < j < |s| ==> Compare(s[i], s[j]) <= 0
  }

  /** Every pair strictly increasing in (statement, round, fragment id). */
  ghost predicate StrictlySorted(s: seq<PlanVertex>)
  {
    forall i, j :: 0 <= i < j < |s| ==> KeyLess(s[i], s[j])
  }

  ghost predicate AllInRange(s: seq<PlanVertex>)
  {
    forall i :: 0 <= i < |s| ==> PackingInRange(s[i])
  }

  lemma KeyLessIrreflexive(a: PlanVertex)
    ensures !KeyLess(a, a)
  {
  }

  /**
   * Sorting a list that is already strictly increasing changes nothing:
   * any permutation of it that is sorted under the comparator is the list
   * itself. So the Collections.sort call in buildPlanGraph leaves the
   * vertices in the order they were created.
   */
  lemma {:induction false} SortOfStrictlySortedIsIdentity(s: seq<PlanVertex>, t: seq<PlanVertex>)
    requires AllInRange(s) && StrictlySorted(s)
    requires multiset(s) == multiset(t)
    requires SortedByComparator(t)
    ensures s == t
  {
    assert |t| == |s| by {
      assert |multiset(t)| == |multiset(s)|;
    }
    if s != [] {
      HeadsAgree(s, t);
      TailsKeepOrder(s, t);
      SortOfStrictlySortedIsIdentity(s[1..], t[1..]);
      assert s == [s[0]] + s[1..] && t == [t[0]] + t[1..];
    }
  }

  /** Dropping the common head keeps every hypothesis of the identity lemma. */
  lemma TailsKeepOrder(s: seq<PlanVertex>, t: seq<PlanVertex>)
    requires AllInRange(s) && StrictlySorted(s) && SortedByComparator(t)
    requires multiset(s) == multiset(t) && |s| == |t| > 0 && s[0] == t[0]
    ensures AllInRange(s[1..]) && StrictlySorted(s[1..]) && SortedByComparator(t[1..])
    ensures multiset(s[1..]) == multiset(t[1..])
  {
    assert s == [s[0]] + s[1..];
    assert t == [t[0]] + t[1..];
    assert multiset(s[1..]) == multiset(s) - multiset{s[0]};
    assert multiset(t[1..]) == multiset(t) - multiset{t[0]};
  }

  /** The least element of the strictly sorted list is also first in the sorted permutation. */
  lemma HeadsAgree(s: seq<PlanVertex>, t: seq<PlanVertex>)
    requires AllInRange(s) && StrictlySorted(s)
    requires multiset(s) == multiset(t) && |s| == |t| > 0
    requires SortedByComparator(t)
    ensures s[0] == t[0]
  {
    assert s[0] in multiset(t);
    var k :| 0 <= k < |t| && t[k] == s[0];
    assert t[0] in multiset(s);
    var m :| 0 <= m < |s| && s[m] == t[0];
    if m != 0 {
      assert KeyLess(s[0], s[m]);
      if k != 0 {
        assert FieldsInRange(s[m]) && FieldsInRange(s[0]);
        CompareIsLexicographic(t[0], t[k]);
      }
    }
  }
}
