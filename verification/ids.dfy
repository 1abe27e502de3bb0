/**
 * Record ids: a short prefix followed by the decimal rendering of the
 * 1-based position the new record takes in its collection
 * (`${prefix}${length + 1}`).
 */
module Ids {

  function Digit(d: nat): (c: char)
    requires d < 10
    ensures '0' <= c <= '9'
  {
    (48 + d) as char
  }

  /** The decimal rendering of a non-negative integer, as a template literal prints it. */
  function Decimal(n: nat): (s: string)
    ensures 1 <= |s|
    ensures forall i :: 0 <= i < |s| ==> '0' <= s[i] <= '9'
    ensures |s| > 1 ==> s[0] != '0'
    decreases n
  {
    if n < 10 then [Digit(n)] else Decimal(n / 10) + [Digit(n % 10)]
  }

  /** The number a string of decimal digits denotes, most significant digit first. */
  function DigitsValue(s: string): nat
    requires forall i :: 0 <= i < |s| ==> '0' <= s[i] <= '9'
    decreases |s|
  {
    if s == [] then 0 else 10 * DigitsValue(s[..|s| - 1]) + (s[|s| - 1] as int - 48)
  }

  /** The rendering denotes the number rendered. */
  lemma {:induction false} DecimalValue(n: nat)
    ensures DigitsValue(Decimal(n)) == n
    decreases n
  {
    if n >= 10 {
      DecimalValue(n / 10);
      assert Decimal(n)[..|Decimal(n)| - 1] == Decimal(n / 10);
    }
  }

  /** Different numbers render differently. */
  lemma {:induction false} DecimalInjective(a: nat, b: nat)
    requires Decimal(a) == Decimal(b)
    ensures a == b
    decreases a
  {
    if a >= 10 && b >= 10 {
      var da, db := Decimal(a / 10), Decimal(b / 10);
      assert Decimal(a) == da + [Digit(a % 10)];
      assert Decimal(b) == db + [Digit(b % 10)];
      assert |da| == |db|;
      assert da == Decimal(a)[..|da|] == Decimal(b)[..|db|] == db;
      assert Digit(a % 10) == Decimal(a)[|da|] == Decimal(b)[|db|] == Digit(b % 10);
      DecimalInjective(a / 10, b / 10);
    }
  }

  /** The id given to the record that becomes number `count + 1` of its collection. */
  function NextId(prefix: string, count: nat): (id: string)
    ensures |prefix| < |id| && id[..|prefix|] == prefix
    ensures forall i :: |prefix| <= i < |id| ==> '0' <= id[i] <= '9'
    ensures DigitsValue(id[|prefix|..]) == count + 1
    ensures |id| > |prefix| + 1 ==> id[|prefix|] != '0'
  {
    DecimalValue(count + 1);
    assert (prefix + Decimal(count + 1))[|prefix|..] == Decimal(count + 1);
    prefix + Decimal(count + 1)
  }

  /** `id` is `prefix` followed by some number between 1 and `n`. */
  ghost predicate Numbered(id: string, prefix: string, n: nat)
  {
    exists k :: 1 <= k <= n && id == prefix + Decimal(k)
  }

  /** Every id in `ids` was produced by the id scheme for a collection no longer than `ids`. */
  ghost predicate AllNumbered(ids: seq<string>, prefix: string)
  {
    forall i :: 0 <= i < |ids| ==> Numbered(ids[i], prefix, |ids|)
  }

  /** Two ids built on prefixes of equal length agree only if prefixes and numbers agree. */
  lemma SameId(p1: string, p2: string, a: nat, b: nat)
    requires |p1| == |p2|
    requires p1 + Decimal(a) == p2 + Decimal(b)
    ensures p1 == p2 && a == b
  {
    var s1, s2 := p1 + Decimal(a), p2 + Decimal(b);
    assert p1 == s1[..|p1|] && p2 == s2[..|p2|];
    assert Decimal(a) == s1[|p1|..] && Decimal(b) == s2[|p2|..];
    DecimalInjective(a, b);
  }

  /** When every id of the collection follows the scheme, the next id is fresh. */
  lemma NextIdFresh(ids: seq<string>, prefix: string)
    requires AllNumbered(ids, prefix)
    ensures NextId(prefix, |ids|) !in ids
  {
    if NextId(prefix, |ids|) in ids {
      var i :| 0 <= i < |ids| && ids[i] == NextId(prefix, |ids|);
      var k :| 1 <= k <= |ids| && ids[i] == prefix + Decimal(k);
      SameId(prefix, prefix, k, |ids| + 1);
      assert false;
    }
  }

  /** Appending the next id keeps the collection's ids within the scheme. */
  lemma NextIdKeepsNumbered(ids: seq<string>, prefix: string)
    requires AllNumbered(ids, prefix)
    ensures AllNumbered(ids + [NextId(prefix, |ids|)], prefix)
  {
    var ids' := ids + [NextId(prefix, |ids|)];
    forall i | 0 <= i < |ids'|
      ensures Numbered(ids'[i], prefix, |ids'|)
    {
      if i < |ids| {
        var k :| 1 <= k <= |ids| && ids[i] == prefix + Decimal(k);
        assert ids'[i] == prefix + Decimal(k);
      } else {
        assert ids'[i] == prefix + Decimal(|ids| + 1);
      }
    }
  }

  /** The id scheme is closed under appending the next id, which is then fresh. */
  lemma NextIdAppend(ids: seq<string>, prefix: string)
    ensures AllNumbered(ids, prefix) ==>
      NextId(prefix, |ids|) !in ids && AllNumbered(ids + [NextId(prefix, |ids|)], prefix)
  {
    if AllNumbered(ids, prefix) {
      NextIdFresh(ids, prefix);
      NextIdKeepsNumbered(ids, prefix);
    }
  }
}
