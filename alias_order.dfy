/** The order `list` sorts by: aliases compared as Rust compares `String`s,
    byte by byte over UTF-8, which is the same as code point by code point. */
module AliasOrder {

  /** Strict lexicographic order; a proper prefix comes first. */
  predicate Less(a: string, b: string)
  {
    if |a| == 0 then |b| != 0
    else if |b| == 0 then false
    else if a[0] != b[0] then a[0] < b[0]
    else Less(a[1..], b[1..])
  }

  predicate Leq(a: string, b: string)
  {
    Less(a, b) || a == b
  }

  /** Every pair of positions is in strict order (no duplicates). */
  predicate StrictlyAscending(xs: seq<string>)
  {
    forall i, j :: 0 <= i < j < |xs| ==> Less(xs[i], xs[j])
  }

  lemma {:induction false} LessIrreflexive(a: string)
    ensures !Less(a, a)
  {
    if |a| != 0 {
      LessIrreflexive(a[1..]);
    }
  }

  lemma {:induction false} LessAsymmetric(a: string, b: string)
    requires Less(a, b)
    ensures !Less(b, a)
  {
    if |a| != 0 && |b| != 0 && a[0] == b[0] {
      LessAsymmetric(a[1..], b[1..]);
    }
  }

  lemma {:induction false} LessTransitive(a: string, b: string, c: string)
    requires Less(a, b) && Less(b, c)
    ensures Less(a, c)
  {
    if |a| != 0 && |b| != 0 && |c| != 0 && a[0] == b[0] && b[0] == c[0] {
      LessTransitive(a[1..], b[1..], c[1..]);
    }
  }

  /** Any two distinct aliases are ordered one way or the other. */
  lemma {:induction false} LessTotal(a: string, b: string)
    ensures a == b || Less(a, b) || Less(b, a)
  {
    if |a| != 0 && |b| != 0 && a[0] == b[0] {
      LessTotal(a[1..], b[1..]);
      if a[1..] == b[1..] {
        assert a == [a[0]] + a[1..];
        assert b == [b[0]] + b[1..];
      }
    }
  }

  lemma LeqTransitive(a: string, b: string, c: string)
    requires Leq(a, b) && Leq(b, c)
    ensures Leq(a, c)
  {
    if Less(a, b) && Less(b, c) {
      LessTransitive(a, b, c);
    }
  }

  lemma LeqAntisymmetric(a: string, b: string)
    requires Leq(a, b) && Leq(b, a)
    ensures a == b
  {
    if Less(a, b) {
      LessAsymmetric(a, b);
    }
  }

  /** The head of a strictly ascending sequence is not repeated in its tail. */
  lemma TailMembers(xs: seq<string>, k: string)
    requires StrictlyAscending(xs) && |xs| > 0
    ensures k in xs[1..] <==> k in xs && k != xs[0]
  {
    LessIrreflexive(xs[0]);
    if k in xs[1..] {
      var m :| 0 <= m < |xs| - 1 && xs[1..][m] == k;
      assert Less(xs[0], xs[m + 1]);
    }
    if k in xs && k != xs[0] {
      var m :| 0 <= m < |xs| && xs[m] == k;
      assert xs[1..][m - 1] == k;
    }
  }

  /** A set of aliases has exactly one strictly ascending arrangement. */
  lemma {:induction false} AscendingUnique(xs: seq<string>, ys: seq<string>)
    requires StrictlyAscending(xs) && StrictlyAscending(ys)
    requires |xs| == |ys|
    requires forall k :: k in xs <==> k in ys
    ensures xs == ys
  {
    if |xs| > 0 {
      assert xs[0] in ys && ys[0] in xs;
      var i :| 0 <= i < |xs| && xs[i] == ys[0];
      var j :| 0 <= j < |ys| && ys[j] == xs[0];
      assert Leq(xs[0], ys[0]) by {
        if i > 0 { assert Less(xs[0], xs[i]); }
      }
      assert Leq(ys[0], xs[0]) by {
        if j > 0 { assert Less(ys[0], ys[j]); }
      }
      LeqAntisymmetric(xs[0], ys[0]);
      forall k
        ensures k in xs[1..] <==> k in ys[1..]
      {
        TailMembers(xs, k);
        TailMembers(ys, k);
      }
      AscendingUnique(xs[1..], ys[1..]);
      assert xs == [xs[0]] + xs[1..];
      assert ys == [ys[0]] + ys[1..];
    }
  }
}
