/**
 * String helpers the client relies on: `strings.Contains`, Go's byte-wise
 * string ordering (used by `url.Values.Encode` to sort keys), splitting a
 * path on '/', and decimal formatting (`%d`).
 */
module Text {

  /** `strings.Contains(s, sub)`: some window of `s` equals `sub`. */
  predicate Contains(s: string, sub: string)
  {
    exists i | 0 <= i <= |s| :: OccursAt(s, sub, i)
  }

  predicate OccursAt(s: string, sub: string, i: int)
  {
    0 <= i <= |s| - |sub| && s[i..i + |sub|] == sub
  }

  lemma ContainsInfix(a: string, sub: string, b: string)
    ensures Contains(a + sub + b, sub)
  {
    var s := a + sub + b;
    assert OccursAt(s, sub, |a|);
  }

  lemma ContainsNothingLonger(s: string, sub: string)
    requires |s| < |sub|
    ensures !Contains(s, sub)
  {
  }

  // ---------------------------------------------------------------------------
  // Ordering. Go compares strings byte by byte in UTF-8; UTF-8 preserves the
  // order of code points, so comparing characters gives the same order.
  // ---------------------------------------------------------------------------

  /** `a < b` for Go strings: lexicographic, a proper prefix comes first. */
  predicate Below(a: string, b: string)
  {
    |b| > 0 && (|a| == 0 || a[0] < b[0] || (a[0] == b[0] && Below(a[1..], b[1..])))
  }

  lemma {:induction false} BelowIrreflexive(a: string)
    ensures !Below(a, a)
  {
    if |a| > 0 {
      BelowIrreflexive(a[1..]);
    }
  }

  lemma {:induction false} BelowAsymmetric(a: string, b: string)
    ensures !(Below(a, b) && Below(b, a))
  {
    if |a| > 0 && |b| > 0 && a[0] == b[0] {
      BelowAsymmetric(a[1..], b[1..]);
    }
  }

  lemma {:induction false} BelowTransitive(a: string, b: string, c: string)
    requires Below(a, b) && Below(b, c)
    ensures Below(a, c)
  {
    if |a| > 0 && a[0] == b[0] && b[0] == c[0] {
      BelowTransitive(a[1..], b[1..], c[1..]);
    }
  }

  lemma {:induction false} BelowTotal(a: string, b: string)
    ensures a == b || Below(a, b) || Below(b, a)
  {
    if |a| > 0 && |b| > 0 && a[0] == b[0] {
      BelowTotal(a[1..], b[1..]);
      assert a == [a[0]] + a[1..] && b == [b[0]] + b[1..];
    }
  }

  /** Strictly increasing in Go's string order (so also free of duplicates). */
  predicate StrictlySorted(s: seq<string>)
  {
    forall i, j | 0 <= i < j < |s| :: Below(s[i], s[j])
  }

  /** `k` is the least element of `ks`. */
  predicate IsLeast(k: string, ks: set<string>)
  {
    k in ks && forall j | j in ks :: !Below(j, k)
  }

  lemma LeastUnique(ks: set<string>)
    ensures forall a, b | IsLeast(a, ks) && IsLeast(b, ks) :: a == b
  {
    forall a, b | IsLeast(a, ks) && IsLeast(b, ks)
      ensures a == b
    {
      BelowTotal(a, b);
    }
  }

  lemma {:induction false} LeastExists(ks: set<string>)
    requires ks != {}
    ensures exists k :: IsLeast(k, ks)
    decreases ks
  {
    var x :| x in ks;
    if ks == {x} {
      BelowIrreflexive(x);
      assert IsLeast(x, ks);
    } else {
      LeastExists(ks - {x});
      var m :| IsLeast(m, ks - {x});
      BelowTotal(m, x);
      if Below(x, m) {
        forall j | j in ks
          ensures !Below(j, x)
        {
          if j == x {
            BelowIrreflexive(x);
          } else if Below(j, x) {
            BelowTransitive(j, x, m);
          }
        }
        assert IsLeast(x, ks);
      } else {
        assert IsLeast(m, ks);
      }
    }
  }

  /** The elements of a finite set of strings in increasing order. */
  function SortedElements(ks: set<string>): (r: seq<string>)
    ensures |r| == |ks|
    ensures forall k :: k in r <==> k in ks
    ensures StrictlySorted(r)
    decreases ks
  {
    if ks == {} then []
    else
      LeastExists(ks);
      LeastUnique(ks);
      var k :| IsLeast(k, ks);
      var rest := SortedElements(ks - {k});
      assert forall j | j in rest :: Below(k, j) by {
        forall j | j in rest
          ensures Below(k, j)
        {
          BelowTotal(k, j);
        }
      }
      [k] + rest
  }

  /** A sorted listing of a set is unique: any strictly sorted sequence of the same elements is it. */
  lemma {:induction false} SortedElementsUnique(ks: set<string>, s: seq<string>)
    requires StrictlySorted(s)
    requires forall k :: k in s <==> k in ks
    ensures SortedElements(ks) == s
    decreases |s|
  {
    if s == [] {
      assert ks == {};
    } else {
      assert IsLeast(s[0], ks) by {
        forall j | j in ks
          ensures !Below(j, s[0])
        {
          var i :| 0 <= i < |s| && s[i] == j;
          if i == 0 {
            BelowIrreflexive(j);
          } else {
            BelowAsymmetric(s[0], j);
          }
        }
      }
      LeastExists(ks);
      LeastUnique(ks);
      var rest := ks - {s[0]};
      forall k
        ensures k in s[1..] <==> k in rest
      {
        if k in s[1..] {
          var i :| 1 <= i < |s| && s[i] == k;
          BelowIrreflexive(k);
          assert Below(s[0], s[i]);
        }
      }
      SortedElementsUnique(rest, s[1..]);
    }
  }

  // ---------------------------------------------------------------------------
  // Paths
  // ---------------------------------------------------------------------------

  /** The '/'-separated segments of a path, as `strings.Split(p, "/")`. */
  function Segments(p: string): (r: seq<string>)
    ensures |r| >= 1
  {
    if |p| == 0 then [""]
    else if p[0] == '/' then [""] + Segments(p[1..])
    else
      var tail := Segments(p[1..]);
      [[p[0]] + tail[0]] + tail[1..]
  }

  lemma {:induction false} SegmentsOfPlain(a: string)
    requires '/' !in a
    ensures Segments(a) == [a]
  {
    if |a| > 0 {
      SegmentsOfPlain(a[1..]);
      assert a == [a[0]] + a[1..];
    }
  }

  /** Joining a slash-free segment onto a path adds exactly that segment in front. */
  lemma {:induction false} SegmentsCons(a: string, b: string)
    requires '/' !in a
    ensures Segments(a + "/" + b) == [a] + Segments(b)
  {
    if |a| == 0 {
      assert a + "/" + b == ['/'] + b;
      assert (a + "/" + b)[1..] == b;
    } else {
      SegmentsCons(a[1..], b);
      assert (a + "/" + b)[1..] == a[1..] + "/" + b;
      assert a == [a[0]] + a[1..];
    }
  }

  /** Four slash-free segments joined by slashes split back into the same four. */
  lemma SegmentsOfFour(a: string, b: string, c: string, d: string)
    requires '/' !in a && '/' !in b && '/' !in c && '/' !in d
    ensures Segments(a + "/" + (b + "/" + (c + "/" + d))) == [a, b, c, d]
  {
    SegmentsCons(a, b + "/" + (c + "/" + d));
    SegmentsCons(b, c + "/" + d);
    SegmentsCons(c, d);
    SegmentsOfPlain(d);
  }

  /** Five slash-free segments joined by slashes split back into the same five. */
  lemma SegmentsOfFive(a: string, b: string, c: string, d: string, e: string)
    requires '/' !in a && '/' !in b && '/' !in c && '/' !in d && '/' !in e
    ensures Segments(a + "/" + (b + "/" + (c + "/" + (d + "/" + e)))) == [a, b, c, d, e]
  {
    SegmentsCons(a, b + "/" + (c + "/" + (d + "/" + e)));
    SegmentsOfFour(b, c, d, e);
  }

  // ---------------------------------------------------------------------------
  // Decimal text, as Go's `%d`
  // ---------------------------------------------------------------------------

  predicate IsDigit(c: char)
  {
    '0' <= c <= '9'
  }

  function DigitChar(d: nat): (c: char)
    requires d < 10
    ensures IsDigit(c)
  {
    ('0' as int + d) as char
  }

  /** The decimal digits of `n`, without leading zeros. */
  function NatText(n: nat): (r: string)
    ensures |r| >= 1
    ensures forall i | 0 <= i < |r| :: IsDigit(r[i])
    ensures |r| > 1 ==> r[0] != '0'
  {
    if n < 10 then [DigitChar(n)] else NatText(n / 10) + [DigitChar(n % 10)]
  }

  /** `%d` of an int: a minus sign, then the digits of the magnitude. */
  function IntText(n: int): (r: string)
    ensures n >= 0 ==> r == NatText(n)
    ensures n < 0 ==> r == "-" + NatText(-n)
  {
    if n < 0 then "-" + NatText(-n) else NatText(n)
  }

  /** Reading decimal digits back. */
  function DigitsValue(s: string): nat
    requires forall i | 0 <= i < |s| :: IsDigit(s[i])
  {
    if s == [] then 0
    else
      var last := s[|s| - 1];
      assert IsDigit(last);
      10 * DigitsValue(s[..|s| - 1]) + (last as int - '0' as int)
  }

  /** Three digits, hundreds first, read back as the number below 1000 they spell. */
  lemma ThreeDigitsValue(n: nat)
    requires n < 1000
    ensures var s := [DigitChar(n / 100), DigitChar(n / 10 % 10), DigitChar(n % 10)];
      (forall i | 0 <= i < 3 :: IsDigit(s[i])) && DigitsValue(s) == n
  {
    var d0, d1, d2 := DigitChar(n / 100), DigitChar(n / 10 % 10), DigitChar(n % 10);
    var s := [d0, d1, d2];
    assert s[..2] == [d0, d1] && [d0, d1][..1] == [d0] && [d0][..0] == [];
    assert DigitsValue([d0]) == n / 100;
    assert DigitsValue([d0, d1]) == 10 * (n / 100) + n / 10 % 10;
  }

  lemma {:induction false} NatTextRoundTrip(n: nat)
    ensures DigitsValue(NatText(n)) == n
  {
    if n >= 10 {
      NatTextRoundTrip(n / 10);
      var r := NatText(n);
      assert r[..|r| - 1] == NatText(n / 10);
    }
  }
}
