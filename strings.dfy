/** Text operations of the Python runtime that the core relies on:
    `str.replace`, `str.split`/`str.join`, the substring test `p in s`,
    and the decimal conversions behind `str(int)` and `int(str)`. */
module Strings {
  import opened Wrappers

  /** `p` occurs in `s` at index `i`. */
  predicate OccursAt(s: string, p: string, i: nat)
  {
    i + |p| <= |s| && s[i..i + |p|] == p
  }

  /** Python's `p in s` on two strings. */
  predicate Contains(s: string, p: string)
  {
    exists i: nat | i <= |s| :: OccursAt(s, p, i)
  }

  /** Python's `s.replace(p, r)`: every non-overlapping occurrence of `p`,
      found scanning left to right, is replaced by `r`. An empty `p` matches
      before every character and at the end. */
  function ReplaceAll(s: string, p: string, r: string): string
    decreases |s|
  {
    if p == [] then
      if s == [] then r else r + [s[0]] + ReplaceAll(s[1..], p, r)
    else if |s| < |p| then s
    else if s[..|p|] == p then r + ReplaceAll(s[|p|..], p, r)
    else [s[0]] + ReplaceAll(s[1..], p, r)
  }

  /** Python's `s.split(p)` for a non-empty separator: the pieces between
      the non-overlapping occurrences of `p`, scanning left to right. */
  function Split(s: string, p: string): (parts: seq<string>)
    requires p != []
    ensures |parts| >= 1
    decreases |s|
  {
    if |s| < |p| then [s]
    else if s[..|p|] == p then [[]] + Split(s[|p|..], p)
    else
      var rest := Split(s[1..], p);
      [[s[0]] + rest[0]] + rest[1..]
  }

  /** Python's `sep.join(parts)`. */
  function Join(parts: seq<string>, sep: string): string
  {
    if parts == [] then []
    else if |parts| == 1 then parts[0]
    else parts[0] + sep + Join(parts[1..], sep)
  }

  /** Joining two parts puts the separator between them. */
  lemma JoinTwo(a: string, b: string, sep: string)
    ensures Join([a, b], sep) == a + sep + b
  {
    assert [a, b][1..] == [b];
  }

  /** Splitting at a character that does not occur gives the text back whole. */
  lemma {:induction false} SplitCharFree(a: string, c: char)
    requires c !in a
    ensures Split(a, [c]) == [a]
  {
    if a != [] {
      SplitCharFree(a[1..], c);
      assert a[..1] == [a[0]] && a[0] != c;
      assert [a[0]] + a[1..] == a;
    }
  }

  /** Splitting at a character: the text before its first occurrence is
      the first piece. */
  lemma {:induction false} SplitCharFirst(a: string, c: char, b: string)
    requires c !in a
    ensures Split(a + [c] + b, [c]) == [a] + Split(b, [c])
  {
    var s := a + [c] + b;
    if a == [] {
      assert s[..1] == [c] && s[1..] == b;
    } else {
      SplitCharFirst(a[1..], c, b);
      assert s[..1] == [a[0]] && a[0] != c;
      assert s[1..] == a[1..] + [c] + b;
      assert [a[0]] + a[1..] == a;
    }
  }

  lemma JoinConsHead(c: char, parts: seq<string>, sep: string)
    requires parts != []
    ensures Join([[c] + parts[0]] + parts[1..], sep) == [c] + Join(parts, sep)
  {
    var q := [[c] + parts[0]] + parts[1..];
    assert q[1..] == parts[1..];
  }

  /** Replacing all occurrences is joining the split pieces with the
      replacement, the independent description of `str.replace`. */
  lemma {:induction false} ReplaceAllIsJoinOfSplit(s: string, p: string, r: string)
    requires p != []
    ensures ReplaceAll(s, p, r) == Join(Split(s, p), r)
    decreases |s|
  {
    if |s| < |p| {
    } else if s[..|p|] == p {
      ReplaceAllIsJoinOfSplit(s[|p|..], p, r);
      assert ([[]] + Split(s[|p|..], p))[1..] == Split(s[|p|..], p);
    } else {
      ReplaceAllIsJoinOfSplit(s[1..], p, r);
      JoinConsHead(s[0], Split(s[1..], p), r);
    }
  }

  /** Joining the pieces of a split with the separator gives the string back. */
  lemma {:induction false} JoinSplitRoundTrip(s: string, p: string)
    requires p != []
    ensures Join(Split(s, p), p) == s
    decreases |s|
  {
    ReplaceAllIsJoinOfSplit(s, p, p);
    ReplaceAllSameIsIdentity(s, p);
  }

  /** Replacing a pattern by itself changes nothing. */
  lemma {:induction false} ReplaceAllSameIsIdentity(s: string, p: string)
    requires p != []
    ensures ReplaceAll(s, p, p) == s
    decreases |s|
  {
    if |s| < |p| {
    } else if s[..|p|] == p {
      ReplaceAllSameIsIdentity(s[|p|..], p);
      assert s == s[..|p|] + s[|p|..];
    } else {
      ReplaceAllSameIsIdentity(s[1..], p);
      assert s == [s[0]] + s[1..];
    }
  }

  /** A string that does not contain the pattern is left unchanged. */
  lemma {:induction false} ReplaceAllAbsent(s: string, p: string, r: string)
    requires p != [] && !Contains(s, p)
    ensures ReplaceAll(s, p, r) == s
    decreases |s|
  {
    if |s| >= |p| {
      assert !OccursAt(s, p, 0);
      assert !Contains(s[1..], p) by {
        forall i: nat | i <= |s[1..]| ensures !OccursAt(s[1..], p, i) {
          assert !OccursAt(s, p, i + 1);
          if i + |p| <= |s[1..]| {
            assert s[1..][i..i + |p|] == s[i + 1..i + 1 + |p|];
          }
        }
      }
      ReplaceAllAbsent(s[1..], p, r);
      assert s == [s[0]] + s[1..];
    }
  }

  /** When the pattern's first character does not occur at all, nothing is replaced. */
  lemma FirstCharAbsent(s: string, p: string)
    requires p != [] && p[0] !in s
    ensures !Contains(s, p)
  {
    forall i: nat | i <= |s| ensures !OccursAt(s, p, i) {
      if i + |p| <= |s| {
        assert s[i..i + |p|][0] == s[i] && s[i] in s;
      }
    }
  }

  /** No occurrence of `p` in `a + b` starts inside `a` and ends inside `b`. */
  predicate NoStraddle(a: string, b: string, p: string)
  {
    forall i: nat | |a| - |p| < i < |a| :: !OccursAt(a + b, p, i)
  }

  /** The boundary between `a` and `b` carries a character the pattern does
      not use, so no occurrence can cross it. */
  predicate Separated(a: string, b: string, p: string)
  {
    (a != [] && a[|a| - 1] !in p) || (b != [] && b[0] !in p)
  }

  lemma SeparatedNoStraddle(a: string, b: string, p: string)
    requires Separated(a, b, p)
    ensures NoStraddle(a, b, p)
  {
    var s := a + b;
    forall i: nat | |a| - |p| < i < |a| ensures !OccursAt(s, p, i) {
      if i + |p| <= |s| {
        var w := s[i..i + |p|];
        if a != [] && a[|a| - 1] !in p {
          assert w[|a| - 1 - i] == a[|a| - 1] && w[|a| - 1 - i] in w;
        } else {
          assert w[|a| - i] == b[0] && w[|a| - i] in w;
        }
      }
    }
  }

  /** Dropping a prefix of `a` keeps the boundary free of crossing occurrences. */
  lemma NoStraddleDrop(a: string, b: string, p: string, k: nat)
    requires k <= |a| && NoStraddle(a, b, p)
    ensures NoStraddle(a[k..], b, p)
  {
    var s := a + b;
    var t := a[k..] + b;
    assert t == s[k..];
    forall i: nat | |a[k..]| - |p| < i < |a[k..]| ensures !OccursAt(t, p, i) {
      assert !OccursAt(s, p, i + k);
      if i + |p| <= |t| {
        assert t[i..i + |p|] == s[i + k..i + k + |p|];
      }
    }
  }

  /** `str.replace` distributes over a concatenation whose boundary no
      occurrence of the pattern crosses. */
  lemma {:induction false} ReplaceAllConcat(a: string, b: string, p: string, r: string)
    requires p != [] && NoStraddle(a, b, p)
    ensures ReplaceAll(a + b, p, r) == ReplaceAll(a, p, r) + ReplaceAll(b, p, r)
    decreases |a|
  {
    if a == [] {
      assert a + b == b;
    } else if |a + b| < |p| {
      ConcatShortStep(a, b, p, r);
    } else if (a + b)[..|p|] == p {
      ConcatMatchStep(a, b, p, r);
      NoStraddleDrop(a, b, p, |p|);
      ReplaceAllConcat(a[|p|..], b, p, r);
      ConcatJoin(r, ReplaceAll(a[|p|..], p, r), ReplaceAll(b, p, r));
    } else {
      ConcatSkipStep(a, b, p, r);
      NoStraddleDrop(a, b, p, 1);
      ReplaceAllConcat(a[1..], b, p, r);
      ConcatJoin([a[0]], ReplaceAll(a[1..], p, r), ReplaceAll(b, p, r));
    }
  }

  /** Regrouping three concatenated texts. */
  lemma ConcatJoin(x: string, y: string, z: string)
    ensures x + (y + z) == (x + y) + z
  {
  }

  /** `ReplaceAllConcat` when the whole text is shorter than the pattern. */
  lemma ConcatShortStep(a: string, b: string, p: string, r: string)
    requires p != [] && |a + b| < |p|
    ensures ReplaceAll(a + b, p, r) == ReplaceAll(a, p, r) + ReplaceAll(b, p, r)
  {
  }

  /** One step of `ReplaceAllConcat` when the pattern matches at the front. */
  lemma ConcatMatchStep(a: string, b: string, p: string, r: string)
    requires p != [] && a != [] && NoStraddle(a, b, p)
    requires |a + b| >= |p| && (a + b)[..|p|] == p
    ensures |a| >= |p| && (a + b)[|p|..] == a[|p|..] + b
    ensures ReplaceAll(a + b, p, r) == r + ReplaceAll(a[|p|..] + b, p, r)
    ensures ReplaceAll(a, p, r) == r + ReplaceAll(a[|p|..], p, r)
  {
    var s := a + b;
    if |a| < |p| {
      assert OccursAt(s, p, 0);
    }
    assert a[..|p|] == s[..|p|];
    assert s[|p|..] == a[|p|..] + b;
  }

  /** One step of `ReplaceAllConcat` when the pattern does not match at the front. */
  lemma ConcatSkipStep(a: string, b: string, p: string, r: string)
    requires p != [] && a != []
    requires |a + b| >= |p| && (a + b)[..|p|] != p
    ensures (a + b)[1..] == a[1..] + b
    ensures ReplaceAll(a + b, p, r) == [a[0]] + ReplaceAll(a[1..] + b, p, r)
    ensures ReplaceAll(a, p, r) == [a[0]] + ReplaceAll(a[1..], p, r)
  {
    var s := a + b;
    assert s[1..] == a[1..] + b;
    if |a| >= |p| {
      assert a[..|p|] == s[..|p|];
    } else {
      assert a == [a[0]] + a[1..];
    }
  }

  /** Convenience form of `ReplaceAllConcat` for a quote-separated boundary. */
  lemma ReplaceAllSeparated(a: string, b: string, p: string, r: string)
    requires p != [] && Separated(a, b, p)
    ensures ReplaceAll(a + b, p, r) == ReplaceAll(a, p, r) + ReplaceAll(b, p, r)
  {
    SeparatedNoStraddle(a, b, p);
    ReplaceAllConcat(a, b, p, r);
  }

  /** The pattern alone is replaced by the replacement. */
  lemma ReplaceAllWhole(p: string, r: string)
    requires p != []
    ensures ReplaceAll(p, p, r) == r
  {
    assert p[..|p|] == p;
    assert p[|p|..] == [];
  }

  /** A string without the pattern's first character is left unchanged. */
  lemma ReplaceAllFree(s: string, p: string, r: string)
    requires p != [] && p[0] !in s
    ensures ReplaceAll(s, p, r) == s
  {
    FirstCharAbsent(s, p);
    ReplaceAllAbsent(s, p, r);
  }

  /** Replacing a single character distributes over every concatenation. */
  lemma ReplaceCharConcat(a: string, b: string, c: char, r: string)
    ensures ReplaceAll(a + b, [c], r) == ReplaceAll(a, [c], r) + ReplaceAll(b, [c], r)
  {
    ReplaceAllConcat(a, b, [c], r);
  }

  /** A prefix without the pattern's first character is passed over
      unchanged, whatever follows it. */
  lemma {:induction false} ReplaceAllFreePrefix(a: string, b: string, p: string, r: string)
    requires p != [] && p[0] !in a
    ensures ReplaceAll(a + b, p, r) == a + ReplaceAll(b, p, r)
    decreases |a|
  {
    var s := a + b;
    if a == [] {
      assert s == b;
    } else {
      assert s[0] == a[0] && a[0] != p[0];
      ReplaceAllFreePrefix(a[1..], b, p, r);
      if |s| < |p| {
        assert ReplaceAll(b, p, r) == b;
      } else {
        assert s[..|p|] != p by {
          assert s[..|p|][0] == s[0];
        }
        calc {
          ReplaceAll(s, p, r);
          [s[0]] + ReplaceAll(s[1..], p, r);
          { assert s[1..] == a[1..] + b; }
          [a[0]] + (a[1..] + ReplaceAll(b, p, r));
          { assert [a[0]] + a[1..] == a; }
          a + ReplaceAll(b, p, r);
        }
      }
    }
  }

  /** An occurrence of the pattern at the front is replaced, and the scan
      goes on after it. */
  lemma ReplaceAllMatchFront(b: string, p: string, r: string)
    requires p != []
    ensures ReplaceAll(p + b, p, r) == r + ReplaceAll(b, p, r)
  {
    assert (p + b)[..|p|] == p;
    assert (p + b)[|p|..] == b;
  }

  /** A token: a name between two delimiter characters `d`, the name itself
      free of `d`. */
  predicate Delimited(p: string, d: char)
  {
    |p| >= 2 && p[0] == d && p[|p| - 1] == d && d !in p[1..|p| - 1]
  }

  /** Inside a token the delimiter occurs only at both ends. */
  lemma DelimitedInner(q: string, d: char, i: nat)
    requires Delimited(q, d) && 0 < i < |q| - 1
    ensures q[i] != d
  {
    assert q[i] == q[1..|q| - 1][i - 1];
  }

  /** No occurrence of a token `p` starts inside a different token `q`
      when what follows `q` does not continue `p`'s name or holds no
      delimiter to close it. */
  lemma TokenNoOccurrence(q: string, b: string, p: string, d: char, i: nat)
    requires Delimited(q, d) && Delimited(p, d) && q != p
    requires d !in b || b[0] != p[1]
    requires i < |q|
    ensures !OccursAt(q + b, p, i)
  {
    var s := q + b;
    if OccursAt(s, p, i) {
      var w := s[i..i + |p|];
      assert w == p;
      assert s[i] == w[0] == d && q[i] == d;
      if 0 < i < |q| - 1 {
        DelimitedInner(q, d, i);
      } else if i == 0 {
        if |p| < |q| {
          assert w[|p| - 1] == q[|p| - 1];
          DelimitedInner(q, d, |p| - 1);
        } else if |p| > |q| {
          assert w[|q| - 1] == q[|q| - 1];
          DelimitedInner(p, d, |q| - 1);
        }
      }
    }
  }

  /** A different token at the front is passed over unchanged. */
  lemma TokenPrefix(q: string, b: string, p: string, d: char, r: string)
    requires Delimited(q, d) && Delimited(p, d) && q != p
    requires d !in b || b[0] != p[1]
    ensures ReplaceAll(q + b, p, r) == q + ReplaceAll(b, p, r)
  {
    var s := q + b;
    forall i: nat | i < |q| ensures !OccursAt(s, p, i) {
      TokenNoOccurrence(q, b, p, d, i);
    }
    forall i: nat | i <= |q| ensures !OccursAt(q, p, i) {
      if i + |p| <= |q| {
        assert q[i..i + |p|] == s[i..i + |p|];
      }
    }
    assert NoStraddle(q, b, p);
    ReplaceAllConcat(q, b, p, r);
    ReplaceAllAbsent(q, p, r);
  }

  /** After replacing a character by text without it, the character is gone. */
  lemma {:induction false} ReplaceCharRemoves(s: string, c: char, r: string)
    requires c !in r
    ensures c !in ReplaceAll(s, [c], r)
    decreases |s|
  {
    if s != [] {
      ReplaceCharRemoves(s[1..], c, r);
      if s[..1] == [c] {
        assert s[1..] == s[|[c]|..];
      }
    }
  }

  // ---------------------------------------------------------------------
  // Decimal text of integers: `str(n)` and `int(s)`.

  predicate IsDigit(c: char) { '0' <= c <= '9' }

  function DigitChar(d: nat): (c: char)
    requires d < 10
    ensures IsDigit(c) && c as int - '0' as int == d
  {
    ('0' as int + d) as char
  }

  /** Decimal digits of a natural number, most significant first, no leading zero. */
  function NatToString(n: nat): (s: string)
    ensures s != [] && forall i | 0 <= i < |s| :: IsDigit(s[i])
  {
    if n < 10 then [DigitChar(n)] else NatToString(n / 10) + [DigitChar(n % 10)]
  }

  /** Python's `str(n)` for an integer. */
  function IntToString(n: int): string
  {
    if n < 0 then "-" + NatToString(-n) else NatToString(n)
  }

  /** Value of a non-empty run of decimal digits. */
  function DigitsValue(s: string): nat
    requires s != [] && forall i | 0 <= i < |s| :: IsDigit(s[i])
  {
    assert IsDigit(s[|s| - 1]);
    var d := s[|s| - 1] as int - '0' as int;
    if |s| == 1 then d else DigitsValue(s[..|s| - 1]) * 10 + d
  }

  predicate AllDigits(s: string)
  {
    s != [] && forall i | 0 <= i < |s| :: IsDigit(s[i])
  }

  /** Python's `int(s)` on a string: an optional sign followed by decimal
      digits; anything else is rejected. */
  function ParseInt(s: string): Option<int>
  {
    if s != [] && (s[0] == '-' || s[0] == '+') then
      if AllDigits(s[1..]) then
        var v: int := DigitsValue(s[1..]);
        Some(if s[0] == '-' then -v else v)
      else None
    else if AllDigits(s) then Some(DigitsValue(s))
    else None
  }

  lemma {:induction false} DigitsOfNat(n: nat)
    ensures DigitsValue(NatToString(n)) == n
  {
    if n >= 10 {
      var s := NatToString(n);
      DigitsOfNat(n / 10);
      assert s[..|s| - 1] == NatToString(n / 10);
    }
  }

  /** `int(str(n)) == n`. */
  lemma ParseIntRoundTrip(n: int)
    ensures ParseInt(IntToString(n)) == Some(n)
  {
    if n < 0 {
      var s := IntToString(n);
      assert s[1..] == NatToString(-n);
      DigitsOfNat(-n);
    } else {
      DigitsOfNat(n);
    }
  }
}
