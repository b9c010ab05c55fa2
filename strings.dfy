/** The JavaScript string operations the core relies on: the default
    `Array.prototype.sort` order, `trim`, `toLowerCase`, `includes` and
    `slice(-n)`, each stated over `seq<char>`. */
module Strings {

  // ---------------------------------------------------------------------
  // The default sort order: code units compared left to right, a proper
  // prefix before any of its extensions.
  // ---------------------------------------------------------------------

  /** `a` and `b` agree on their first `k` characters, and then `a` ends
      while `b` goes on, or `a`'s next character is the smaller one. */
  ghost predicate SortsBeforeAt(a: string, b: string, k: int)
  {
    && 0 <= k <= |a| && k <= |b| && a[..k] == b[..k]
    && ((k == |a| && k < |b|) || (k < |a| && k < |b| && a[k] < b[k]))
  }

  /** `a` sorts before `b`: decided at the first position where they
      differ, a proper prefix first. */
  predicate LexLess(a: string, b: string)
    ensures LexLess(a, b) <==> exists k :: SortsBeforeAt(a, b, k)
    decreases |a|
  {
    if |a| == 0 then
      assert |b| > 0 ==> SortsBeforeAt(a, b, 0);
      |b| > 0
    else if |b| == 0 then false
    else if a[0] != b[0] then
      LexLessFirstChar(a, b);
      a[0] < b[0]
    else
      LexLessShift(a, b);
      LexLess(a[1..], b[1..])
  }

  lemma LexLessFirstChar(a: string, b: string)
    requires |a| > 0 && |b| > 0 && a[0] != b[0]
    ensures (exists k :: SortsBeforeAt(a, b, k)) <==> a[0] < b[0]
  {
    if a[0] < b[0] {
      assert SortsBeforeAt(a, b, 0);
    }
    if k :| SortsBeforeAt(a, b, k) {
      if k > 0 {
        assert a[..k][0] == b[..k][0];
      }
    }
  }

  lemma LexLessShift(a: string, b: string)
    requires |a| > 0 && |b| > 0 && a[0] == b[0]
    ensures (exists k :: SortsBeforeAt(a, b, k)) <==> (exists k :: SortsBeforeAt(a[1..], b[1..], k))
  {
    if k :| SortsBeforeAt(a, b, k) {
      assert k > 0;
      assert a[1..][..k - 1] == a[..k][1..];
      assert b[1..][..k - 1] == b[..k][1..];
      assert SortsBeforeAt(a[1..], b[1..], k - 1);
    }
    if k :| SortsBeforeAt(a[1..], b[1..], k) {
      assert a[..k + 1] == [a[0]] + a[1..][..k];
      assert b[..k + 1] == [b[0]] + b[1..][..k];
      assert SortsBeforeAt(a, b, k + 1);
    }
  }

  lemma {:induction false} LexLessIrreflexive(a: string)
    ensures !LexLess(a, a)
    decreases |a|
  {
    if |a| > 0 {
      LexLessIrreflexive(a[1..]);
    }
  }

  lemma {:induction false} LexLessTransitive(a: string, b: string, c: string)
    requires LexLess(a, b) && LexLess(b, c)
    ensures LexLess(a, c)
    decreases |a|
  {
    if |a| > 0 && a[0] == b[0] && b[0] == c[0] {
      LexLessTransitive(a[1..], b[1..], c[1..]);
    }
  }

  lemma {:induction false} LexLessTotal(a: string, b: string)
    requires a != b
    ensures LexLess(a, b) || LexLess(b, a)
    decreases |a|
  {
    if |a| > 0 && |b| > 0 && a[0] == b[0] {
      assert a == [a[0]] + a[1..] && b == [b[0]] + b[1..];
      LexLessTotal(a[1..], b[1..]);
    }
  }

  lemma LexLessAsymmetric(a: string, b: string)
    requires LexLess(a, b)
    ensures !LexLess(b, a)
  {
    if LexLess(b, a) {
      LexLessTransitive(a, b, a);
      LexLessIrreflexive(a);
    }
  }

  /** Every earlier element sorts strictly before every later one. */
  ghost predicate StrictlySorted(s: seq<string>)
  {
    forall i, j :: 0 <= i < j < |s| ==> LexLess(s[i], s[j])
  }

  lemma StrictlySortedHasNoDuplicates(s: seq<string>)
    requires StrictlySorted(s)
    ensures forall i, j :: 0 <= i < |s| && 0 <= j < |s| && i != j ==> s[i] != s[j]
  {
    forall i, j | 0 <= i < |s| && 0 <= j < |s| && i != j
      ensures s[i] != s[j]
    {
      if i < j { LexLessIrreflexive(s[i]); } else { LexLessIrreflexive(s[j]); }
    }
  }

  /** Two strictly sorted sequences holding the same strings are equal:
      sorting a set gives one answer whatever order the set was built in. */
  lemma {:induction false} StrictlySortedUnique(s: seq<string>, t: seq<string>)
    requires StrictlySorted(s) && StrictlySorted(t)
    requires forall x :: x in s <==> x in t
    ensures s == t
    decreases |s|
  {
    if s != [] { assert s[0] in s; }
    if t != [] { assert t[0] in t; }
    if s != [] && t != [] {
      assert s[0] in t && t[0] in s;
      if s[0] != t[0] {
        var k :| 0 <= k < |t| && t[k] == s[0];
        var m :| 0 <= m < |s| && s[m] == t[0];
        assert k != 0 && m != 0;
        LexLessAsymmetric(t[0], s[0]);
      }
      forall x
        ensures x in s[1..] <==> x in t[1..]
      {
        LexLessIrreflexive(s[0]);
        if x in s[1..] {
          var k :| 0 <= k < |s[1..]| && s[1..][k] == x;
          assert s[k + 1] == x;
          assert x in t;
          assert x != t[0];
        }
        if x in t[1..] {
          var k :| 0 <= k < |t[1..]| && t[1..][k] == x;
          assert t[k + 1] == x;
          assert x in s;
          assert x != s[0];
        }
      }
      StrictlySortedUnique(s[1..], t[1..]);
      assert s == [s[0]] + s[1..] && t == [t[0]] + t[1..];
    }
  }

  // ---------------------------------------------------------------------
  // `String.prototype.trim`: strips WhiteSpace and LineTerminator code
  // points (section 12.2 and 12.3 of ECMA-262) from both ends.
  // ---------------------------------------------------------------------

  predicate IsJsWhitespace(c: char)
  {
    || c == '\t' || c == '\n' || c == '\U{000B}' || c == '\U{000C}' || c == '\r'
    || c == ' ' || c == '\U{00A0}' || c == '\U{1680}'
    || ('\U{2000}' <= c <= '\U{200A}')
    || c == '\U{2028}' || c == '\U{2029}' || c == '\U{202F}' || c == '\U{205F}'
    || c == '\U{3000}' || c == '\U{FEFF}'
  }

  /** Every character of `s` is whitespace (so an empty `s` is blank). */
  ghost predicate IsBlank(s: string)
  {
    forall i :: 0 <= i < |s| ==> IsJsWhitespace(s[i])
  }

  function TrimStart(s: string): (r: string)
    ensures |r| <= |s| && r == s[|s| - |r|..]
    ensures IsBlank(s[..|s| - |r|])
    ensures r == [] || !IsJsWhitespace(r[0])
    decreases |s|
  {
    if |s| > 0 && IsJsWhitespace(s[0]) then TrimStart(s[1..]) else s
  }

  function TrimEnd(s: string): (r: string)
    ensures |r| <= |s| && r == s[..|r|]
    ensures IsBlank(s[|r|..])
    ensures r == [] || !IsJsWhitespace(r[|r| - 1])
    decreases |s|
  {
    if |s| > 0 && IsJsWhitespace(s[|s| - 1]) then TrimEnd(s[..|s| - 1]) else s
  }

  /** `r` is the slice of `s` starting at `i`, and everything of `s` on
      either side of it is whitespace. */
  ghost predicate TrimmedFrom(s: string, r: string, i: int)
  {
    0 <= i <= |s| - |r| && s[i..i + |r|] == r && IsBlank(s[..i]) && IsBlank(s[i + |r|..])
  }

  /** `s.trim()`: a slice of `s` between two whitespace runs that neither
      starts nor ends with whitespace. */
  function Trim(s: string): (r: string)
    ensures exists i :: TrimmedFrom(s, r, i)
    ensures r == [] || (!IsJsWhitespace(r[0]) && !IsJsWhitespace(r[|r| - 1]))
  {
    TrimSlice(s);
    TrimEnd(TrimStart(s))
  }

  lemma TrimSlice(s: string)
    ensures TrimmedFrom(s, TrimEnd(TrimStart(s)), |s| - |TrimStart(s)|)
    ensures var r := TrimEnd(TrimStart(s)); r == [] || r[0] == TrimStart(s)[0]
  {
    var t := TrimStart(s);
    var r := TrimEnd(t);
    var i := |s| - |t|;
    assert t == s[i..];
    assert r == t[..|r|];
    assert s[i..i + |r|] == r;
    assert s[i + |r|..] == t[|r|..];
  }

  /** `s.trim() === ''` exactly when `s` holds nothing but whitespace. */
  lemma TrimEmptyIffBlank(s: string)
    ensures Trim(s) == "" <==> IsBlank(s)
  {
    var i :| TrimmedFrom(s, Trim(s), i);
    if Trim(s) == "" {
      forall j | 0 <= j < |s|
        ensures IsJsWhitespace(s[j])
      {
        if j < i {
          assert s[..i][j] == s[j];
        } else {
          assert s[i..][j - i] == s[j];
        }
      }
    } else {
      assert s[i] == Trim(s)[0];
    }
  }

  // ---------------------------------------------------------------------
  // `String.prototype.toLowerCase`, restricted to ASCII letters.
  // ---------------------------------------------------------------------

  function ToLowerChar(c: char): (d: char)
    ensures 'A' <= c <= 'Z' ==> d as int == c as int + 32
    ensures !('A' <= c <= 'Z') ==> d == c
    ensures !('A' <= d <= 'Z')
    ensures 'a' <= d <= 'z' <==> 'A' <= c <= 'Z' || 'a' <= c <= 'z'
  {
    if 'A' <= c <= 'Z' then (c as int + 32) as char else c
  }

  function ToLower(s: string): (r: string)
    ensures |r| == |s|
    ensures forall i :: 0 <= i < |s| ==> r[i] == ToLowerChar(s[i])
    ensures forall i :: 0 <= i < |r| ==> !('A' <= r[i] <= 'Z')
  {
    seq(|s|, i requires 0 <= i < |s| => ToLowerChar(s[i]))
  }

  /** Lower-casing is idempotent. */
  lemma ToLowerIdempotent(s: string)
    ensures ToLower(ToLower(s)) == ToLower(s)
  {
  }

  // ---------------------------------------------------------------------
  // `String.prototype.includes`.
  // ---------------------------------------------------------------------

  predicate StartsWith(s: string, prefix: string)
  {
    |prefix| <= |s| && s[..|prefix|] == prefix
  }

  /** `sub` occurs in `s` starting at index `i`. */
  predicate OccursAt(s: string, sub: string, i: int)
  {
    0 <= i <= |s| - |sub| && s[i..i + |sub|] == sub
  }

  /** `s.includes(sub)`: some window of `s` equals `sub`. */
  function Contains(s: string, sub: string): (b: bool)
    ensures b <==> exists i :: OccursAt(s, sub, i)
    decreases |s|
  {
    if StartsWith(s, sub) then
      assert OccursAt(s, sub, 0);
      true
    else if |s| <= |sub| then
      assert forall i :: OccursAt(s, sub, i) ==> i == 0;
      false
    else
      ContainsShift(s, sub);
      Contains(s[1..], sub)
  }

  lemma ContainsShift(s: string, sub: string)
    requires |s| > |sub| && !StartsWith(s, sub)
    ensures (exists i :: OccursAt(s, sub, i)) <==> (exists i :: OccursAt(s[1..], sub, i))
  {
    if i :| OccursAt(s, sub, i) {
      assert i != 0;
      assert s[1..][i - 1..i - 1 + |sub|] == s[i..i + |sub|];
      assert OccursAt(s[1..], sub, i - 1);
    }
    if i :| OccursAt(s[1..], sub, i) {
      assert s[i + 1..i + 1 + |sub|] == s[1..][i..i + |sub|];
      assert OccursAt(s, sub, i + 1);
    }
  }

  // ---------------------------------------------------------------------
  // `s.slice(-n)` for a positive `n`: the last `n` characters, or all of
  // `s` when it is shorter.
  // ---------------------------------------------------------------------

  function Min(a: int, b: int): int { if a < b then a else b }

  function SliceLast(s: string, n: nat): (r: string)
    requires n > 0
    ensures |r| == Min(n, |s|)
    ensures s == s[..|s| - |r|] + r
  {
    if |s| < n then s else s[|s| - n..]
  }
}
