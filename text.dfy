/** The JavaScript string operations the core uses: `toLowerCase`, `includes`,
    `replace` with a string pattern, `split(...)[0]` and the default `sort` order. */
module Text {
  import opened Seqs

  /** An upper-case letter of the ASCII or Latin-1 ranges ('A'..'Z', 'À'..'Þ' except '×'). */
  predicate IsUpper(ch: char)
  {
    ('A' <= ch <= 'Z') || ('À' <= ch <= 'Þ' && ch != '×')
  }

  /** `toLowerCase` on one character: upper-case letters move 32 code points down the table. */
  function LowerChar(ch: char): (r: char)
    ensures !IsUpper(r)
    ensures !IsUpper(ch) ==> r == ch
    ensures IsUpper(ch) ==> r as int == ch as int + 32
  {
    if IsUpper(ch) then (ch as int + 32) as char else ch
  }

  /** `String.prototype.toLowerCase`. */
  function Lower(s: string): (r: string)
    ensures |r| == |s|
    ensures forall i :: 0 <= i < |s| ==> r[i] == LowerChar(s[i])
  {
    seq(|s|, i requires 0 <= i < |s| => LowerChar(s[i]))
  }

  /** Lower-casing twice is lower-casing once. */
  lemma LowerIdempotent(s: string)
    ensures Lower(Lower(s)) == Lower(s)
  {
  }

  /** A string without upper-case letters is its own lower-case form. */
  lemma LowerOfLowercase(s: string)
    requires forall i :: 0 <= i < |s| ==> !IsUpper(s[i])
    ensures Lower(s) == s
  {
  }

  predicate StartsWith(s: string, prefix: string)
  {
    |prefix| <= |s| && s[..|prefix|] == prefix
  }

  /** `String.prototype.includes`: `sub` occurs in `s` at some position. */
  predicate Contains(s: string, sub: string)
    decreases |s|
  {
    StartsWith(s, sub) || (s != [] && Contains(s[1..], sub))
  }

  /** Every string includes the empty string. */
  lemma ContainsEmpty(s: string)
    ensures Contains(s, "")
  {
    assert StartsWith(s, "");
  }

  /** `Contains` holds exactly when `sub` is a slice of `s`. */
  lemma {:induction false} ContainsIsSlice(s: string, sub: string, k: nat)
    requires k + |sub| <= |s| && s[k..k + |sub|] == sub
    ensures Contains(s, sub)
    decreases k
  {
    if k == 0 {
      assert StartsWith(s, sub);
    } else {
      assert s[1..][k - 1..k - 1 + |sub|] == s[k..k + |sub|];
      ContainsIsSlice(s[1..], sub, k - 1);
    }
  }

  /** `String.prototype.replace(from, to)` with one-character strings: only the FIRST
      occurrence of `from` is replaced. */
  function ReplaceFirst(s: string, from: char, to: char): (r: string)
    ensures |r| == |s|
    ensures forall i :: 0 <= i < |s| ==> r[i] == (if i == IndexOf(s, from) then to else s[i])
    ensures from !in s ==> r == s
    decreases |s|
  {
    if s == [] then []
    else if s[0] == from then [to] + s[1..]
    else [s[0]] + ReplaceFirst(s[1..], from, to)
  }

  /** `s.split(sep)[0]`: the text before the first `sep`, or all of `s` when there is none. */
  function BeforeFirst(s: string, sep: char): (r: string)
    ensures sep !in r
    ensures StartsWith(s, r)
    ensures |r| < |s| ==> s[|r|] == sep
    ensures sep !in s ==> r == s
    decreases |s|
  {
    if s == [] then []
    else if s[0] == sep then []
    else [s[0]] + BeforeFirst(s[1..], sep)
  }

  /** The default order of `Array.prototype.sort` on strings, where a proper prefix comes first:
      here lexicographic by character, which equals JavaScript's order by UTF-16 code unit on
      strings of Basic Multilingual Plane characters (such as the month names). */
  predicate CodeUnitLess(a: string, b: string)
    decreases |a|
  {
    if a == [] then b != []
    else if b == [] then false
    else if a[0] != b[0] then a[0] < b[0]
    else CodeUnitLess(a[1..], b[1..])
  }

  lemma {:induction false} CodeUnitLessIrreflexive(a: string)
    ensures !CodeUnitLess(a, a)
    decreases |a|
  {
    if a != [] {
      CodeUnitLessIrreflexive(a[1..]);
    }
  }

  lemma {:induction false} CodeUnitLessTransitive(a: string, b: string, c: string)
    requires CodeUnitLess(a, b) && CodeUnitLess(b, c)
    ensures CodeUnitLess(a, c)
    decreases |a|
  {
    if a != [] && b != [] && c != [] && a[0] == b[0] && b[0] == c[0] {
      CodeUnitLessTransitive(a[1..], b[1..], c[1..]);
    }
  }

  lemma {:induction false} CodeUnitLessTotal(a: string, b: string)
    requires a != b
    ensures CodeUnitLess(a, b) || CodeUnitLess(b, a)
    decreases |a|
  {
    if a != [] && b != [] && a[0] == b[0] {
      assert a == [a[0]] + a[1..] && b == [b[0]] + b[1..];
      CodeUnitLessTotal(a[1..], b[1..]);
    }
  }

  /** The character order on strings is transitive, as sorting requires. */
  lemma CodeUnitOrderIsTransitive()
    ensures Transitive(CodeUnitLess)
  {
    forall a, b, c | CodeUnitLess(a, b) && CodeUnitLess(b, c) ensures CodeUnitLess(a, c) {
      CodeUnitLessTransitive(a, b, c);
    }
  }
}
