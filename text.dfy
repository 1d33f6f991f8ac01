/** An optional value: JavaScript's `undefined` versus a present value. */
module Optional {

  datatype Option<+T> = None | Some(value: T)
}

/**
 * The JavaScript string operations the plugin relies on, on `seq<char>`:
 * `toLowerCase` (on ASCII letters), `includes`, the length of a global
 * regular-expression match of a literal pattern, `split` on one character
 * and `join`.
 */
module Text {

  /** `toLowerCase` of one character, for ASCII letters. */
  function Lower(c: char): char
  {
    if 'A' <= c <= 'Z' then (c as int + 32) as char else c
  }

  /** `toLowerCase`, character by character. */
  function ToLower(s: string): (r: string)
  {
    seq(|s|, i requires 0 <= i < |s| => Lower(s[i]))
  }

  /** `sub` occurs in `s` starting at index `i`. */
  ghost predicate OccursAt(s: string, sub: string, i: nat)
  {
    i + |sub| <= |s| && s[i..i + |sub|] == sub
  }

  /** `s.includes(sub)`. */
  predicate Contains(s: string, sub: string)
    decreases |s|
  {
    sub <= s || (|s| > 0 && Contains(s[1..], sub))
  }

  /** `Contains` means an occurrence at some index. */
  lemma ContainsAt(s: string, sub: string)
    ensures Contains(s, sub) <==> exists i: nat :: OccursAt(s, sub, i)
  {
    if Contains(s, sub) {
      var i := OccurrenceOf(s, sub);
    } else {
      forall i: nat ensures !OccursAt(s, sub, i) {
        if OccursAt(s, sub, i) {
          OccurrenceContains(s, sub, i);
        }
      }
    }
  }

  /** An index where `sub` occurs in `s`, when `s` contains it. */
  lemma {:induction false} OccurrenceOf(s: string, sub: string) returns (i: nat)
    requires Contains(s, sub)
    ensures OccursAt(s, sub, i)
    decreases |s|
  {
    if sub <= s {
      i := 0;
    } else {
      var j := OccurrenceOf(s[1..], sub);
      assert s[1..][j..j + |sub|] == s[j + 1..j + 1 + |sub|];
      i := j + 1;
    }
  }

  /** An occurrence at any index makes `s` contain `sub`. */
  lemma {:induction false} OccurrenceContains(s: string, sub: string, i: nat)
    requires OccursAt(s, sub, i)
    ensures Contains(s, sub)
    decreases i
  {
    if i > 0 {
      assert s[1..][i - 1..i - 1 + |sub|] == s[i..i + |sub|];
      OccurrenceContains(s[1..], sub, i - 1);
    }
  }

  /**
   * `(s.match(/pat/g) || []).length` for a literal pattern: the number of
   * non-overlapping occurrences, scanning from the left.
   */
  function Count(s: string, pat: string): nat
    requires |pat| > 0
    decreases |s|
  {
    if |s| < |pat| then 0
    else if pat <= s then 1 + Count(s[|pat|..], pat)
    else Count(s[1..], pat)
  }

  /** No match is counted exactly when the pattern does not occur. */
  lemma {:induction false} CountZeroIff(s: string, pat: string)
    requires |pat| > 0
    ensures Count(s, pat) == 0 <==> !Contains(s, pat)
    decreases |s|
  {
    if |s| < |pat| {
      if |s| > 0 {
        CountZeroIff(s[1..], pat);
      }
    } else if !(pat <= s) {
      CountZeroIff(s[1..], pat);
    }
  }

  /** A leading character that cannot start the pattern is skipped. */
  lemma CountSkip(s: string, pat: string)
    requires |pat| > 0 && |s| > 0 && s[0] != pat[0]
    ensures Count(s, pat) == Count(s[1..], pat)
  {
    if |s| >= |pat| {
      assert !(pat <= s) by { assert s[0] != pat[0]; }
    }
  }

  /** Leading characters that cannot start the pattern are skipped. */
  lemma {:induction false} CountSkipPrefix(p: string, s: string, pat: string)
    requires |pat| > 0
    requires forall k :: 0 <= k < |p| ==> p[k] != pat[0]
    ensures Count(p + s, pat) == Count(s, pat)
  {
    if p == [] {
      assert p + s == s;
    } else {
      CountSkip(p + s, pat);
      assert (p + s)[1..] == p[1..] + s;
      CountSkipPrefix(p[1..], s, pat);
    }
  }

  /** A text that starts with the pattern counts that match, then the rest. */
  lemma CountMatchHead(pat: string, s: string)
    requires |pat| > 0
    ensures Count(pat + s, pat) == 1 + Count(s, pat)
  {
    assert pat <= pat + s;
    assert (pat + s)[|pat|..] == s;
  }

  /** No occurrence straddles a separator character the pattern lacks. */
  lemma NoOccurrenceAcross(a: string, sep: string, b: string, pat: string)
    requires |pat| > 0 && |sep| > 0
    requires forall k :: 0 <= k < |sep| ==> sep[k] !in pat
    requires !Contains(a, pat) && !Contains(b, pat)
    ensures !Contains(a + sep + b, pat)
  {
    ContainsAt(a, pat);
    ContainsAt(b, pat);
    ContainsAt(a + sep + b, pat);
    forall i: nat ensures !OccursAt(a + sep + b, pat, i) {
      NoOccurrenceAt(a, sep, b, pat, i);
    }
  }

  lemma NoOccurrenceAt(a: string, sep: string, b: string, pat: string, i: nat)
    requires |pat| > 0 && |sep| > 0
    requires forall k :: 0 <= k < |sep| ==> sep[k] !in pat
    requires forall j: nat :: !OccursAt(a, pat, j)
    requires forall j: nat :: !OccursAt(b, pat, j)
    ensures !OccursAt(a + sep + b, pat, i)
  {
    var s := a + sep + b;
    if i + |pat| <= |s| {
      var w := s[i..i + |pat|];
      if i + |pat| <= |a| {
        assert w == a[i..i + |pat|];
        assert !OccursAt(a, pat, i);
      } else if i >= |a| + |sep| {
        var j: nat := i - |a| - |sep|;
        assert w == b[j..j + |pat|];
        assert !OccursAt(b, pat, j);
      } else {
        var k := if i <= |a| then |a| else i;
        assert w[k - i] == sep[k - |a|];
        assert sep[k - |a|] !in pat;
      }
    }
  }

  /** `s.split(sep)` for a one-character separator. */
  function Split(s: string, sep: char): (parts: seq<string>)
    ensures |parts| >= 1
  {
    if s == [] then [""]
    else
      var rest := Split(s[1..], sep);
      if s[0] == sep then [""] + rest
      else [[s[0]] + rest[0]] + rest[1..]
  }

  /** `parts.join(sep)`. */
  function Join(parts: seq<string>, sep: string): string
  {
    if parts == [] then ""
    else if |parts| == 1 then parts[0]
    else parts[0] + sep + Join(parts[1..], sep)
  }

  /**
   * The first piece of a split is the longest separator-free prefix; when a
   * separator follows it, the remaining pieces are the split of what comes
   * after that separator.
   */
  lemma {:induction false} SplitFirst(s: string, sep: char)
    ensures var p := Split(s, sep);
      && sep !in p[0]
      && p[0] <= s
      && (|p| == 1 <==> sep !in s)
      && (|p| == 1 ==> p[0] == s)
      && (|p| > 1 ==> |p[0]| < |s| && s[|p[0]|] == sep && p[1..] == Split(s[|p[0]| + 1..], sep))
  {
    if s != [] {
      var rest := Split(s[1..], sep);
      SplitFirst(s[1..], sep);
      if s[0] != sep {
        var p := Split(s, sep);
        assert p[0] == [s[0]] + rest[0];
        assert s == [s[0]] + s[1..];
        if |rest| > 1 {
          assert s[1..][|rest[0]| + 1..] == s[|p[0]| + 1..];
        }
      }
    }
  }

  lemma {:induction false} SplitWithoutSeparator(a: string, sep: char)
    requires sep !in a
    ensures Split(a, sep) == [a]
  {
    if a != [] {
      SplitWithoutSeparator(a[1..], sep);
      assert [a[0]] + a[1..] == a;
    }
  }

  lemma {:induction false} SplitAfterPiece(a: string, sep: char, b: string)
    requires sep !in a
    ensures Split(a + [sep] + b, sep) == [a] + Split(b, sep)
  {
    var s := a + [sep] + b;
    if a == [] {
      assert s[1..] == b;
    } else {
      assert s[1..] == a[1..] + [sep] + b;
      SplitAfterPiece(a[1..], sep, b);
      assert [a[0]] + a[1..] == a;
    }
  }

  /** Splitting a join of separator-free pieces gives the pieces back. */
  lemma {:induction false} SplitJoin(parts: seq<string>, sep: char)
    requires |parts| >= 1
    requires forall i :: 0 <= i < |parts| ==> sep !in parts[i]
    ensures Split(Join(parts, [sep]), sep) == parts
  {
    if |parts| == 1 {
      SplitWithoutSeparator(parts[0], sep);
    } else {
      SplitAfterPiece(parts[0], sep, Join(parts[1..], [sep]));
      SplitJoin(parts[1..], sep);
    }
  }

  /** Joining puts the separator after the first piece when more follow. */
  lemma JoinCons(first: string, rest: seq<string>, sep: string)
    requires |rest| >= 1
    ensures Join([first] + rest, sep) == first + sep + Join(rest, sep)
  {
    assert ([first] + rest)[1..] == rest;
  }

  /** Joining a concatenation puts one separator between the two joins. */
  lemma {:induction false} JoinAppend(a: seq<string>, b: seq<string>, sep: string)
    requires |a| >= 1 && |b| >= 1
    ensures Join(a + b, sep) == Join(a, sep) + sep + Join(b, sep)
  {
    if |a| > 1 {
      assert (a + b)[1..] == a[1..] + b;
      JoinAppend(a[1..], b, sep);
    }
  }

  /** Decimal digits of a natural number. */
  function NatToString(n: nat): (r: string)
    ensures |r| >= 1
    ensures forall i :: 0 <= i < |r| ==> '0' <= r[i] <= '9'
  {
    if n < 10 then [('0' as int + n) as char]
    else NatToString(n / 10) + [('0' as int + n % 10) as char]
  }
}
