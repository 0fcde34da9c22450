/** The string operations the source takes from the JavaScript standard
    library, written out as explicit scans: `split` and `join`, `replace`
    with a string pattern (first occurrence) and with a global literal
    pattern, the tag stripper `replace(/<[^>]*>/g, '')`, `substring(0, n)`
    and `Number.prototype.toString` on integers. */
module Strings {
  import opened Base

  /** `pat` occurs in `s` at position `i`. */
  predicate OccursAt(s: string, pat: string, i: nat) {
    i + |pat| <= |s| && s[i..i + |pat|] == pat
  }

  /** `s` has a prefix `pat` (helper for the scans below). */
  predicate StartsWith(s: string, pat: string) {
    |pat| <= |s| && s[..|pat|] == pat
  }

  /** Position of the first occurrence of `pat` in `s` (`indexOf`). */
  function IndexOf(s: string, pat: string): (r: Option<nat>)
    ensures r.Some? ==> OccursAt(s, pat, r.value)
    ensures r.Some? ==> forall j: nat :: j < r.value ==> !OccursAt(s, pat, j)
    ensures r.None? ==> forall j: nat :: !OccursAt(s, pat, j)
    decreases |s|
  {
    if |pat| > |s| then
      None
    else if StartsWith(s, pat) then
      Some(0)
    else
      match IndexOf(s[1..], pat)
      case None =>
        assert forall j: nat :: OccursAt(s, pat, j + 1) ==> OccursAt(s[1..], pat, j) by {
          forall j: nat | OccursAt(s, pat, j + 1) ensures OccursAt(s[1..], pat, j) {
            assert s[1..][j..j + |pat|] == s[j + 1..j + 1 + |pat|];
          }
        }
        assert forall j: nat :: !OccursAt(s, pat, j) by {
          forall j: nat ensures !OccursAt(s, pat, j) {
            if j > 0 {
              assert !OccursAt(s[1..], pat, j - 1);
            }
          }
        }
        None
      case Some(i) =>
        assert s[1..][i..i + |pat|] == s[i + 1..i + 1 + |pat|];
        assert forall j: nat :: j < i + 1 ==> !OccursAt(s, pat, j) by {
          forall j: nat | j < i + 1 ensures !OccursAt(s, pat, j) {
            if j > 0 {
              assert !OccursAt(s[1..], pat, j - 1);
              assert s[1..][j - 1..j - 1 + |pat|] == s[j..j + |pat|];
            }
          }
        }
        Some(i + 1)
  }

  /** `pat` occurs somewhere in `s` (`includes`). */
  predicate Contains(s: string, pat: string) {
    IndexOf(s, pat).Some?
  }

  /** A string that lacks the pattern's first character does not contain
      the pattern. */
  lemma {:induction false} AbsentFirstChar(s: string, pat: string)
    requires |pat| > 0 && pat[0] !in s
    ensures !Contains(s, pat)
  {
    forall j: nat ensures !OccursAt(s, pat, j) {
      assert j + |pat| <= |s| ==> s[j..j + |pat|][0] == s[j];
    }
  }

  /** An occurrence with no earlier occurrence of the pattern's first
      character is the first occurrence. */
  lemma {:induction false} FirstOccurrence(s: string, pat: string, i: nat)
    requires |pat| > 0 && OccursAt(s, pat, i) && pat[0] !in s[..i]
    ensures IndexOf(s, pat) == Some(i)
  {
    forall j: nat | j < i ensures !OccursAt(s, pat, j) {
      assert s[..i][j] == s[j];
      assert j + |pat| <= |s| ==> s[j..j + |pat|][0] == s[j];
    }
  }

  /** `s.replace(pat, rep)` with a string pattern: only the first occurrence
      is replaced; without an occurrence the string is returned unchanged. */
  function ReplaceFirst(s: string, pat: string, rep: string): (r: string)
    ensures !Contains(s, pat) ==> r == s
    ensures Contains(s, pat) ==>
              var i := IndexOf(s, pat).value;
              r == s[..i] + rep + s[i + |pat|..]
  {
    match IndexOf(s, pat)
    case None => s
    case Some(i) => s[..i] + rep + s[i + |pat|..]
  }

  /** `s.replace(/pat/g, rep)` for a literal, non-empty pattern: matches are
      found left to right and do not overlap. */
  function ReplaceAll(s: string, pat: string, rep: string): (r: string)
    requires |pat| > 0
    decreases |s|
  {
    if |s| < |pat| then s
    else if StartsWith(s, pat) then rep + ReplaceAll(s[|pat|..], pat, rep)
    else [s[0]] + ReplaceAll(s[1..], pat, rep)
  }

  /** A global replacement changes nothing in a string that does not contain
      the pattern's first character. */
  lemma {:induction false} ReplaceAllAbsent(s: string, pat: string, rep: string)
    requires |pat| > 0 && pat[0] !in s
    ensures ReplaceAll(s, pat, rep) == s
    decreases |s|
  {
    if |s| < |pat| {
    } else {
      assert s[..|pat|][0] == s[0];
      assert !StartsWith(s, pat);
      assert pat[0] !in s[1..] by {
        forall k | 0 <= k < |s| - 1 ensures s[1..][k] != pat[0] {
          assert s[1..][k] == s[k + 1];
        }
      }
      ReplaceAllAbsent(s[1..], pat, rep);
      assert [s[0]] + s[1..] == s;
    }
  }

  /** One differing position rules a match out. */
  lemma MismatchAt(s: string, pat: string, k: nat)
    requires k < |s| && k < |pat| && s[k] != pat[k]
    ensures !StartsWith(s, pat)
  {
    if |s| >= |pat| {
      assert s[..|pat|][k] == s[k];
    }
  }

  /** A string that starts with the pattern has that occurrence replaced
      and the rest processed on its own. */
  lemma ReplaceAllHead(b: string, pat: string, rep: string)
    requires |pat| > 0
    ensures ReplaceAll(pat + b, pat, rep) == rep + ReplaceAll(b, pat, rep)
  {
    assert (pat + b)[..|pat|] == pat;
    assert (pat + b)[|pat|..] == b;
  }

  /** A leading part without the pattern's first character is kept as it
      is: no match can start inside it. */
  lemma {:induction false} ReplaceAllKeepsPrefix(a: string, b: string, pat: string, rep: string)
    requires |pat| > 0 && pat[0] !in a
    ensures ReplaceAll(a + b, pat, rep) == a + ReplaceAll(b, pat, rep)
    decreases |a|
  {
    if a != [] {
      var s := a + b;
      assert s[0] == a[0];
      if |s| >= |pat| {
        assert s[..|pat|][0] == a[0];
        assert !StartsWith(s, pat);
        assert s[1..] == a[1..] + b;
        assert ReplaceAll(s, pat, rep) == [a[0]] + ReplaceAll(a[1..] + b, pat, rep);
        ReplaceAllKeepsPrefix(a[1..], b, pat, rep);
        assert [a[0]] + a[1..] == a;
      } else {
        assert ReplaceAll(b, pat, rep) == b;
      }
    } else {
      assert a + b == b;
    }
  }

  /** A string that does not start with the pattern keeps its first
      character. */
  lemma ReplaceAllSkip(c: char, b: string, pat: string, rep: string)
    requires |pat| > 0 && !StartsWith([c] + b, pat)
    ensures ReplaceAll([c] + b, pat, rep) == [c] + ReplaceAll(b, pat, rep)
  {
    var s := [c] + b;
    assert s[1..] == b;
    if |s| < |pat| {
      assert ReplaceAll(b, pat, rep) == b;
    }
  }

  /** `s.split(c)` with a one-character separator: the pieces between
      separators, at least one piece, none containing the separator. */
  function Split(s: string, c: char): (r: seq<string>)
    ensures |r| >= 1
    ensures forall i :: 0 <= i < |r| ==> c !in r[i]
    decreases |s|
  {
    if s == [] then [[]]
    else if s[0] == c then [[]] + Split(s[1..], c)
    else
      var rest := Split(s[1..], c);
      [[s[0]] + rest[0]] + rest[1..]
  }

  /** `parts.join(sep)`. */
  function Join(parts: seq<string>, sep: string): string
    decreases |parts|
  {
    if |parts| == 0 then ""
    else if |parts| == 1 then parts[0]
    else parts[0] + sep + Join(parts[1..], sep)
  }

  /** Splitting on a character and joining with it again gives back the
      original string. */
  lemma {:induction false} JoinSplit(s: string, c: char)
    ensures Join(Split(s, c), [c]) == s
    decreases |s|
  {
    if s == [] {
    } else if s[0] == c {
      JoinSplit(s[1..], c);
      var rest := Split(s[1..], c);
      assert Split(s, c) == [[]] + rest;
      assert ([[]] + rest)[1..] == rest;
      assert [s[0]] + s[1..] == s;
    } else {
      JoinSplit(s[1..], c);
      var rest := Split(s[1..], c);
      var head := [s[0]] + rest[0];
      assert Split(s, c) == [head] + rest[1..];
      if |rest| == 1 {
        assert s == [s[0]] + s[1..];
      } else {
        assert ([head] + rest[1..])[1..] == rest[1..];
        assert Join(rest, [c]) == rest[0] + [c] + Join(rest[1..], [c]);
        assert s == [s[0]] + s[1..];
      }
    }
  }

  /** A string without the separator splits into exactly itself; one with
      it splits into at least two pieces. */
  lemma {:induction false} SplitCount(s: string, c: char)
    ensures c !in s ==> Split(s, c) == [s]
    ensures c in s ==> |Split(s, c)| >= 2
    decreases |s|
  {
    if s != [] {
      SplitCount(s[1..], c);
      if s[0] != c {
        assert c in s ==> c in s[1..];
        assert [s[0]] + s[1..] == s;
      }
    }
  }

  /** Splitting at the first separator: the part before it is the first
      piece, and the rest splits on its own. */
  lemma {:induction false} SplitAtFirst(a: string, b: string, c: char)
    requires c !in a
    ensures Split(a + [c] + b, c) == [a] + Split(b, c)
    decreases |a|
  {
    if a == [] {
      assert a + [c] + b == [c] + b;
      assert ([c] + b)[1..] == b;
    } else {
      SplitAtFirst(a[1..], b, c);
      assert (a + [c] + b)[1..] == a[1..] + [c] + b;
      assert [a[0]] + a[1..] == a;
    }
  }

  /** The first piece of a split is the prefix of the string up to the first
      separator. */
  lemma {:induction false} SplitFirstIsPrefix(s: string, c: char)
    ensures var p := Split(s, c)[0]; |p| <= |s| && s[..|p|] == p
    ensures var p := Split(s, c)[0]; |p| < |s| ==> s[|p|] == c
    decreases |s|
  {
    if s != [] && s[0] != c {
      SplitFirstIsPrefix(s[1..], c);
    }
  }

  /** The part of `s` after the first `c`. */
  function AfterFirst(s: string, c: char): (r: string)
    requires c in s
    ensures |r| < |s| && r == s[|s| - |r|..]
    ensures s[|s| - |r| - 1] == c && c !in s[..|s| - |r| - 1]
    decreases |s|
  {
    if s[0] == c then s[1..]
    else
      var r := AfterFirst(s[1..], c);
      assert s[1..][..|s| - 1 - |r| - 1] == s[1..|s| - |r| - 1];
      r
  }

  /** `s.replace(/<[^>]*>/g, '')`: each `<` that has a later `>` is removed
      together with everything up to and including the first such `>`; a `<`
      with no later `>` stays, and so does everything after it. */
  function StripTags(s: string): (r: string)
    ensures |r| <= |s|
    ensures forall k :: 0 <= k < |r| ==> r[k] in s
    decreases |s|
  {
    if s == [] then []
    else if s[0] == '<' && '>' in s[1..] then
      var r := StripTags(AfterFirst(s[1..], '>'));
      assert forall k :: 0 <= k < |r| ==> r[k] in s by {
        forall k | 0 <= k < |r| ensures r[k] in s {
          var t := AfterFirst(s[1..], '>');
          var m :| 0 <= m < |t| && t[m] == r[k];
          assert t[m] == s[1..][|s[1..]| - |t| + m];
        }
      }
      r
    else
      var r := StripTags(s[1..]);
      assert forall k :: 0 <= k < |r| ==> r[k] in s by {
        forall k | 0 <= k < |r| ensures r[k] in s {
          var m :| 0 <= m < |s[1..]| && s[1..][m] == r[k];
          assert s[m + 1] == r[k];
        }
      }
      [s[0]] + r
  }

  /** No `<` in the string is followed, anywhere later, by a `>`: nothing a
      tag pattern could match is left. */
  predicate NoTag(s: string) {
    forall i, j :: 0 <= i < j < |s| && s[i] == '<' ==> s[j] != '>'
  }

  /** The stripper leaves no tag behind. */
  lemma {:induction false} StripTagsLeavesNoTag(s: string)
    ensures NoTag(StripTags(s))
    decreases |s|
  {
    if s == [] {
    } else if s[0] == '<' && '>' in s[1..] {
      StripTagsLeavesNoTag(AfterFirst(s[1..], '>'));
    } else {
      var r := StripTags(s[1..]);
      StripTagsLeavesNoTag(s[1..]);
      if s[0] == '<' {
        assert '>' !in r;
      }
      var out := [s[0]] + r;
      forall i, j | 0 <= i < j < |out| && out[i] == '<' ensures out[j] != '>' {
        if i == 0 {
          assert out[j] == r[j - 1];
        } else {
          assert out[i] == r[i - 1] && out[j] == r[j - 1];
        }
      }
    }
  }

  /** A string without `<` passes through the stripper unchanged. */
  lemma {:induction false} StripTagsNoOpen(s: string)
    requires '<' !in s
    ensures StripTags(s) == s
    decreases |s|
  {
    if s != [] {
      assert '<' !in s[1..];
      StripTagsNoOpen(s[1..]);
      assert [s[0]] + s[1..] == s;
    }
  }

  /** `s.substring(0, n)` for `n >= 0`: the first `n` characters, or the
      whole string when it is shorter. */
  function Take(s: string, n: nat): (r: string)
    ensures |r| <= n && |r| <= |s|
    ensures |r| == if |s| <= n then |s| else n
    ensures r == s[..|r|]
  {
    if |s| <= n then s else s[..n]
  }

  /** The decimal digit for `0 <= d < 10`. */
  function DigitChar(d: nat): (c: char)
    requires d < 10
    ensures '0' <= c <= '9' && c as int - '0' as int == d
  {
    (('0' as int) + d) as char
  }

  /** Decimal notation of a natural number, without leading zeros. */
  function NatToString(n: nat): (r: string)
    ensures |r| >= 1
    ensures forall k :: 0 <= k < |r| ==> '0' <= r[k] <= '9'
    ensures |r| > 1 ==> r[0] != '0'
    decreases n
  {
    if n < 10 then [DigitChar(n)]
    else NatToString(n / 10) + [DigitChar(n % 10)]
  }

  /** The number a string of decimal digits denotes. */
  function DigitsValue(s: string): int
    decreases |s|
  {
    if s == [] then 0
    else DigitsValue(s[..|s| - 1]) * 10 + (s[|s| - 1] as int - '0' as int)
  }

  /** Reading the decimal notation back gives the number. */
  lemma {:induction false} NatToStringValue(n: nat)
    ensures DigitsValue(NatToString(n)) == n
    decreases n
  {
    if n >= 10 {
      NatToStringValue(n / 10);
      var r := NatToString(n);
      assert r[..|r| - 1] == NatToString(n / 10);
    }
  }

  /** `String(i)` for an integer: a minus sign for negative numbers, then
      the digits of the magnitude. */
  function IntToString(i: int): (r: string)
    ensures i < 0 ==> r == "-" + NatToString(-i)
    ensures i >= 0 ==> r == NatToString(i)
  {
    if i < 0 then "-" + NatToString(-i) else NatToString(i)
  }
}
