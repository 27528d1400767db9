// Character classes and string operations the transpiler takes from Rust's
// `str`/`char` and from the `regex` crate, stated over `seq<char>`.

module Text {
  import opened Wrappers

  /** `char::is_ascii_alphabetic`. */
  predicate IsAsciiAlpha(c: char) {
    ('a' <= c <= 'z') || ('A' <= c <= 'Z')
  }

  /** An ASCII decimal digit: `'0'..='9'`. */
  predicate IsDigit(c: char) {
    '0' <= c <= '9'
  }

  /** A regex word character (`\w`), restricted to ASCII: letters, digits and '_'. */
  predicate IsWordChar(c: char) {
    IsAsciiAlpha(c) || IsDigit(c) || c == '_'
  }

  /** The ASCII characters Rust's `str::trim` removes. */
  predicate IsTrimSpace(c: char) {
    c == ' ' || c == '\t' || c == '\n' || c == '\r' || c == '\U{000B}' || c == '\U{000C}'
  }

  /** `str::starts_with`. */
  predicate StartsWith(s: string, prefix: string) {
    |prefix| <= |s| && s[..|prefix|] == prefix
  }

  /**
   * The regex `^\b(?:word)\b` on `s`: `s` starts with `word` and the
   * character after it, if any, is not a word character.
   */
  predicate StartsWithWord(s: string, word: string)
    requires |word| > 0 && IsWordChar(word[0])
  {
    StartsWith(s, word) && (|s| == |word| || !IsWordChar(s[|word|]))
  }

  /** `sub` occurs in `s` starting at position `i`. */
  predicate OccursAt(s: string, sub: string, i: int) {
    0 <= i <= |s| - |sub| && s[i..i + |sub|] == sub
  }

  /** A text made of three pieces starts with the first, holds the second right after it, and ends with the third. */
  lemma ThreePieces(a: string, b: string, c: string)
    ensures |a + b + c| == |a| + |b| + |c| && OccursAt(a + b + c, b, |a|)
    ensures (a + b + c)[..|a|] == a && (a + b + c)[|a| + |b|..] == c
  {
    assert (a + b + c)[|a|..|a| + |b|] == b;
  }

  /** `str::contains`. */
  predicate Contains(s: string, sub: string) {
    exists i :: 0 <= i <= |s| && OccursAt(s, sub, i)
  }

  /** `n` copies of `c`. */
  function Repeat(c: char, n: nat): (r: string)
    ensures |r| == n
    ensures forall i :: 0 <= i < n ==> r[i] == c
  {
    if n == 0 then [] else [c] + Repeat(c, n - 1)
  }

  /** `parts.join(sep)`. */
  function Join(parts: seq<string>, sep: string): (r: string)
    ensures |parts| == 0 ==> r == []
    ensures |parts| == 1 ==> r == parts[0]
  {
    if |parts| == 0 then []
    else if |parts| == 1 then parts[0]
    else parts[0] + sep + Join(parts[1..], sep)
  }

  lemma JoinCons(p: string, rest: seq<string>, sep: string)
    requires |rest| > 0
    ensures Join([p] + rest, sep) == p + sep + Join(rest, sep)
  {
    assert ([p] + rest)[1..] == rest;
  }

  /** Joining `[a] + rest` appends `a` in front, followed by the separator when something follows. */
  lemma JoinAppend(parts: seq<string>, last: string, sep: string)
    requires |parts| > 0
    ensures Join(parts + [last], sep) == Join(parts, sep) + sep + last
  {
    if |parts| == 1 {
      assert parts + [last] == [parts[0], last];
      assert [parts[0], last][1..] == [last];
    } else {
      assert (parts + [last])[1..] == parts[1..] + [last];
      JoinAppend(parts[1..], last, sep);
    }
  }

  /** Removes leading characters `IsTrimSpace` holds of. */
  function TrimStart(s: string): (r: string)
    ensures |r| <= |s| && r == s[|s| - |r|..]
    ensures |r| > 0 ==> !IsTrimSpace(r[0])
    ensures forall i :: 0 <= i < |s| - |r| ==> IsTrimSpace(s[i])
  {
    if |s| > 0 && IsTrimSpace(s[0]) then TrimStart(s[1..]) else s
  }

  /** Removes trailing characters `IsTrimSpace` holds of. */
  function TrimEnd(s: string): (r: string)
    ensures |r| <= |s| && r == s[..|r|]
    ensures |r| > 0 ==> !IsTrimSpace(r[|r| - 1])
    ensures forall i :: |r| <= i < |s| ==> IsTrimSpace(s[i])
  {
    if |s| > 0 && IsTrimSpace(s[|s| - 1]) then TrimEnd(s[..|s| - 1]) else s
  }

  /** `str::trim`, over the ASCII whitespace characters. */
  function Trim(s: string): (r: string)
    ensures |r| <= |s|
    ensures |r| > 0 ==> !IsTrimSpace(r[0]) && !IsTrimSpace(r[|r| - 1])
  {
    TrimEnd(TrimStart(s))
  }

  /**
   * Replaces every non-overlapping occurrence of `pat`, scanning left to
   * right, by `rep` (`str::replace`, and a regex replacement whose pattern is
   * a fixed text).
   */
  function ReplaceAll(s: string, pat: string, rep: string): (r: string)
    requires |pat| > 0
    ensures !Contains(s, pat) ==> r == s
    decreases |s|
  {
    if |s| < |pat| then s
    else if s[..|pat|] == pat then
      assert OccursAt(s, pat, 0);
      rep + ReplaceAll(s[|pat|..], pat, rep)
    else
      var tail := ReplaceAll(s[1..], pat, rep);
      assert !Contains(s, pat) ==> !Contains(s[1..], pat) by {
        if Contains(s[1..], pat) {
          var i :| 0 <= i <= |s[1..]| && OccursAt(s[1..], pat, i);
          assert 0 <= i <= |s[1..]| - |pat| && s[1..][i..i + |pat|] == pat;
          assert s[i + 1..i + 1 + |pat|] == s[1..][i..i + |pat|];
          assert OccursAt(s, pat, i + 1);
        }
      }
      [s[0]] + tail
  }

  /** At an occurrence of `pat`, the replacement is emitted and the scan goes on after it. */
  lemma ReplaceAllAt(s: string, pat: string, rep: string)
    requires |pat| > 0 && |pat| <= |s| && s[..|pat|] == pat
    ensures ReplaceAll(s, pat, rep) == rep + ReplaceAll(s[|pat|..], pat, rep)
  {
  }

  /** Where `pat` does not start, the first character is kept and the scan moves one on. */
  lemma ReplaceAllPast(s: string, pat: string, rep: string)
    requires |pat| > 0 && |pat| <= |s| && s[..|pat|] != pat
    ensures ReplaceAll(s, pat, rep) == [s[0]] + ReplaceAll(s[1..], pat, rep)
  {
  }

  /**
   * The first occurrence of `pat` is replaced by `rep`, the text before it
   * is kept, and the scan resumes right after it.
   */
  lemma {:induction false} ReplaceAllFirst(a: string, pat: string, b: string, rep: string)
    requires |pat| > 0
    requires forall i :: 0 <= i < |a| ==> !OccursAt(a + pat + b, pat, i)
    ensures ReplaceAll(a + pat + b, pat, rep) == a + rep + ReplaceAll(b, pat, rep)
    decreases |a|
  {
    var s := a + pat + b;
    if |a| == 0 {
      assert s == pat + b;
      assert s[..|pat|] == pat && s[|pat|..] == b;
      ReplaceAllAt(s, pat, rep);
    } else {
      assert !OccursAt(s, pat, 0);
      ReplaceAllPast(s, pat, rep);
      NoEarlierOccurrenceShifts(a, pat, b);
      ReplaceAllFirst(a[1..], pat, b, rep);
      ConsRegroup(a, rep, ReplaceAll(b, pat, rep));
    }
  }

  /** Dropping the first character keeps "no occurrence before `pat`" and shifts the text by one. */
  lemma NoEarlierOccurrenceShifts(a: string, pat: string, b: string)
    requires |a| > 0
    requires forall i :: 0 <= i < |a| ==> !OccursAt(a + pat + b, pat, i)
    ensures (a + pat + b)[0] == a[0] && (a + pat + b)[1..] == a[1..] + pat + b
    ensures forall i :: 0 <= i < |a[1..]| ==> !OccursAt(a[1..] + pat + b, pat, i)
  {
    var s := a + pat + b;
    assert s[1..] == a[1..] + pat + b;
    forall i | 0 <= i < |a[1..]|
      ensures !OccursAt(a[1..] + pat + b, pat, i)
    {
      assert !OccursAt(s, pat, i + 1);
      assert i + 1 + |pat| <= |s| ==> s[i + 1..i + 1 + |pat|] == s[1..][i..i + |pat|];
    }
  }

  /** A first character put back in front of the rest. */
  lemma ConsRegroup(a: string, r: string, t: string)
    requires |a| > 0
    ensures [a[0]] + (a[1..] + r + t) == a + r + t
  {
  }

  /** `line.is_empty()` for the Rust `String`. */
  predicate IsEmpty(s: string) { |s| == 0 }

  /** The position of the first occurrence of `x` in `xs`, if there is one. */
  function FirstIndex(xs: seq<string>, x: string): (r: Option<nat>)
    ensures r.Some? ==> r.value < |xs| && xs[r.value] == x && forall k :: 0 <= k < r.value ==> xs[k] != x
    ensures r.None? <==> forall k :: 0 <= k < |xs| ==> xs[k] != x
  {
    if |xs| == 0 then None
    else if xs[0] == x then Some(0)
    else
      match FirstIndex(xs[1..], x)
      case None => None
      case Some(i) => Some(i + 1)
  }

  /** Adding an element at the end leaves an earlier first occurrence where it was. */
  lemma {:induction false} FirstIndexAppend(xs: seq<string>, y: string, x: string)
    ensures FirstIndex(xs + [y], x) == if FirstIndex(xs, x).Some? then FirstIndex(xs, x) else if y == x then Some(|xs|) else None
  {
    var r := FirstIndex(xs + [y], x);
    if FirstIndex(xs, x).Some? {
      var i := FirstIndex(xs, x).value;
      assert (xs + [y])[i] == x;
      if r.None? {
        assert false;
      }
    } else if y == x {
      assert (xs + [y])[|xs|] == x;
    }
  }
}
