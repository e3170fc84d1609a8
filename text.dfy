/**
 * The JavaScript string operations the components rely on: `trim`,
 * `toLowerCase`, `split` on one separator character, `includes` and
 * `endsWith`, each with the properties the components need of it.
 */
module Text {

  /** The ECMAScript WhiteSpace and LineTerminator code points: exactly what
      `String.prototype.trim` removes. */
  predicate IsWhitespace(c: char) {
    || c == '\t' || c == '\U{000B}' || c == '\U{000C}' || c == ' '
    || c == '\U{00A0}' || c == '\U{FEFF}' || c == '\U{1680}'
    || ('\U{2000}' <= c <= '\U{200A}')
    || c == '\U{202F}' || c == '\U{205F}' || c == '\U{3000}'
    || c == '\n' || c == '\r' || c == '\U{2028}' || c == '\U{2029}'
  }

  predicate AllWhitespace(s: string) {
    forall i :: 0 <= i < |s| ==> IsWhitespace(s[i])
  }

  /** No whitespace at either end: what `trim` leaves. */
  predicate Trimmed(s: string) {
    s == [] || (!IsWhitespace(s[0]) && !IsWhitespace(s[|s| - 1]))
  }

  /** The first index at or after `i` that does not hold whitespace (`|s|`
      when there is none). */
  function SkipForward(s: string, i: nat): (n: nat)
    requires i <= |s|
    ensures i <= n <= |s|
    ensures forall j :: i <= j < n ==> IsWhitespace(s[j])
    ensures n < |s| ==> !IsWhitespace(s[n])
    decreases |s| - i
  {
    if i < |s| && IsWhitespace(s[i]) then SkipForward(s, i + 1) else i
  }

  /** The end of `s[..j]` once its trailing whitespace is cut off. */
  function SkipBackward(s: string, j: nat): (n: nat)
    requires j <= |s|
    ensures n <= j
    ensures forall k :: n <= k < j ==> IsWhitespace(s[k])
    ensures n > 0 ==> !IsWhitespace(s[n - 1])
  {
    if j > 0 && IsWhitespace(s[j - 1]) then SkipBackward(s, j - 1) else j
  }

  /** `s.trim()`: what lies between the leading and the trailing whitespace. */
  function Trim(s: string): string
  {
    var start := SkipForward(s, 0);
    var end := SkipBackward(s, |s|);
    if start < end then s[start..end] else []
  }

  /** `trim` splits `s` into a whitespace prefix, a trimmed middle, and a
      whitespace suffix; the middle is what it returns. */
  lemma TrimDecompose(s: string) returns (front: string, back: string)
    ensures s == front + Trim(s) + back
    ensures AllWhitespace(front) && AllWhitespace(back)
    ensures Trimmed(Trim(s))
  {
    var start := SkipForward(s, 0);
    var end := SkipBackward(s, |s|);
    if start < end {
      front, back := s[..start], s[end..];
      assert s == s[..start] + s[start..end] + s[end..];
    } else {
      front, back := s, [];
      assert s == s + [] + [];
    }
  }

  /** Skipping forward over a whitespace prefix stops right after it. */
  lemma {:induction false} SkipForwardOver(s: string, front: string, rest: string, i: nat)
    requires s == front + rest && i <= |front|
    requires AllWhitespace(front) && (rest == [] || !IsWhitespace(rest[0]))
    ensures SkipForward(s, i) == |front|
    decreases |front| - i
  {
    if i < |front| {
      assert s[i] == front[i];
      SkipForwardOver(s, front, rest, i + 1);
    } else if rest != [] {
      assert s[i] == rest[0];
    }
  }

  /** Skipping backward over a whitespace suffix stops right before it. */
  lemma {:induction false} SkipBackwardOver(s: string, rest: string, back: string, j: nat)
    requires s == rest + back && |rest| <= j <= |s|
    requires AllWhitespace(back) && (rest == [] || !IsWhitespace(rest[|rest| - 1]))
    ensures SkipBackward(s, j) == |rest|
    decreases j
  {
    if j > |rest| {
      assert s[j - 1] == back[j - 1 - |rest|];
      SkipBackwardOver(s, rest, back, j - 1);
    } else if rest != [] {
      assert s[j - 1] == rest[|rest| - 1];
    }
  }

  /** Whatever the split into whitespace, a trimmed middle and whitespace,
      the middle is what `trim` returns. */
  lemma TrimUnique(s: string, front: string, middle: string, back: string)
    requires s == front + middle + back
    requires AllWhitespace(front) && AllWhitespace(back) && Trimmed(middle)
    ensures Trim(s) == middle
  {
    if middle == [] {
      assert s == s + [];
      AllWhitespaceConcat(front, back);
      SkipForwardOver(s, s, [], 0);
    } else {
      assert s == front + (middle + back);
      SkipForwardOver(s, front, middle + back, 0);
      SkipBackwardOver(s, front + middle, back, |s|);
      assert s[|front|..|front| + |middle|] == middle;
    }
  }

  /** The trimmed text is a stretch of `s` and contains only its characters. */
  lemma TrimIsInfix(s: string)
    ensures |Trim(s)| <= |s|
    ensures forall c :: c in Trim(s) ==> c in s
  {
    var f, b := TrimDecompose(s);
    assert forall c :: c in Trim(s) ==> c in f + Trim(s) + b;
  }

  /** A string is blank (`!s.trim()`) exactly when it is all whitespace. */
  lemma BlankIffAllWhitespace(s: string)
    ensures Trim(s) == [] <==> AllWhitespace(s)
  {
    if AllWhitespace(s) {
      assert s == s + [] + [];
      TrimUnique(s, s, [], []);
    } else {
      var start := SkipForward(s, 0);
      assert start < |s|;
      assert start < SkipBackward(s, |s|);
    }
  }

  /** Leading whitespace does not change what `trim` returns. */
  lemma TrimOfWhitespacePrefix(w: string, s: string)
    requires AllWhitespace(w)
    ensures Trim(w + s) == Trim(s)
  {
    var f, b := TrimDecompose(s);
    assert w + s == (w + f) + Trim(s) + b;
    AllWhitespaceConcat(w, f);
    TrimUnique(w + s, w + f, Trim(s), b);
  }

  /** Trailing whitespace does not change what `trim` returns. */
  lemma TrimOfWhitespaceSuffix(s: string, w: string)
    requires AllWhitespace(w)
    ensures Trim(s + w) == Trim(s)
  {
    var f, b := TrimDecompose(s);
    assert s + w == f + Trim(s) + (b + w);
    AllWhitespaceConcat(b, w);
    TrimUnique(s + w, f, Trim(s), b + w);
  }

  lemma AllWhitespaceConcat(a: string, b: string)
    requires AllWhitespace(a) && AllWhitespace(b)
    ensures AllWhitespace(a + b)
  {
    forall i | 0 <= i < |a + b| ensures IsWhitespace((a + b)[i]) {
      if i < |a| { assert (a + b)[i] == a[i]; } else { assert (a + b)[i] == b[i - |a|]; }
    }
  }

  /** `trim` leaves an already trimmed string alone. */
  lemma TrimOfTrimmed(s: string)
    requires Trimmed(s)
    ensures Trim(s) == s
  {
    assert s == [] + s + [];
    TrimUnique(s, [], s, []);
  }

  /** Trimming twice is trimming once. */
  lemma TrimIdempotent(s: string)
    ensures Trim(Trim(s)) == Trim(s)
  {
    var f, b := TrimDecompose(s);
    TrimOfTrimmed(Trim(s));
  }

  /** `c.toLowerCase()` for the letters with a one-to-one lower-case form in
      Basic Latin and Latin-1 (A-Z, and À-Þ except ×). */
  function LowerChar(c: char): char {
    if 'A' <= c <= 'Z' || ('\U{00C0}' <= c <= '\U{00DE}' && c != '\U{00D7}') then
      (c as int + 32) as char
    else
      c
  }

  predicate IsUpperLetter(c: char) {
    'A' <= c <= 'Z' || ('\U{00C0}' <= c <= '\U{00DE}' && c != '\U{00D7}')
  }

  /** `s.toLowerCase()`: same length, no upper-case letter left. */
  function ToLower(s: string): (r: string)
    ensures |r| == |s|
    ensures forall i :: 0 <= i < |r| ==> !IsUpperLetter(r[i])
    ensures forall i :: 0 <= i < |s| && !IsUpperLetter(s[i]) ==> r[i] == s[i]
  {
    seq(|s|, i requires 0 <= i < |s| => LowerChar(s[i]))
  }

  lemma ToLowerIdempotent(s: string)
    ensures ToLower(ToLower(s)) == ToLower(s)
  {
  }

  /** `s.split(sep)` for a one-character separator: the pieces between the
      separators, at least one, none containing the separator. */
  function Split(s: string, sep: char): (parts: seq<string>)
    ensures |parts| >= 1
    ensures forall i :: 0 <= i < |parts| ==> sep !in parts[i]
    decreases |s|
  {
    if |s| == 0 then
      [""]
    else
      var rest := Split(s[1..], sep);
      if s[0] == sep then [""] + rest else [[s[0]] + rest[0]] + rest[1..]
  }

  /** `parts.join(sep)`. */
  function Join(parts: seq<string>, sep: string): string
    decreases |parts|
  {
    if |parts| == 0 then ""
    else if |parts| == 1 then parts[0]
    else parts[0] + sep + Join(parts[1..], sep)
  }

  /** The first piece is what precedes the first separator: a prefix of
      the string, free of the separator, followed by a separator or by the
      end of the string. */
  lemma {:induction false} SplitFirstPiece(s: string, sep: char)
    ensures var first := Split(s, sep)[0];
            && IsPrefix(first, s)
            && sep !in first
            && (|first| < |s| ==> s[|first|] == sep)
    decreases |s|
  {
    if |s| > 0 && s[0] != sep {
      SplitFirstPiece(s[1..], sep);
      var rest := Split(s[1..], sep);
      assert Split(s, sep)[0] == [s[0]] + rest[0];
      assert s[..1 + |rest[0]|] == [s[0]] + s[1..][..|rest[0]|];
    }
  }

  /** Joining the pieces with the separator gives back the string. */
  lemma {:induction false} JoinSplit(s: string, sep: char)
    ensures Join(Split(s, sep), [sep]) == s
    decreases |s|
  {
    if |s| > 0 {
      var rest := Split(s[1..], sep);
      JoinSplit(s[1..], sep);
      if s[0] == sep {
        assert Split(s, sep) == [""] + rest;
        assert ([""] + rest)[1..] == rest;
      } else {
        var parts := Split(s, sep);
        assert parts[0] == [s[0]] + rest[0];
        assert parts[1..] == rest[1..];
        if |rest| == 1 {
          assert Join(rest, [sep]) == rest[0];
        } else {
          assert Join(rest, [sep]) == rest[0] + [sep] + Join(rest[1..], [sep]);
        }
      }
    }
  }

  lemma {:induction false} SplitWithoutSeparator(s: string, sep: char)
    requires sep !in s
    ensures Split(s, sep) == [s]
    decreases |s|
  {
    if |s| > 0 {
      assert s[0] in s;
      assert forall c :: c in s[1..] ==> c in s;
      SplitWithoutSeparator(s[1..], sep);
      assert [s[0]] + s[1..] == s;
    }
  }

  /** A separator between `x` and `y` splits them apart: the pieces of the
      whole are the pieces of `x` followed by the pieces of `y`. */
  lemma {:induction false} SplitAtSeparator(x: string, y: string, sep: char)
    ensures Split(x + [sep] + y, sep) == Split(x, sep) + Split(y, sep)
    decreases |x|
  {
    if x == [] {
      assert x + [sep] + y == [sep] + y;
      assert ([sep] + y)[1..] == y;
    } else {
      var whole := x + [sep] + y;
      assert whole[1..] == x[1..] + [sep] + y;
      SplitAtSeparator(x[1..], y, sep);
    }
  }

  /** A separator-free prefix sticks to the first piece. */
  lemma {:induction false} SplitWithPrefix(w: string, s: string, sep: char)
    requires sep !in w
    ensures Split(w + s, sep) == [w + Split(s, sep)[0]] + Split(s, sep)[1..]
    decreases |w|
  {
    if w != [] {
      assert (w + s)[1..] == w[1..] + s;
      assert (w + s)[0] == w[0];
      assert w[0] in w;
      assert forall c :: c in w[1..] ==> c in w;
      SplitWithPrefix(w[1..], s, sep);
      assert [w[0]] + (w[1..] + Split(s, sep)[0]) == w + Split(s, sep)[0];
    } else {
      var p := Split(s, sep);
      assert w + s == s;
      assert w + p[0] == p[0];
      assert [p[0]] + p[1..] == p;
    }
  }

  /** A separator-free suffix sticks to the last piece. */
  lemma {:induction false} SplitWithSuffix(s: string, w: string, sep: char)
    requires sep !in w
    ensures var p := Split(s, sep);
            Split(s + w, sep) == p[..|p| - 1] + [p[|p| - 1] + w]
    decreases |s|
  {
    if s == [] {
      assert s + w == w;
      SplitWithoutSeparator(w, sep);
    } else {
      SplitWithSuffix(s[1..], w, sep);
      assert (s + w)[1..] == s[1..] + w;
      assert (s + w)[0] == s[0];
      if s[0] == sep {
        SplitWithSuffixAtSeparator(s, w, sep);
      } else {
        SplitWithSuffixAtChar(s, w, sep);
      }
    }
  }

  /** The inductive step of SplitWithSuffix when `s` starts with the separator. */
  lemma SplitWithSuffixAtSeparator(s: string, w: string, sep: char)
    requires s != [] && s[0] == sep && (s + w)[1..] == s[1..] + w && (s + w)[0] == s[0]
    requires var rest := Split(s[1..], sep);
             Split(s[1..] + w, sep) == rest[..|rest| - 1] + [rest[|rest| - 1] + w]
    ensures var p := Split(s, sep);
            Split(s + w, sep) == p[..|p| - 1] + [p[|p| - 1] + w]
  {
    var rest := Split(s[1..], sep);
    var p := Split(s, sep);
    assert p == [""] + rest;
    assert p[..|p| - 1] == [""] + rest[..|rest| - 1];
  }

  /** The inductive step of SplitWithSuffix when `s` starts with another character. */
  lemma SplitWithSuffixAtChar(s: string, w: string, sep: char)
    requires s != [] && s[0] != sep && (s + w)[1..] == s[1..] + w && (s + w)[0] == s[0]
    requires var rest := Split(s[1..], sep);
             Split(s[1..] + w, sep) == rest[..|rest| - 1] + [rest[|rest| - 1] + w]
    ensures var p := Split(s, sep);
            Split(s + w, sep) == p[..|p| - 1] + [p[|p| - 1] + w]
  {
    var rest := Split(s[1..], sep);
    var p := Split(s, sep);
    var r := Split(s[1..] + w, sep);
    assert p == [[s[0]] + rest[0]] + rest[1..];
    assert Split(s + w, sep) == [[s[0]] + r[0]] + r[1..];
    if |rest| == 1 {
      assert r == [rest[0] + w];
      assert [s[0]] + (rest[0] + w) == ([s[0]] + rest[0]) + w;
    } else {
      assert r[0] == rest[0];
      assert r[1..] == rest[1..|rest| - 1] + [rest[|rest| - 1] + w];
    }
  }

  predicate IsPrefix(p: string, s: string) {
    |p| <= |s| && s[..|p|] == p
  }

  /** `s.includes(sub)`. */
  predicate Contains(s: string, sub: string)
    decreases |s|
  {
    IsPrefix(sub, s) || (|s| > 0 && Contains(s[1..], sub))
  }

  /** `sub` occurs in `s` at offset `i`. */
  predicate OccursAt(s: string, sub: string, i: int) {
    0 <= i <= |s| - |sub| && s[i..i + |sub|] == sub
  }

  /** `includes` finds `sub` exactly when it occurs at some offset. */
  lemma {:induction false} ContainsIffOccurs(s: string, sub: string)
    ensures Contains(s, sub) <==> exists i :: OccursAt(s, sub, i)
    decreases |s|
  {
    if IsPrefix(sub, s) {
      assert OccursAt(s, sub, 0);
    } else if |s| > 0 {
      ContainsIffOccurs(s[1..], sub);
      if exists i :: OccursAt(s, sub, i) {
        var i :| OccursAt(s, sub, i);
        assert i != 0;
        assert s[1..][i - 1..i - 1 + |sub|] == s[i..i + |sub|];
        assert OccursAt(s[1..], sub, i - 1);
      }
      if Contains(s[1..], sub) {
        var j :| OccursAt(s[1..], sub, j);
        assert s[j + 1..j + 1 + |sub|] == s[1..][j..j + |sub|];
        assert OccursAt(s, sub, j + 1);
      }
    }
  }

  lemma ContainsEmpty(s: string)
    ensures Contains(s, "")
  {
    assert IsPrefix("", s);
  }

  /** `s.endsWith(suffix)` for a one-character suffix. */
  predicate EndsWith(s: string, c: char) {
    |s| > 0 && s[|s| - 1] == c
  }
}
