/**
 * The .NET string operations the generator relies on, modelled on `string`
 * (a sequence of characters): `char.IsWhiteSpace`, `string.IsNullOrWhiteSpace`,
 * `string.Join` and `string.Replace(string, string)`.
 *
 * Two more are not called by the generator: `Split`, the inverse of `Join`
 * by which the round trip of the verifier string is stated, and ordinal
 * comparison, the model's stand-in for the default string comparer that
 * `OrderBy` sorts with.
 */
module Text {

  /** `char.IsWhiteSpace`: the space, line and paragraph separators of Unicode
      together with the control characters U+0009 to U+000D and U+0085. */
  predicate IsWhiteSpace(c: char) {
    || ('\t' <= c <= '\r')
    || c == ' ' || c == '\U{85}' || c == '\U{A0}' || c == '\U{1680}'
    || ('\U{2000}' <= c <= '\U{200A}')
    || c == '\U{2028}' || c == '\U{2029}' || c == '\U{202F}' || c == '\U{205F}' || c == '\U{3000}'
  }

  /** `string.IsNullOrWhiteSpace` on a non-null string: true exactly when no
      character of `s` is anything but white space (so also for ""). */
  function IsNullOrWhiteSpace(s: string): (r: bool)
    ensures r <==> forall i | 0 <= i < |s| :: IsWhiteSpace(s[i])
  {
    if |s| == 0 then true
    else if IsWhiteSpace(s[0]) then IsNullOrWhiteSpace(s[1..])
    else false
  }

  /** `string.Join(separator, values)`. */
  function Join(separator: string, values: seq<string>): string {
    if |values| == 0 then ""
    else if |values| == 1 then values[0]
    else values[0] + separator + Join(separator, values[1..])
  }

  /** `s.Split(c)`: the pieces between the occurrences of `c`; there is always at
      least one. The generator does not split; this is the inverse of `Join`. */
  function Split(s: string, c: char): (pieces: seq<string>)
    ensures |pieces| >= 1
  {
    if |s| == 0 then [""]
    else
      var rest := Split(s[1..], c);
      if s[0] == c then [""] + rest else [[s[0]] + rest[0]] + rest[1..]
  }

  lemma {:induction false} JoinStartsWithFirst(separator: string, values: seq<string>)
    requires values != []
    ensures |values[0]| <= |Join(separator, values)|
    ensures Join(separator, values)[..|values[0]|] == values[0]
  {
    if |values| > 1 {
      assert Join(separator, values) == values[0] + (separator + Join(separator, values[1..]));
    }
  }

  lemma {:induction false} JoinSnoc(separator: string, values: seq<string>, last: string)
    ensures Join(separator, values + [last]) ==
      if values == [] then last else Join(separator, values) + separator + last
  {
    if |values| > 1 {
      assert (values + [last])[1..] == values[1..] + [last];
      JoinSnoc(separator, values[1..], last);
    } else if |values| == 1 {
      assert values + [last] == [values[0], last];
    }
  }

  /** Joining strings that do not contain the separator character gives a
      string that contains it exactly when at least two strings were joined. */
  lemma {:induction false} JoinHasSeparatorIffTwoOrMore(c: char, values: seq<string>)
    requires forall k | 0 <= k < |values| :: c !in values[k]
    ensures c in Join([c], values) <==> |values| >= 2
  {
    if |values| >= 2 {
      var j := Join([c], values);
      assert j == values[0] + [c] + Join([c], values[1..]);
      assert j[|values[0]|] == c;
    }
  }

  /** Joining strings none of which is blank gives a blank string exactly when
      nothing was joined. */
  lemma JoinIsBlankIffEmpty(separator: string, values: seq<string>)
    requires forall k | 0 <= k < |values| :: !IsNullOrWhiteSpace(values[k])
    ensures IsNullOrWhiteSpace(Join(separator, values)) <==> values == []
  {
    if values != [] {
      var j := Join(separator, values);
      JoinStartsWithFirst(separator, values);
      var i :| 0 <= i < |values[0]| && !IsWhiteSpace(values[0][i]);
      assert j[i] == j[..|values[0]|][i] == values[0][i];
    }
  }

  lemma SplitCons(s: string, c: char)
    requires s != [] && s[0] != c
    ensures Split(s, c) == [[s[0]] + Split(s[1..], c)[0]] + Split(s[1..], c)[1..]
  {
  }

  lemma {:induction false} SplitPrefix(prefix: string, s: string, c: char)
    requires c !in prefix
    ensures Split(prefix + s, c) == [prefix + Split(s, c)[0]] + Split(s, c)[1..]
  {
    if prefix != [] {
      var whole := prefix + s;
      assert whole[1..] == prefix[1..] + s;
      SplitPrefix(prefix[1..], s, c);
      SplitCons(whole, c);
      assert [prefix[0]] + (prefix[1..] + Split(s, c)[0]) == prefix + Split(s, c)[0];
    } else {
      assert prefix + s == s && prefix + Split(s, c)[0] == Split(s, c)[0];
    }
  }

  /** `Split` undoes `Join` when the joined strings do not contain the separator
      and there is at least one of them. */
  lemma {:induction false} SplitJoin(c: char, values: seq<string>)
    requires values != []
    requires forall k | 0 <= k < |values| :: c !in values[k]
    ensures Split(Join([c], values), c) == values
  {
    if |values| == 1 {
      SplitPrefix(values[0], "", c);
      assert values[0] + "" == values[0];
    } else {
      var rest := Join([c], values[1..]);
      assert Join([c], values) == values[0] + ([c] + rest);
      SplitPrefix(values[0], [c] + rest, c);
      assert ([c] + rest)[1..] == rest;
      SplitJoin(c, values[1..]);
      assert Split([c] + rest, c) == [""] + values[1..];
      assert values[0] + "" == values[0];
    }
  }

  // Replacement of a string pattern, as `string.Replace(string, string)` does it:
  // ordinal, scanning left to right, each replaced occurrence consumed whole.

  /** True when `pattern` occurs somewhere in `s`. */
  ghost predicate Occurs(pattern: string, s: string) {
    exists i :: OccursAt(pattern, s, i)
  }

  /** True when `pattern` occurs in `s` starting at index `i`. */
  predicate OccursAt(pattern: string, s: string, i: int) {
    0 <= i && i + |pattern| <= |s| && s[i..i + |pattern|] == pattern
  }

  /** `s.Replace(pattern, replacement)`; .NET rejects an empty pattern. */
  function Replace(s: string, pattern: string, replacement: string): string
    requires pattern != ""
    decreases |s|
  {
    if |s| < |pattern| then s
    else if s[..|pattern|] == pattern then replacement + Replace(s[|pattern|..], pattern, replacement)
    else [s[0]] + Replace(s[1..], pattern, replacement)
  }

  /** The text between the occurrences of `pattern` that `Replace` replaces. */
  function Pieces(s: string, pattern: string): (pieces: seq<string>)
    requires pattern != ""
    ensures |pieces| >= 1
    ensures |pieces[0]| <= |s| && s[..|pieces[0]|] == pieces[0]
    decreases |s|
  {
    if |s| < |pattern| then [s]
    else if s[..|pattern|] == pattern then [""] + Pieces(s[|pattern|..], pattern)
    else
      var rest := Pieces(s[1..], pattern);
      [[s[0]] + rest[0]] + rest[1..]
  }

  /** `Replace` puts the replacement between the pieces of `s`. */
  lemma {:induction false} ReplaceJoinsPieces(s: string, pattern: string, replacement: string)
    requires pattern != ""
    ensures Replace(s, pattern, replacement) == Join(replacement, Pieces(s, pattern))
    decreases |s|
  {
    if |s| < |pattern| {
    } else if s[..|pattern|] == pattern {
      ReplaceJoinsPieces(s[|pattern|..], pattern, replacement);
      assert "" + replacement + Join(replacement, Pieces(s[|pattern|..], pattern))
        == replacement + Join(replacement, Pieces(s[|pattern|..], pattern));
    } else {
      var rest := Pieces(s[1..], pattern);
      ReplaceJoinsPieces(s[1..], pattern, replacement);
      if |rest| > 1 {
        assert ([[s[0]] + rest[0]] + rest[1..])[1..] == rest[1..];
        assert [s[0]] + (rest[0] + replacement + Join(replacement, rest[1..]))
          == ([s[0]] + rest[0]) + replacement + Join(replacement, rest[1..]);
      }
    }
  }

  /** Replacing a pattern by itself changes nothing. */
  lemma {:induction false} ReplaceBySelf(s: string, pattern: string)
    requires pattern != ""
    ensures Replace(s, pattern, pattern) == s
    decreases |s|
  {
    if |s| < |pattern| {
    } else if s[..|pattern|] == pattern {
      ReplaceBySelf(s[|pattern|..], pattern);
      assert s == s[..|pattern|] + s[|pattern|..];
    } else {
      ReplaceBySelf(s[1..], pattern);
      assert s == [s[0]] + s[1..];
    }
  }

  /** No piece contains the pattern: every occurrence was consumed. */
  lemma {:induction false} PiecesAvoidPattern(s: string, pattern: string)
    requires pattern != ""
    ensures forall k | 0 <= k < |Pieces(s, pattern)| :: !Occurs(pattern, Pieces(s, pattern)[k])
    decreases |s|
  {
    var pieces := Pieces(s, pattern);
    if |s| < |pattern| {
    } else if s[..|pattern|] == pattern {
      PiecesAvoidPattern(s[|pattern|..], pattern);
      assert pieces[0] == "";
      forall k | 1 <= k < |pieces| ensures !Occurs(pattern, pieces[k]) {
        assert pieces[k] == Pieces(s[|pattern|..], pattern)[k - 1];
      }
    } else {
      var rest := Pieces(s[1..], pattern);
      PiecesAvoidPattern(s[1..], pattern);
      var head := [s[0]] + rest[0];
      assert pieces[0] == head;
      forall i ensures !OccursAt(pattern, head, i) {
        if i == 0 {
          if |pattern| <= |head| {
            assert head[..|pattern|] == s[..|head|][..|pattern|] == s[..|pattern|];
          }
        } else if 0 < i && i + |pattern| <= |head| {
          assert head[i..i + |pattern|] == rest[0][i - 1..i - 1 + |pattern|];
          assert !OccursAt(pattern, rest[0], i - 1);
        }
      }
      forall k | 1 <= k < |pieces| ensures !Occurs(pattern, pieces[k]) {
        assert pieces[k] == rest[k];
      }
    }
  }

  // Ordinal comparison: character by character, a proper prefix first.

  /** `string.CompareOrdinal(a, b) < 0`. */
  predicate Less(a: string, b: string) {
    if |a| == 0 then |b| > 0
    else if |b| == 0 then false
    else if a[0] == b[0] then Less(a[1..], b[1..])
    else a[0] < b[0]
  }

  lemma {:induction false} LessIrreflexive(a: string)
    ensures !Less(a, a)
  {
    if |a| > 0 {
      LessIrreflexive(a[1..]);
    }
  }

  lemma {:induction false} LessAsymmetric(a: string, b: string)
    ensures !(Less(a, b) && Less(b, a))
  {
    if |a| > 0 && |b| > 0 && a[0] == b[0] {
      LessAsymmetric(a[1..], b[1..]);
    }
  }

  lemma {:induction false} LessTransitive(a: string, b: string, c: string)
    requires Less(a, b) && Less(b, c)
    ensures Less(a, c)
  {
    if |a| > 0 && a[0] == b[0] && b[0] == c[0] {
      LessTransitive(a[1..], b[1..], c[1..]);
    }
  }

  lemma {:induction false} LessTotal(a: string, b: string)
    ensures a == b || Less(a, b) || Less(b, a)
  {
    if |a| > 0 && |b| > 0 && a[0] == b[0] {
      LessTotal(a[1..], b[1..]);
      if a[1..] == b[1..] {
        assert a == [a[0]] + a[1..] && b == [b[0]] + b[1..];
      }
    }
  }
}
