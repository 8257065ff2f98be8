/**
 * The few string operations of Python that the supervisor script relies on:
 * `str.split(sep)` with an explicit one-character separator, `sep.join(parts)`
 * and `str.strip()` with no argument.
 */
module Text {

  /** True when `c` occurs nowhere in `s`. */
  predicate Free(s: string, c: char) {
    forall k :: 0 <= k < |s| ==> s[k] != c
  }

  /** A concatenation is free of `c` when both halves are. */
  lemma FreeConcat(a: string, b: string, c: char)
    requires Free(a, c) && Free(b, c)
    ensures Free(a + b, c)
  {
  }

  /** Index of the first occurrence of `c` in `s`. */
  function IndexOf(s: string, c: char): (i: nat)
    requires c in s
    ensures i < |s| && s[i] == c && Free(s[..i], c)
  {
    if s[0] == c then 0 else 1 + IndexOf(s[1..], c)
  }

  /** `sep.join(parts)`: the parts with one separator between neighbours; `""` for no parts. */
  function Join(parts: seq<string>, sep: char): (r: string)
  {
    if |parts| == 0 then ""
    else if |parts| == 1 then parts[0]
    else parts[0] + [sep] + Join(parts[1..], sep)
  }

  /**
   * `s.split(sep)`: the maximal separator-free pieces between separators, in
   * order; never empty (`"".split(":") == [""]`), and joining them back gives `s`.
   */
  function Split(s: string, sep: char): (parts: seq<string>)
    ensures |parts| >= 1
    ensures forall k :: 0 <= k < |parts| ==> Free(parts[k], sep)
    ensures Join(parts, sep) == s
    decreases |s|
  {
    if sep !in s then [s]
    else
      var i := IndexOf(s, sep);
      var rest := Split(s[i + 1..], sep);
      assert s == s[..i] + [sep] + s[i + 1..];
      assert ([s[..i]] + rest)[1..] == rest;
      [s[..i]] + rest
  }

  /** The first separator of `a + [sep] + b` is the one between them when `a` has none. */
  lemma {:induction false} IndexOfJoined(a: string, sep: char, b: string)
    requires Free(a, sep)
    ensures sep in a + [sep] + b
    ensures IndexOf(a + [sep] + b, sep) == |a|
  {
    var s := a + [sep] + b;
    assert s[|a|] == sep;
  }

  /** Splitting undoes joining when no part contains the separator. */
  lemma {:induction false} SplitJoin(parts: seq<string>, sep: char)
    requires |parts| >= 1
    requires forall k :: 0 <= k < |parts| ==> Free(parts[k], sep)
    ensures Split(Join(parts, sep), sep) == parts
    decreases |parts|
  {
    if |parts| == 1 {
      assert sep !in parts[0] by {
        assert Free(parts[0], sep);
      }
    } else {
      var a, rest := parts[0], parts[1..];
      assert Free(a, sep);
      var j := Join(rest, sep);
      var s := a + [sep] + j;
      assert Join(parts, sep) == s;
      IndexOfJoined(a, sep, j);
      assert s[..|a|] == a;
      assert s[|a| + 1..] == j;
      forall k | 0 <= k < |rest| ensures Free(rest[k], sep) {
        assert rest[k] == parts[k + 1];
      }
      SplitJoin(rest, sep);
      assert parts == [a] + rest;
    }
  }

  /** The characters Python's `str.strip()` removes (`str.isspace()`). */
  predicate IsSpace(c: char) {
    c == ' ' || c == '\t' || c == '\n' || c == '\r' || c == '\U{000B}' || c == '\U{000C}' ||
    c == '\U{001C}' || c == '\U{001D}' || c == '\U{001E}' || c == '\U{001F}' || c == '\U{0085}' ||
    c == '\U{00A0}' || c == '\U{1680}' || c == '\U{2000}' || c == '\U{2001}' || c == '\U{2002}' ||
    c == '\U{2003}' || c == '\U{2004}' || c == '\U{2005}' || c == '\U{2006}' || c == '\U{2007}' ||
    c == '\U{2008}' || c == '\U{2009}' || c == '\U{200A}' || c == '\U{2028}' || c == '\U{2029}' ||
    c == '\U{202F}' || c == '\U{205F}' || c == '\U{3000}'
  }

  /** True when every character of `s` is whitespace. */
  predicate AllSpace(s: string) {
    forall k :: 0 <= k < |s| ==> IsSpace(s[k])
  }

  /** `s.lstrip()`: `s` without its leading whitespace. */
  function StripLeft(s: string): (r: string)
  {
    if s == [] || !IsSpace(s[0]) then s else StripLeft(s[1..])
  }

  /** `s.rstrip()`: `s` without its trailing whitespace. */
  function StripRight(s: string): (r: string)
  {
    if s == [] || !IsSpace(s[|s| - 1]) then s else StripRight(s[..|s| - 1])
  }

  /** `s.strip()`: `s` without leading and trailing whitespace. */
  function Strip(s: string): (r: string)
  {
    StripRight(StripLeft(s))
  }

  /** A left strip removes a whitespace prefix and stops at a non-whitespace character. */
  lemma {:induction false} LeftPadding(s: string) returns (w: string)
    ensures AllSpace(w) && s == w + StripLeft(s)
    ensures StripLeft(s) == [] || !IsSpace(StripLeft(s)[0])
    decreases |s|
  {
    if s == [] || !IsSpace(s[0]) {
      w := [];
      assert StripLeft(s) == s;
    } else {
      var rest := StripLeft(s[1..]);
      assert StripLeft(s) == rest;
      var w' := LeftPadding(s[1..]);
      w := [s[0]] + w';
      calc {
        s;
        [s[0]] + s[1..];
        [s[0]] + (w' + rest);
        w + rest;
      }
      assert forall k :: 0 < k < |w| ==> w[k] == w'[k - 1];
    }
  }

  /** A right strip removes a whitespace suffix and stops at a non-whitespace character. */
  lemma {:induction false} RightPadding(s: string) returns (w: string)
    ensures AllSpace(w) && s == StripRight(s) + w
    ensures StripRight(s) == [] || !IsSpace(StripRight(s)[|StripRight(s)| - 1])
    decreases |s|
  {
    if s == [] || !IsSpace(s[|s| - 1]) {
      w := [];
      assert StripRight(s) == s;
    } else {
      var init := s[..|s| - 1];
      var rest := StripRight(init);
      assert StripRight(s) == rest;
      var w' := RightPadding(init);
      w := w' + [s[|s| - 1]];
      calc {
        s;
        init + [s[|s| - 1]];
        (rest + w') + [s[|s| - 1]];
        rest + w;
      }
      assert forall k :: 0 <= k < |w'| ==> w[k] == w'[k];
    }
  }

  /**
   * A strip removes whitespace padding on both sides and nothing else, and
   * what it leaves neither starts nor ends with whitespace (so an
   * all-whitespace text strips to the empty text).
   */
  lemma Padding(s: string) returns (w1: string, w2: string)
    ensures AllSpace(w1) && AllSpace(w2)
    ensures s == w1 + Strip(s) + w2
    ensures Strip(s) == [] || (!IsSpace(Strip(s)[0]) && !IsSpace(Strip(s)[|Strip(s)| - 1]))
  {
    w1 := LeftPadding(s);
    w2 := RightPadding(StripLeft(s));
    if Strip(s) != [] {
      assert StripLeft(s) == Strip(s) + w2;
      assert StripLeft(s)[0] == Strip(s)[0];
    }
  }

  /** Leading whitespace does not change the result of a left strip. */
  lemma {:induction false} StripLeftPadding(w: string, t: string)
    requires AllSpace(w)
    ensures StripLeft(w + t) == StripLeft(t)
    decreases |w|
  {
    if w != [] {
      assert (w + t)[1..] == w[1..] + t;
      StripLeftPadding(w[1..], t);
    } else {
      assert w + t == t;
    }
  }

  /** Trailing whitespace does not change the result of a right strip. */
  lemma {:induction false} StripRightPadding(t: string, w: string)
    requires AllSpace(w)
    ensures StripRight(t + w) == StripRight(t)
    decreases |w|
  {
    if w != [] {
      var w' := w[..|w| - 1];
      assert (t + w)[..|t + w| - 1] == t + w';
      StripRightPadding(t, w');
    } else {
      assert t + w == t;
    }
  }

  /** Stripping whitespace padding off a core that neither starts nor ends with whitespace gives the core. */
  lemma StripPadded(w1: string, core: string, w2: string)
    requires AllSpace(w1) && AllSpace(w2)
    requires core != [] && !IsSpace(core[0]) && !IsSpace(core[|core| - 1])
    ensures Strip(w1 + core + w2) == core
  {
    assert w1 + core + w2 == w1 + (core + w2);
    StripLeftPadding(w1, core + w2);
    assert (core + w2)[0] == core[0];
    StripRightPadding(core, w2);
  }
}
