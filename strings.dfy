/** Text operations of the Python standard library that the core relies on. */
module Strings {
  import opened Wrappers

  /** `s.startswith(prefix)`. */
  predicate StartsWith(s: string, prefix: string) {
    |prefix| <= |s| && s[..|prefix|] == prefix
  }

  /** `sub in s`: `sub` occurs somewhere in `s`. */
  predicate Contains(s: string, sub: string) {
    exists i | 0 <= i <= |s| :: OccursAt(s, sub, i)
  }

  predicate OccursAt(s: string, sub: string, i: int) {
    0 <= i <= |s| - |sub| && s[i..i + |sub|] == sub
  }

  /** Python truthiness of an optional string: present and non-empty. */
  predicate Truthy(o: Option<string>) {
    o.Some? && o.value != ""
  }

  /** Python truthiness of an optional list: present and non-empty. */
  predicate TruthyList<T>(o: Option<seq<T>>) {
    o.Some? && o.value != []
  }

  /** f-string rendering of an optional string: `None` prints as "None". */
  function Show(o: Option<string>): string {
    match o
    case Some(s) => s
    case None => "None"
  }

  /** ASCII case mapping of `str.lower` (header names and scopes are ASCII). */
  function LowerChar(c: char): char {
    if 'A' <= c <= 'Z' then (c as int + 32) as char else c
  }

  function Lower(s: string): (r: string)
    ensures |r| == |s|
    ensures forall i :: 0 <= i < |s| ==> r[i] == LowerChar(s[i])
  {
    seq(|s|, i requires 0 <= i < |s| => LowerChar(s[i]))
  }

  /** `sep.join(xs)`. */
  function Join(xs: seq<string>, sep: string): string {
    if xs == [] then ""
    else if |xs| == 1 then xs[0]
    else xs[0] + sep + Join(xs[1..], sep)
  }

  /** `os.path.basename(path)`: the text after the last '/'. */
  function Basename(path: string): string {
    if path == [] then []
    else if path[|path| - 1] == '/' then []
    else Basename(path[..|path| - 1]) + [path[|path| - 1]]
  }

  /**
   * The basename is the longest suffix without a '/': a suffix of the path,
   * slash-free, and preceded by a '/' whenever it is not the whole path.
   */
  lemma {:induction false} BasenameIsLastSegment(path: string)
    ensures '/' !in Basename(path)
    ensures |Basename(path)| <= |path| && path[|path| - |Basename(path)|..] == Basename(path)
    ensures |Basename(path)| < |path| ==> path[|path| - |Basename(path)| - 1] == '/'
  {
    if path != [] && path[|path| - 1] != '/' {
      var init := path[..|path| - 1];
      BasenameIsLastSegment(init);
      assert path[|path| - |Basename(path)|..] == init[|init| - |Basename(init)|..] + [path[|path| - 1]];
    }
  }

  /**
   * `s.replace(pat, "")`: every occurrence of `pat`, found left to right
   * without overlap, is removed.
   */
  function RemoveAll(s: string, pat: string): string
    requires pat != []
    decreases |s|
  {
    if s == [] then []
    else if StartsWith(s, pat) then RemoveAll(s[|pat|..], pat)
    else [s[0]] + RemoveAll(s[1..], pat)
  }

  /** `s.replace("\n", "<br>")`. */
  function NewlinesToBr(s: string): (r: string)
    ensures '\n' !in r
  {
    if s == [] then []
    else (if s[0] == '\n' then "<br>" else [s[0]]) + NewlinesToBr(s[1..])
  }

  /** The characters `str.split()` treats as separators (Python's `str.isspace`). */
  predicate IsSpace(c: char) {
    var n := c as int;
    (9 <= n <= 13) || (28 <= n <= 32) || n == 0x85 || n == 0xA0 || n == 0x1680
    || (0x2000 <= n <= 0x200A) || n == 0x2028 || n == 0x2029 || n == 0x202F
    || n == 0x205F || n == 0x3000
  }

  predicate IsWord(w: string) {
    w != [] && forall i :: 0 <= i < |w| ==> !IsSpace(w[i])
  }

  /** Length of the run of non-space characters at the start of `s`. */
  function WordLength(s: string): (n: nat)
    ensures n <= |s|
    ensures forall i :: 0 <= i < n ==> !IsSpace(s[i])
    ensures n < |s| ==> IsSpace(s[n])
  {
    if s == [] || IsSpace(s[0]) then 0 else 1 + WordLength(s[1..])
  }

  /** `s.split()`: the maximal runs of non-space characters, in order. */
  function Words(s: string): (r: seq<string>)
    ensures forall i :: 0 <= i < |r| ==> IsWord(r[i])
    decreases |s|
  {
    if s == [] then []
    else if IsSpace(s[0]) then Words(s[1..])
    else
      var n := WordLength(s);
      [s[..n]] + Words(s[n..])
  }

  // ----- properties of the helpers -----

  /** Removing occurrences changes nothing when there is none. */
  lemma {:induction false} RemoveAllAbsent(s: string, pat: string)
    requires pat != [] && !Contains(s, pat)
    ensures RemoveAll(s, pat) == s
    decreases |s|
  {
    if s != [] {
      assert !OccursAt(s, pat, 0);
      assert !StartsWith(s, pat) by {
        if |pat| <= |s| { assert s[..|pat|] == s[0..|pat|]; }
      }
      forall i | OccursAt(s[1..], pat, i) ensures OccursAt(s, pat, i + 1) {
        assert s[1..][i..i + |pat|] == s[i + 1..i + 1 + |pat|];
      }
      assert !Contains(s[1..], pat);
      RemoveAllAbsent(s[1..], pat);
    }
  }

  /** The newline-to-`<br>` rewrite distributes over concatenation. */
  lemma {:induction false} NewlinesToBrAppend(a: string, b: string)
    ensures NewlinesToBr(a + b) == NewlinesToBr(a) + NewlinesToBr(b)
  {
    if a != [] {
      assert (a + b)[0] == a[0];
      assert (a + b)[1..] == a[1..] + b;
      NewlinesToBrAppend(a[1..], b);
      var head := if a[0] == '\n' then "<br>" else [a[0]];
      calc {
        NewlinesToBr(a + b);
        head + NewlinesToBr(a[1..] + b);
        head + (NewlinesToBr(a[1..]) + NewlinesToBr(b));
        (head + NewlinesToBr(a[1..])) + NewlinesToBr(b);
        NewlinesToBr(a) + NewlinesToBr(b);
      }
    } else {
      assert a + b == b;
    }
  }

  /** Text without newlines is left unchanged. */
  lemma {:induction false} NewlinesToBrNoNewline(s: string)
    requires '\n' !in s
    ensures NewlinesToBr(s) == s
  {
    if s != [] {
      NewlinesToBrNoNewline(s[1..]);
    }
  }

  /** Splitting a space-joined list of words gives the words back. */
  lemma {:induction false} WordsOfJoin(ws: seq<string>)
    requires forall i :: 0 <= i < |ws| ==> IsWord(ws[i])
    ensures Words(Join(ws, " ")) == ws
  {
    if ws != [] {
      var w := ws[0];
      if |ws| == 1 {
        assert Join(ws, " ") == w + "";
        WordsOfWordThen(w, "");
      } else {
        var tail := Join(ws[1..], " ");
        assert Join(ws, " ") == w + (" " + tail);
        WordsOfWordThen(w, " " + tail);
        WordsAfterSpace(tail);
        WordsOfJoin(ws[1..]);
        assert ws == [w] + ws[1..];
      }
    }
  }

  /** A word followed by the end or by a space is split off whole. */
  lemma WordsOfWordThen(w: string, rest: string)
    requires IsWord(w)
    requires rest == [] || IsSpace(rest[0])
    ensures Words(w + rest) == [w] + Words(rest)
  {
    var s := w + rest;
    WordLengthOfWord(w, rest);
    assert s[0] == w[0];
    assert s[..|w|] == w;
    assert s[|w|..] == rest;
  }

  /** A leading space is skipped. */
  lemma WordsAfterSpace(s: string)
    ensures Words(" " + s) == Words(s)
  {
    assert (" " + s)[1..] == s;
    assert IsSpace((" " + s)[0]);
  }

  lemma {:induction false} WordLengthOfWord(w: string, rest: string)
    requires IsWord(w)
    requires rest == [] || IsSpace(rest[0])
    ensures WordLength(w + rest) == |w|
    decreases |w|
  {
    var s := w + rest;
    assert s[0] == w[0];
    if |w| == 1 {
      assert s[1..] == rest;
    } else {
      assert s[1..] == w[1..] + rest;
      WordLengthOfWord(w[1..], rest);
    }
  }
}
