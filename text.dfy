/**
  The string operations of Rust's `str` that the documentation scanner relies on:
  `char::is_whitespace`, `trim_start`, `trim`, `starts_with`, `split_whitespace`,
  `find` and `lines`, plus `Render`, which appends `"\n"` after every line the way
  the scanner's `push_str(line); push('\n')` pairs do.
*/
module Text {
  import opened Wrappers

  /** Rust's `char::is_whitespace`: the Unicode `White_Space` property. */
  predicate IsWhitespace(c: char): (b: bool)
    ensures c == ' ' || c == '\t' || c == '\n' || c == '\r' ==> b
    ensures b ==> c != '}' && c != ':' && c != '/' && c != '.' && !('a' <= c <= 'z')
  {
    var n := c as int;
    (9 <= n <= 13) || n == 0x20 || n == 0x85 || n == 0xA0 || n == 0x1680
    || (0x2000 <= n <= 0x200A) || n == 0x2028 || n == 0x2029 || n == 0x202F
    || n == 0x205F || n == 0x3000
  }

  predicate AllWhitespace(s: string) {
    forall i :: 0 <= i < |s| ==> IsWhitespace(s[i])
  }

  predicate NoWhitespace(s: string) {
    forall i :: 0 <= i < |s| ==> !IsWhitespace(s[i])
  }

  predicate StartsWith(s: string, prefix: string): (b: bool)
    ensures b <==> |prefix| <= |s| && s == prefix + s[|prefix|..]
  {
    |prefix| <= |s| && s[..|prefix|] == prefix
  }

  /** Length of the leading run of whitespace characters of `s`. */
  function BlankLength(s: string): (n: nat)
    ensures n <= |s| && AllWhitespace(s[..n])
    ensures n == |s| || !IsWhitespace(s[n])
    decreases |s|
  {
    if s == [] || !IsWhitespace(s[0]) then 0
    else
      var m := BlankLength(s[1..]);
      assert s[..m + 1] == [s[0]] + s[1..][..m];
      1 + m
  }

  /** Length of `s` without its trailing run of whitespace characters. */
  function ContentLength(s: string): (n: nat)
    ensures n <= |s| && AllWhitespace(s[n..])
    ensures n == 0 || !IsWhitespace(s[n - 1])
    decreases |s|
  {
    if s == [] || !IsWhitespace(s[|s| - 1]) then |s|
    else
      var m := ContentLength(s[..|s| - 1]);
      assert s[m..] == s[..|s| - 1][m..] + [s[|s| - 1]];
      m
  }

  /** `str::trim_start`: the longest whitespace prefix is removed. */
  function TrimStart(s: string): (r: string)
    ensures |r| <= |s| && r == s[|s| - |r|..]
    ensures AllWhitespace(s[..|s| - |r|])
    ensures r == [] || !IsWhitespace(r[0])
  {
    s[BlankLength(s)..]
  }

  /** `str::trim`: the slice of `s` left after removing whitespace at both ends. */
  function Trim(s: string): (r: string)
    ensures var k := BlankLength(s);
      k + |r| <= |s| && r == s[k..k + |r|] && AllWhitespace(s[k + |r|..])
    ensures r == [] || (!IsWhitespace(r[0]) && !IsWhitespace(r[|r| - 1]))
  {
    var k := BlankLength(s);
    var n := ContentLength(s[k..]);
    assert s[k..][..n] == s[k..k + n];
    assert s[k..][n..] == s[k + n..];
    s[k..k + n]
  }

  /** Whitespace before a text that neither starts nor ends with whitespace is all that `trim` removes. */
  lemma TrimAfterBlank(pre: string, x: string)
    requires AllWhitespace(pre) && x != [] && !IsWhitespace(x[0]) && !IsWhitespace(x[|x| - 1])
    ensures Trim(pre + x) == x
  {
    TrimStartAfterBlank(pre, x);
    var s := pre + x;
    assert BlankLength(s) == |pre| by {
      assert s[BlankLength(s)..] == x;
    }
    assert s[|pre|..] == x;
    assert ContentLength(x) == |x|;
    assert s[|pre|..|pre| + |x|] == x;
  }

  /** Length of the leading run of non-whitespace characters of `s`. */
  function WordLength(s: string): (n: nat)
    ensures n <= |s| && NoWhitespace(s[..n])
    ensures n == |s| || IsWhitespace(s[n])
    decreases |s|
  {
    if s == [] || IsWhitespace(s[0]) then 0
    else
      var m := WordLength(s[1..]);
      assert s[..m + 1] == [s[0]] + s[1..][..m];
      1 + m
  }

  /** `str::split_whitespace`: the maximal non-empty runs of non-whitespace, in order. */
  function SplitWhitespace(s: string): (r: seq<string>)
    ensures forall k :: 0 <= k < |r| ==> r[k] != [] && NoWhitespace(r[k])
    decreases |s|
  {
    var t := TrimStart(s);
    if t == [] then []
    else
      var n := WordLength(t);
      [t[..n]] + SplitWhitespace(t[n..])
  }

  /** Leading whitespace before a non-whitespace character is what `trim_start` drops. */
  lemma {:induction false} TrimStartAfterBlank(pre: string, x: string)
    requires AllWhitespace(pre) && (x == [] || !IsWhitespace(x[0]))
    ensures TrimStart(pre + x) == x
    decreases |pre|
  {
    if pre == [] {
      assert pre + x == x;
    } else {
      assert (pre + x)[0] == pre[0];
      assert (pre + x)[1..] == pre[1..] + x;
      TrimStartAfterBlank(pre[1..], x);
    }
  }

  lemma {:induction false} WordLengthOfWord(w: string, rest: string)
    requires NoWhitespace(w) && (rest == [] || IsWhitespace(rest[0]))
    ensures WordLength(w + rest) == |w|
    decreases |w|
  {
    if w == [] {
      assert w + rest == rest;
    } else {
      assert (w + rest)[0] == w[0];
      assert (w + rest)[1..] == w[1..] + rest;
      WordLengthOfWord(w[1..], rest);
    }
  }

  /** A text made only of whitespace has no tokens. */
  lemma SplitWhitespaceOfBlank(s: string)
    requires AllWhitespace(s)
    ensures SplitWhitespace(s) == []
  {
    TrimStartAfterBlank(s, []);
    assert s + [] == s;
  }

  /** A word after leading whitespace and before whitespace (or the end) is the first token. */
  lemma SplitWhitespaceCons(pre: string, w: string, rest: string)
    requires AllWhitespace(pre) && w != [] && NoWhitespace(w)
    requires rest == [] || IsWhitespace(rest[0])
    ensures SplitWhitespace(pre + w + rest) == [w] + SplitWhitespace(rest)
  {
    assert pre + w + rest == pre + (w + rest);
    assert (w + rest)[0] == w[0];
    TrimStartAfterBlank(pre, w + rest);
    WordLengthOfWord(w, rest);
    assert (w + rest)[..|w|] == w;
    assert (w + rest)[|w|..] == rest;
  }

  /** `str::find` for a single character: the index of its first occurrence. */
  function Find(s: string, c: char): (r: Option<nat>)
    ensures r.None? <==> c !in s
    ensures r.Some? ==> r.value < |s| && s[r.value] == c && c !in s[..r.value]
    decreases |s|
  {
    if s == [] then None
    else if s[0] == c then Some(0)
    else match Find(s[1..], c)
      case None => None
      case Some(i) =>
        assert s[..i + 1] == [s[0]] + s[1..][..i];
        Some(i + 1)
  }

  /** A line terminated by `"\r\n"` loses its `'\r'` as well as its `'\n'`. */
  function StripCarriageReturn(line: string): string {
    if line != [] && line[|line| - 1] == '\r' then line[..|line| - 1] else line
  }

  /**
    `str::lines`: the text is cut after every `'\n'`; a line that ended in `'\n'`
    loses it and then one `'\r'` before it; a final line without `'\n'` is kept as is,
    and an empty remainder after the last `'\n'` yields no line.
  */
  function Lines(s: string): (r: seq<string>)
    ensures forall k :: 0 <= k < |r| ==> '\n' !in r[k]
    decreases |s|
  {
    match Find(s, '\n')
    case None => if s == [] then [] else [s]
    case Some(n) => [StripCarriageReturn(s[..n])] + Lines(s[n + 1..])
  }

  /** Every line followed by `"\n"`, concatenated. */
  function Render(lines: seq<string>): (r: string)
    ensures r == [] <==> lines == []
    ensures r != [] ==> r[|r| - 1] == '\n'
  {
    if lines == [] then "" else lines[0] + "\n" + Render(lines[1..])
  }

  lemma {:induction false} RenderAppend(a: seq<string>, b: seq<string>)
    ensures Render(a + b) == Render(a) + Render(b)
    decreases |a|
  {
    if a == [] {
      assert a + b == b;
    } else {
      assert (a + b)[0] == a[0];
      assert (a + b)[1..] == a[1..] + b;
      RenderAppend(a[1..], b);
    }
  }

  predicate EndsWithCarriageReturn(line: string) {
    line != [] && line[|line| - 1] == '\r'
  }

  /** Splitting rendered lines gives them back, when none holds a line terminator. */
  lemma {:induction false} LinesOfRender(ls: seq<string>)
    requires forall k :: 0 <= k < |ls| ==> '\n' !in ls[k] && !EndsWithCarriageReturn(ls[k])
    ensures Lines(Render(ls)) == ls
    decreases |ls|
  {
    if ls != [] {
      assert ls == [ls[0]] + ls[1..];
      RenderCons(ls[0], ls[1..]);
      LinesOfLine(ls[0], Render(ls[1..]));
      LinesOfRender(ls[1..]);
    }
  }

  lemma RenderCons(l: string, ls: seq<string>)
    ensures Render([l] + ls) == l + "\n" + Render(ls)
  {
    assert ([l] + ls)[1..] == ls;
  }

  /** A line without terminator, then `"\n"`, is the first line of the text. */
  lemma LinesOfLine(l: string, tail: string)
    requires '\n' !in l && !EndsWithCarriageReturn(l)
    ensures Lines(l + "\n" + tail) == [l] + Lines(tail)
  {
    var s := l + "\n" + tail;
    assert s == l + ("\n" + tail);
    FindAfterPrefix(l, "\n" + tail, '\n');
    assert s[..|l|] == l;
    assert s[|l| + 1..] == tail;
  }

  lemma {:induction false} FindAfterPrefix(p: string, rest: string, c: char)
    requires c !in p && rest != [] && rest[0] == c
    ensures Find(p + rest, c) == Some(|p|)
    decreases |p|
  {
    if p != [] {
      assert (p + rest)[1..] == p[1..] + rest;
      FindAfterPrefix(p[1..], rest, c);
    }
  }

  /** No line of `s` ends in `"\r\n"`. */
  predicate NoCrLf(s: string) {
    forall i :: 0 < i < |s| && s[i] == '\n' ==> s[i - 1] != '\r'
  }

  lemma LinesStep(s: string, n: nat)
    requires Find(s, '\n') == Some(n)
    ensures Render(Lines(s)) == StripCarriageReturn(s[..n]) + "\n" + Render(Lines(s[n + 1..]))
  {
    var head, ls := StripCarriageReturn(s[..n]), Lines(s[n + 1..]);
    assert Lines(s) == [head] + ls;
    RenderCons(head, ls);
  }

  /** A final `"\n"` is added exactly when the text is non-empty and lacks one. */
  function Terminated(s: string): string {
    if s == [] || s[|s| - 1] == '\n' then s else s + "\n"
  }

  lemma TerminatedCons(head: string, rest: string)
    ensures Terminated(head + "\n" + rest) == head + "\n" + Terminated(rest)
  {
    var s := head + "\n" + rest;
    if rest != [] {
      assert s[|s| - 1] == rest[|rest| - 1];
    }
  }

  lemma NoCrLfHead(s: string, n: nat)
    requires NoCrLf(s) && n < |s| && s[n] == '\n'
    ensures StripCarriageReturn(s[..n]) == s[..n]
  {
    if n > 0 {
      assert s[..n][n - 1] == s[n - 1];
    }
  }

  lemma NoCrLfTail(s: string, n: nat)
    requires NoCrLf(s) && n < |s|
    ensures NoCrLf(s[n + 1..])
  {
    var rest := s[n + 1..];
    forall i | 0 < i < |rest| && rest[i] == '\n' ensures rest[i - 1] != '\r' {
      assert rest[i] == s[n + 1 + i] && rest[i - 1] == s[n + i];
    }
  }

  lemma SplitAtNewline(s: string, n: nat)
    requires n < |s| && s[n] == '\n'
    ensures s == s[..n] + "\n" + s[n + 1..]
  {
    assert s[..n] + "\n" == s[..n + 1];
  }

  lemma RenderOfLastLine(s: string)
    requires '\n' !in s
    ensures Render(Lines(s)) == Terminated(s)
  {
    if s != [] {
      assert Lines(s) == [s];
      assert s[|s| - 1] in s;
      assert Render([s]) == s + "\n" + Render([]);
    }
  }

  /**
    Rendering the lines of a text gives back the text, plus a final `"\n"` when it had
    none, as long as no line ends in `"\r\n"`.
  */
  lemma {:induction false} RenderOfLines(s: string)
    requires NoCrLf(s)
    ensures Render(Lines(s)) == Terminated(s)
    decreases |s|
  {
    match Find(s, '\n')
    case None =>
      RenderOfLastLine(s);
    case Some(n) =>
      var head, rest := s[..n], s[n + 1..];
      NoCrLfHead(s, n);
      NoCrLfTail(s, n);
      RenderOfLines(rest);
      LinesStep(s, n);
      SplitAtNewline(s, n);
      TerminatedCons(head, rest);
  }
}
