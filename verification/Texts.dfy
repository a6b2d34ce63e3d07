/**
 The text operations the chunking loop of src/core/llm_compress.py is written in: Python's split,
 strip and join, and what they keep of a text's words.
 */
module Texts {

  // ---------- Python's str.split, str.strip and str.join ----------

  /** The characters `str.isspace` accepts. */
  predicate IsSpace(c: char) {
    var n := c as int;
    || 9 <= n <= 13
    || 28 <= n <= 32
    || n == 133 || n == 160 || n == 5760
    || 8192 <= n <= 8202
    || n == 8232 || n == 8233 || n == 8239 || n == 8287 || n == 12288
  }

  /** Length of the run of non-space characters at the start. */
  function WordLength(s: string): (n: nat)
    ensures n <= |s|
    ensures forall k :: 0 <= k < n ==> !IsSpace(s[k])
    ensures n < |s| ==> IsSpace(s[n])
  {
    if s == [] || IsSpace(s[0]) then 0 else 1 + WordLength(s[1..])
  }

  /** `s.split()`. */
  function Words(s: string): seq<string>
    decreases |s|
  {
    if s == [] then []
    else if IsSpace(s[0]) then Words(s[1..])
    else [s[..WordLength(s)]] + Words(s[WordLength(s)..])
  }

  function StripLeft(s: string): string {
    if s == [] || !IsSpace(s[0]) then s else StripLeft(s[1..])
  }

  function StripRight(s: string): string {
    if s == [] || !IsSpace(s[|s| - 1]) then s else StripRight(s[..|s| - 1])
  }

  /** `s.strip()`. */
  function Strip(s: string): string {
    StripRight(StripLeft(s))
  }

  function LineLength(s: string): (n: nat)
    ensures n <= |s|
    ensures n < |s| ==> s[n] == '\n'
  {
    if s == [] || s[0] == '\n' then 0 else 1 + LineLength(s[1..])
  }

  /** `s.split('\n')`. */
  function Lines(s: string): seq<string>
    decreases |s|
  {
    var n := LineLength(s);
    if n == |s| then [s] else [s[..n]] + Lines(s[n + 1..])
  }

  /** `sep.join(parts)` for a one-character separator. */
  function Join(sep: char, parts: seq<string>): string {
    if parts == [] then []
    else if |parts| == 1 then parts[0]
    else parts[0] + [sep] + Join(sep, parts[1..])
  }

  predicate IsWord(w: string) {
    w != [] && forall c <- w :: !IsSpace(c)
  }

  // ---------- Words are conserved by the text operations ----------

  lemma {:induction false} WordsSplitAtSpace(a: string, c: char, b: string)
    requires IsSpace(c)
    ensures Words(a + [c] + b) == Words(a) + Words(b)
    decreases |a|
  {
    var s := a + [c] + b;
    if a == [] {
      assert s[1..] == b;
    } else if IsSpace(a[0]) {
      assert s[1..] == a[1..] + [c] + b;
      WordsSplitAtSpace(a[1..], c, b);
    } else {
      WordStopsAtSpace(a, c, b);
      var n := WordLength(a);
      assert s[..n] == a[..n] && s[n..] == a[n..] + [c] + b;
      WordsSplitAtSpace(a[n..], c, b);
      Regroup([a[..n]], Words(a[n..]), Words(b));
    }
  }

  lemma Regroup(a: seq<string>, b: seq<string>, c: seq<string>)
    ensures a + (b + c) == (a + b) + c
  {}

  lemma {:induction false} WordStopsAtSpace(a: string, c: char, b: string)
    requires IsSpace(c)
    ensures WordLength(a + [c] + b) == WordLength(a)
    decreases |a|
  {
    if a != [] && !IsSpace(a[0]) {
      assert (a + [c] + b)[1..] == a[1..] + [c] + b;
      WordStopsAtSpace(a[1..], c, b);
    }
  }

  lemma {:induction false} StripLeftKeepsWords(s: string)
    ensures Words(StripLeft(s)) == Words(s)
    ensures StripLeft(s) != [] ==> !IsSpace(StripLeft(s)[0])
    decreases |s|
  {
    if s != [] && IsSpace(s[0]) { StripLeftKeepsWords(s[1..]); }
  }

  lemma {:induction false} StripRightKeepsWords(s: string)
    ensures Words(StripRight(s)) == Words(s)
    ensures s != [] && !IsSpace(s[0]) ==> StripRight(s) != [] && StripRight(s)[0] == s[0]
    decreases |s|
  {
    if s != [] && IsSpace(s[|s| - 1]) {
      var front := s[..|s| - 1];
      assert s == front + [s[|s| - 1]] + [];
      WordsSplitAtSpace(front, s[|s| - 1], []);
      StripRightKeepsWords(front);
    }
  }

  /** Stripping keeps the words, and leaves nothing exactly when there are none. */
  lemma StripKeepsWords(s: string)
    ensures Words(Strip(s)) == Words(s)
    ensures Strip(s) == [] <==> Words(s) == []
  {
    StripLeftKeepsWords(s);
    StripRightKeepsWords(StripLeft(s));
    if Strip(s) != [] {
      assert !IsSpace(Strip(s)[0]);
    }
  }

  lemma {:induction false} WordsAreWords(s: string)
    ensures forall w <- Words(s) :: IsWord(w)
    decreases |s|
  {
    if s != [] {
      if IsSpace(s[0]) {
        WordsAreWords(s[1..]);
      } else {
        WordsAreWords(s[WordLength(s)..]);
        assert IsWord(s[..WordLength(s)]);
      }
    }
  }

  lemma WordOfWord(w: string)
    requires IsWord(w)
    ensures Words(w) == [w]
  {
    var n := WordLength(w);
    assert forall k :: 0 <= k < |w| ==> w[k] in w;
    assert n == |w|;
    assert w[..n] == w && w[n..] == [];
  }

  /** `" ".join(words).split()` gives the words back. */
  lemma {:induction false} JoinedWords(ws: seq<string>)
    requires forall w <- ws :: IsWord(w)
    ensures Words(Join(' ', ws)) == ws
    decreases |ws|
  {
    if ws != [] {
      WordOfWord(ws[0]);
      if |ws| > 1 {
        assert ws == [ws[0]] + ws[1..];
        JoinedWords(ws[1..]);
        WordsSplitAtSpace(ws[0], ' ', Join(' ', ws[1..]));
      }
    }
  }

  /** The words of several texts, in order. */
  function AllWords(parts: seq<string>): seq<string> {
    if parts == [] then [] else AllWords(parts[..|parts| - 1]) + Words(parts[|parts| - 1])
  }

  lemma AllWordsAppend(parts: seq<string>, p: string)
    ensures AllWords(parts + [p]) == AllWords(parts) + Words(p)
  {
    assert (parts + [p])[..|parts|] == parts;
  }

  lemma {:induction false} AllWordsConcat(a: seq<string>, b: seq<string>)
    ensures AllWords(a + b) == AllWords(a) + AllWords(b)
    decreases |b|
  {
    if b == [] {
      assert a + b == a;
    } else {
      var n := |b| - 1;
      assert a + b == (a + b[..n]) + [b[n]];
      AllWordsAppend(a + b[..n], b[n]);
      AllWordsConcat(a, b[..n]);
    }
  }

  lemma AllWordsCons(p: string, parts: seq<string>)
    ensures AllWords([p] + parts) == Words(p) + AllWords(parts)
  {
    AllWordsConcat([p], parts);
    assert [p][..0] == [];
    assert AllWords([p]) == Words(p);
  }

  /** Joining with a space or newline keeps the words of the parts, in order. */
  lemma {:induction false} JoinKeepsWords(sep: char, parts: seq<string>)
    requires IsSpace(sep)
    ensures Words(Join(sep, parts)) == AllWords(parts)
    decreases |parts|
  {
    if |parts| == 1 {
      assert parts == [parts[0]] + [];
      AllWordsCons(parts[0], []);
    } else if |parts| > 1 {
      assert parts == [parts[0]] + parts[1..];
      JoinKeepsWords(sep, parts[1..]);
      WordsSplitAtSpace(parts[0], sep, Join(sep, parts[1..]));
      AllWordsCons(parts[0], parts[1..]);
    }
  }

  lemma {:induction false} LinesKeepWords(s: string)
    ensures AllWords(Lines(s)) == Words(s)
    decreases |s|
  {
    var n := LineLength(s);
    if n == |s| {
      AllWordsCons(s, []);
      assert [s] + [] == [s];
    } else {
      var rest := s[n + 1..];
      assert s == s[..n] + [s[n]] + rest;
      WordsSplitAtSpace(s[..n], s[n], rest);
      LinesKeepWords(rest);
      AllWordsCons(s[..n], Lines(rest));
    }
  }

  /** The lines are the text cut at its newlines: joined by newlines they give it back, and none holds one. */
  lemma {:induction false} LinesJoinBack(s: string)
    ensures Lines(s) != [] && Join('\n', Lines(s)) == s
    ensures forall line <- Lines(s) :: '\n' !in line
    decreases |s|
  {
    var n := LineLength(s);
    NoNewlineBefore(s);
    if n < |s| {
      LinesJoinBack(s[n + 1..]);
      assert Lines(s)[1..] == Lines(s[n + 1..]);
      assert s == s[..n] + [s[n]] + s[n + 1..];
    } else {
      assert s[..n] == s;
    }
  }

  lemma {:induction false} NoNewlineBefore(s: string)
    ensures '\n' !in s[..LineLength(s)]
    decreases |s|
  {
    if s != [] && s[0] != '\n' {
      NoNewlineBefore(s[1..]);
      assert s[..LineLength(s)] == [s[0]] + s[1..][..LineLength(s[1..])];
    }
  }

  predicate AllSpace(s: string) {
    forall c <- s :: IsSpace(c)
  }

  lemma StripEnds(s: string)
    ensures Strip(s) != [] ==> !IsSpace(Strip(s)[0])
  {
    StripLeftKeepsWords(s);
    StripRightKeepsWords(StripLeft(s));
  }

  /** Stripping takes white space off the two ends, all of it and nothing else. */
  lemma StripTrims(s: string) returns (from: nat, to: nat)
    ensures from <= to <= |s| && Strip(s) == s[from..to] && AllSpace(s[..from]) && AllSpace(s[to..])
    ensures from < to ==> !IsSpace(s[from]) && !IsSpace(s[to - 1])
  {
    from := LeftTrims(s);
    var rest := s[from..];
    var n := RightTrims(rest);
    to := from + n;
    assert rest[..n] == s[from..to] && rest[n..] == s[to..];
    StripEnds(s);
  }

  lemma {:induction false} LeftTrims(s: string) returns (n: nat)
    ensures n <= |s| && StripLeft(s) == s[n..]
    ensures AllSpace(s[..n])
    decreases |s|
  {
    n := 0;
    if s != [] && IsSpace(s[0]) {
      var rest := s[1..];
      var m := LeftTrims(rest);
      n := m + 1;
      assert s[n..] == rest[m..] && s[..n] == [s[0]] + rest[..m];
    }
  }

  lemma {:induction false} RightTrims(s: string) returns (n: nat)
    ensures n <= |s| && StripRight(s) == s[..n]
    ensures AllSpace(s[n..]) && (n > 0 ==> !IsSpace(s[n - 1]))
    decreases |s|
  {
    n := |s|;
    if s != [] && IsSpace(s[|s| - 1]) {
      var rest := s[..|s| - 1];
      n := RightTrims(rest);
      assert s[..n] == rest[..n] && s[n..] == rest[n..] + [s[|s| - 1]];
    }
  }
}
