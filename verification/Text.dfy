/** Strings as the server's persistence code handles them: white space, '/'-separated
    names, and the token stream that C++'s operator>> delivers. */
module Text {

  predicate IsSpace(c: char) {
    c == ' ' || c == '\t' || c == '\n' || c == '\r' || c == '\U{000B}' || c == '\U{000C}'
  }

  /** std::string::find, with |s| standing for npos. */
  function IndexOf(s: string, c: char): (i: nat)
    ensures i <= |s| && c !in s[..i]
    ensures i < |s| ==> s[i] == c
  {
    if s == "" || s[0] == c then 0
    else
      var i := 1 + IndexOf(s[1..], c);
      assert s[..i] == [s[0]] + s[1..][..i - 1];
      i
  }

  lemma {:induction false} IndexOfConcat(a: string, c: char, b: string)
    requires c !in a
    ensures IndexOf(a + [c] + b, c) == |a|
  {
    if a == "" {
      assert a + [c] + b == [c] + b;
    } else {
      assert (a + [c] + b)[1..] == a[1..] + [c] + b;
      IndexOfConcat(a[1..], c, b);
    }
  }

  /** The path that a name denotes: addnode and delnode peel one component per call. */
  function Split(name: string): (p: seq<string>)
    ensures |p| > 0
    decreases |name|
  {
    var i := IndexOf(name, '/');
    if i == |name| then [name] else [name[..i]] + Split(name[i + 1..])
  }

  /** The name that output() builds for a path. */
  function Join(p: seq<string>): string
    requires |p| > 0
  {
    if |p| == 1 then p[0] else p[0] + "/" + Join(p[1..])
  }

  predicate NoSlash(p: seq<string>) {
    forall i :: 0 <= i < |p| ==> '/' !in p[i]
  }

  lemma {:induction false} SplitJoin(p: seq<string>)
    requires |p| > 0 && NoSlash(p)
    ensures Split(Join(p)) == p
  {
    if |p| == 1 {
      assert IndexOf(p[0], '/') == |p[0]|;
    } else {
      var rest := Join(p[1..]);
      var s := Join(p);
      assert s == p[0] + ['/'] + rest;
      IndexOfConcat(p[0], '/', rest);
      assert s[..|p[0]|] == p[0] && s[|p[0]| + 1..] == rest;
      SplitJoin(p[1..]);
    }
  }

  lemma {:induction false} JoinSnoc(p: seq<string>, k: string)
    requires |p| > 0
    ensures Join(p + [k]) == Join(p) + "/" + k
  {
    if |p| == 1 {
      assert (p + [k])[1..] == [k];
    } else {
      assert (p + [k])[1..] == p[1..] + [k];
      JoinSnoc(p[1..], k);
    }
  }

  // ---------- words ----------

  predicate NoSpace(s: string) {
    forall i :: 0 <= i < |s| ==> !IsSpace(s[i])
  }

  predicate IsWord(s: string) {
    s != "" && NoSpace(s)
  }

  function SkipSpace(s: string): (r: string)
    ensures |r| <= |s|
    ensures r != "" ==> !IsSpace(r[0])
  {
    if s != "" && IsSpace(s[0]) then SkipSpace(s[1..]) else s
  }

  function WordEnd(s: string): (n: nat)
    ensures n <= |s| && NoSpace(s[..n])
    ensures n < |s| ==> IsSpace(s[n])
  {
    if s == "" || IsSpace(s[0]) then 0
    else
      var n := 1 + WordEnd(s[1..]);
      assert s[..n] == [s[0]] + s[1..][..n - 1];
      n
  }

  /** The character count given to istream::ignore. */
  const INT_MAX: nat := 0x7fff_ffff

  /** istream::ignore(n, '\n'): at most n characters, through the first newline. */
  function DropLine(s: string, n: nat): (r: string)
    ensures |r| <= |s|
  {
    if n == 0 || s == "" then s
    else if s[0] == '\n' then s[1..]
    else DropLine(s[1..], n - 1)
  }

  /** All words of a text, where a word that starts with '#' hides the rest of its line. */
  function Lex(s: string): (ws: seq<string>)
    ensures forall i :: 0 <= i < |ws| ==> IsWord(ws[i])
    decreases |s|
  {
    var r := SkipSpace(s);
    if r == "" then []
    else
      var n := WordEnd(r);
      [r[..n]] + Lex(if r[0] == '#' then DropLine(r[n..], INT_MAX) else r[n..])
  }

  // ---------- how Lex meets concatenation ----------

  lemma {:induction false} SkipSpaceConcat(a: string, b: string)
    ensures SkipSpace(a) != "" ==> SkipSpace(a + b) == SkipSpace(a) + b
    ensures SkipSpace(a) == "" ==> SkipSpace(a + b) == SkipSpace(b)
  {
    if a == "" {
      assert a + b == b;
    } else if IsSpace(a[0]) {
      assert (a + b)[1..] == a[1..] + b;
      SkipSpaceConcat(a[1..], b);
    }
  }

  lemma {:induction false} WordEndConcat(a: string, b: string)
    requires b != "" && IsSpace(b[0]) && NoSpace(a)
    ensures WordEnd(a + b) == |a|
  {
    if a == "" {
      assert a + b == b;
    } else {
      assert (a + b)[1..] == a[1..] + b;
      WordEndConcat(a[1..], b);
    }
  }

  /** One word that is no comment, between white space. */
  lemma LexWord(pre: string, w: string, b: string)
    requires forall i :: 0 <= i < |pre| ==> IsSpace(pre[i])
    requires IsWord(w) && w[0] != '#'
    requires b != "" && IsSpace(b[0])
    ensures Lex(pre + w + b) == [w] + Lex(b)
  {
    SkipBlank(pre, w + b);
    assert pre + w + b == pre + (w + b);
    var r := w + b;
    assert r[0] == w[0];
    assert SkipSpace(r) == r;
    WordEndConcat(w, b);
    assert r[..|w|] == w && r[|w|..] == b;
  }

  lemma {:induction false} SkipBlank(pre: string, b: string)
    requires forall i :: 0 <= i < |pre| ==> IsSpace(pre[i])
    ensures SkipSpace(pre + b) == SkipSpace(b)
  {
    if pre == "" {
      assert pre + b == b;
    } else {
      assert (pre + b)[1..] == pre[1..] + b;
      SkipBlank(pre[1..], b);
    }
  }

  /** Leading white space is invisible to Lex. */
  lemma LexBlank(pre: string, b: string)
    requires forall i :: 0 <= i < |pre| ==> IsSpace(pre[i])
    ensures Lex(pre + b) == Lex(b)
  {
    SkipBlank(pre, b);
  }
}
