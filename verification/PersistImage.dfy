/** What can come out of reading a file, whatever the file held. */
module PersistImage {
  import opened Text
  import opened PersistTree
  import opened PersistFormat
  import opened PersistPrint
  import opened Wrappers

  predicate CleanPath(p: Path) {
    forall i :: 0 <= i < |p| ==> NoSpace(p[i]) && '/' !in p[i]
  }

  predicate SafeAttrs(a: Attrs) {
    forall k :: k in a ==> SafeAttr((k, a[k]))
  }

  /** The start of a record's name. */
  predicate StartsRecord(k: string) {
    NoSpace(k) && '/' !in k && (k != "" ==> k[0] != '-' && k[0] != '#')
  }

  /** All but the two odd names is as in a printable tree. */
  ghost predicate Readable(t: Tree) {
    t.attr == map[] && forall k :: k in t.child ==> StartsRecord(k) && Clean(t.child[k])
  }

  // ---------- below the first level ----------

  lemma ChildClean(t: Tree, k: string, c: Tree)
    requires Clean(t) && NoSpace(k) && '/' !in k && Clean(c)
    ensures Clean(t.(child := t.child[k := c]))
  {
  }

  lemma {:induction false} PutClean(t: Tree, p: Path, s: Tree)
    requires Clean(t) && CleanPath(p) && Clean(s)
    ensures Clean(Put(t, p, s))
    decreases |p|
  {
    if p != [] {
      var sub := if p[0] in t.child then t.child[p[0]] else EMPTY;
      assert Clean(sub);
      hide Clean;
      assert NoSpace(p[0]) && CleanPath(p[1..]);
      PutClean(sub, p[1..], s);
      ChildClean(t, p[0], Put(sub, p[1..], s));
    }
  }

  lemma {:induction false} DelClean(t: Tree, p: Path)
    requires Clean(t) && |p| > 0
    ensures Clean(Del(t, p))
    decreases |p|
  {
    if p[0] in t.child && |p| > 1 {
      DelClean(t.child[p[0]], p[1..]);
    }
  }

  lemma {:induction false} SetAttrsClean(t: Tree, p: Path, a: Attrs)
    requires Clean(t) && SafeAttrs(a)
    ensures Clean(SetAttrs(t, p, a))
    decreases |p|
  {
    if p != [] && p[0] in t.child {
      SetAttrsClean(t.child[p[0]], p[1..], a);
    }
  }

  lemma {:induction false} LookupClean(t: Tree, p: Path)
    requires Clean(t)
    ensures Lookup(t, p).Some? ==> SafeAttrs(Lookup(t, p).value)
    decreases |p|
  {
    if p != [] && p[0] in t.child {
      LookupClean(t.child[p[0]], p[1..]);
    }
  }

  lemma WithAttrSafe(a: Attrs, w: string)
    requires SafeAttrs(a) && IsWord(w) && w[0] != '#'
    ensures SafeAttrs(WithAttr(a, w))
  {
    var i := IndexOf(w, '=');
    var key, value := w[..i], if i == |w| then "" else w[i + 1..];
    assert NoSpace(key) && NoSpace(value) && (key != "" ==> key[0] == w[0]);
  }

  lemma {:induction false} SplitClean(w: string)
    requires NoSpace(w)
    ensures CleanPath(Split(w)) && (Split(w)[0] != "" ==> w != "" && Split(w)[0][0] == w[0])
    decreases |w|
  {
    var i := IndexOf(w, '/');
    assert NoSpace(w[..i]) && (w[..i] != "" ==> w[..i][0] == w[0]);
    if i < |w| {
      assert NoSpace(w[i + 1..]);
      SplitClean(w[i + 1..]);
    }
  }

  // ---------- each word ----------

  lemma AddReadable(t: Tree, w: string)
    requires Readable(t) && IsWord(w) && w[0] != '-' && w[0] != '#'
    ensures Readable(Add(t, Split(w)))
  {
    var p := Split(w);
    SplitClean(w);
    var sub := if p[0] in t.child then t.child[p[0]] else EMPTY;
    assert NoSpace(p[0]) && CleanPath(p[1..]);
    PutClean(sub, p[1..], EMPTY);
  }

  lemma DelReadable(t: Tree, p: Name)
    requires Readable(t)
    ensures Readable(Del(t, p))
  {
    if p[0] in t.child && |p| > 1 {
      DelClean(t.child[p[0]], p[1..]);
    }
  }

  lemma AddAttrReadable(t: Tree, p: Name, w: string)
    requires Readable(t) && IsWord(w) && w[0] != '#'
    ensures Readable(AddAttr(t, p, w))
  {
    if p[0] in t.child && Lookup(t, p).Some? {
      var c := t.child[p[0]];
      LookupClean(c, p[1..]);
      WithAttrSafe(Lookup(t, p).value, w);
      SetAttrsClean(c, p[1..], WithAttr(Lookup(t, p).value, w));
    }
  }

  lemma ApplyWordReadable(t: Tree, cur: Cursor, w: string)
    requires Readable(t) && IsWord(w) && w[0] != '#'
    ensures Readable(ApplyWord(t, cur, w).0)
  {
    if cur.Some? {
      AddAttrReadable(t, cur.value, w);
    } else if w[0] == '-' {
      DelReadable(t, Split(w[1..]));
    } else {
      AddReadable(t, w);
    }
  }

  lemma {:induction false} ReadWordsReadable(t: Tree, cur: Cursor, words: seq<string>, last: string)
    requires Readable(t) && (last != "" ==> IsWord(last))
    requires forall i :: 0 <= i < |words| ==> IsWord(words[i])
    ensures Readable(ReadWords(t, cur, words, last))
    decreases |words|
  {
    hide Readable;
    if words == [] {
      if last != "" && last[0] != '#' {
        ApplyWordReadable(t, cur, last);
      }
    } else {
      var w := words[0];
      assert IsWord(words[0]);
      if w[0] == '#' {
        ReadWordsReadable(t, cur, words[1..], w);
      } else if w == ";;" {
        if cur.Some? {
          ReadWordsReadable(t, None, words[1..], "");
        }
      } else {
        ApplyWordReadable(t, cur, w);
        var (t', cur') := ApplyWord(t, cur, w);
        ReadWordsReadable(t', cur', words[1..], w);
      }
    }
  }

  /** Whatever is read can be printed, unless a record's name begins with a slash, or with
      ";;" and a slash. */
  lemma ReadIsPrintable(text: string)
    ensures Printable(Parse(text)) <==> "" !in Parse(text).child && ";;" !in Parse(text).child
  {
    ReadWordsReadable(EMPTY, None, Lex(text), "");
    var t := Parse(text);
    assert !SafeName("") && !SafeName(";;");
    forall k | k in t.child && k != "" && k != ";;" ensures SafeName(k) {
      assert StartsRecord(k);
    }
  }
}
