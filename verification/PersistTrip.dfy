/** Printing a tree and reading it again, whatever its names: exactly when the tree comes
    back. A name in the wrong place is read as a comment, as a deletion or as the end. */
module PersistTrip {
  import opened Text
  import opened PersistTree
  import opened PersistFormat
  import opened PersistPrint
  import opened PersistImage
  import opened Wrappers

  /** What is printed of one node. */
  datatype Block = Block(name: string, attrs: seq<(string, string)>)

  ghost function TreeBlocks(t: Tree, name: string): seq<Block>
    decreases t, 1, 0
  {
    var ks := Sorted(t.child.Keys);
    if name == "" then ChildrenBlocks(t, "", ks, |ks|)
    else [Block(name, AttrList(t.attr))] + ChildrenBlocks(t, name + "/", ks, |ks|)
  }

  ghost function ChildrenBlocks(t: Tree, prefix: string, ks: seq<string>, i: nat): seq<Block>
    requires i <= |ks|
    decreases t, 0, i
  {
    if i == 0 then [] else ChildrenBlocks(t, prefix, ks, i - 1) + ChildBlocks(t, prefix, ks[i - 1])
  }

  ghost function ChildBlocks(t: Tree, prefix: string, k: string): seq<Block>
    decreases t, 0, 0
  {
    if k in t.child then TreeBlocks(t.child[k], prefix + k) else []
  }

  // ---------- the text ----------

  function BlockText(b: Block): string {
    b.name + RecordBody(b.attrs, "\n")
  }

  function BlocksText(bs: seq<Block>): string {
    if bs == [] then "" else BlockText(bs[0]) + BlocksText(bs[1..])
  }

  lemma {:induction false} BlocksTextConcat(a: seq<Block>, b: seq<Block>)
    ensures BlocksText(a + b) == BlocksText(a) + BlocksText(b)
  {
    if a == [] {
      assert a + b == b;
    } else {
      hide BlockText;
      assert (a + b)[1..] == a[1..] + b;
      BlocksTextConcat(a[1..], b);
      ConcatAssoc(BlockText(a[0]), BlocksText(a[1..]), BlocksText(b));
    }
  }

  lemma BlocksTextOne(b: Block)
    ensures BlocksText([b]) == BlockText(b)
  {
    assert [b][1..] == [];
  }

  lemma {:induction false} TextIsBlocks(t: Tree, name: string)
    ensures TreeText(t, name) == BlocksText(TreeBlocks(t, name))
    decreases t, 1, 0
  {
    hide BlocksText, BlockText;
    var ks := Sorted(t.child.Keys);
    if name == "" {
      ChildrenTextIsBlocks(t, "", ks, |ks|);
    } else {
      var b := Block(name, AttrList(t.attr));
      ChildrenTextIsBlocks(t, name + "/", ks, |ks|);
      RecordLinesBlock(t, name);
      BlocksTextOne(b);
      BlocksTextConcat([b], ChildrenBlocks(t, name + "/", ks, |ks|));
    }
  }

  lemma RecordLinesBlock(t: Tree, name: string)
    ensures RecordLines(t.attr, name) == BlockText(Block(name, AttrList(t.attr)))
  {
    RecordLinesBody(t.attr, name);
  }

  lemma {:induction false} ChildrenTextIsBlocks(t: Tree, prefix: string, ks: seq<string>, i: nat)
    requires i <= |ks|
    ensures ChildrenText(t, prefix, ks, i) == BlocksText(ChildrenBlocks(t, prefix, ks, i))
    decreases t, 0, i
  {
    if i > 0 {
      hide BlockText, TreeText, TreeBlocks;
      ChildrenTextIsBlocks(t, prefix, ks, i - 1);
      BlocksTextConcat(ChildrenBlocks(t, prefix, ks, i - 1), ChildBlocks(t, prefix, ks[i - 1]));
      if ks[i - 1] in t.child {
        TextIsBlocks(t.child[ks[i - 1]], prefix + ks[i - 1]);
      }
    }
  }

  // ---------- its words ----------

  predicate AttrsOk(attrs: seq<(string, string)>) {
    forall i :: 0 <= i < |attrs| ==> SafeAttr(attrs[i])
  }

  predicate BlockOk(b: Block) {
    IsWord(b.name) && AttrsOk(b.attrs)
  }

  predicate BlocksOk(bs: seq<Block>) {
    forall i :: 0 <= i < |bs| ==> BlockOk(bs[i])
  }

  function BlockWords(b: Block): seq<string> {
    [b.name] + (AttrWords(b.attrs) + [";;"])
  }

  function BlocksWords(bs: seq<Block>): seq<string> {
    if bs == [] then [] else BlockWords(bs[0]) + BlocksWords(bs[1..])
  }

  lemma {:induction false} BlocksWordsAreWords(bs: seq<Block>)
    requires BlocksOk(bs)
    ensures forall i :: 0 <= i < |BlocksWords(bs)| ==> IsWord(BlocksWords(bs)[i])
  {
    if bs != [] {
      BlockWordsAreWords(bs[0]);
      BlocksWordsAreWords(bs[1..]);
    }
  }

  lemma BlockWordsAreWords(b: Block)
    requires BlockOk(b)
    ensures forall i :: 0 <= i < |BlockWords(b)| ==> IsWord(BlockWords(b)[i])
  {
    AttrWordsAreWords(b.attrs);
  }

  lemma AttrWordsAreWords(attrs: seq<(string, string)>)
    requires AttrsOk(attrs)
    ensures forall i :: 0 <= i < |AttrWords(attrs) + [";;"]| ==> IsWord((AttrWords(attrs) + [";;"])[i])
  {
    forall i | 0 <= i < |attrs| ensures IsWord(AttrWords(attrs)[i]) {
      AttrWordSafe(attrs[i]);
    }
  }

  /** A word at the start of a line, though it hides what is left of the line. */
  lemma LexFirst(w: string, line: string)
    requires IsWord(w)
    ensures Lex(w + ("\n" + line)) == [w] + Lex(line)
  {
    if w[0] == '#' {
      LexComment(w, line);
    } else {
      LexBlank("\n", line);
      LexPlain(w, "\n" + line);
    }
  }

  lemma LexPlain(w: string, b: string)
    requires IsWord(w) && w[0] != '#' && b != "" && IsSpace(b[0])
    ensures Lex(w + b) == [w] + Lex(b)
  {
    hide Lex, IsWord;
    LexWord("", w, b);
    assert "" + w == w;
  }

  lemma LexComment(w: string, line: string)
    requires IsWord(w) && w[0] == '#'
    ensures Lex(w + ("\n" + line)) == [w] + Lex(line)
  {
    hide WordEnd;
    var b := "\n" + line;
    var r := w + b;
    assert r[0] == w[0] && SkipSpace(r) == r;
    WordEndConcat(w, b);
    assert r[..|w|] == w && r[|w|..] == b;
    assert DropLine(b, INT_MAX) == line;
  }

  lemma LexBlock(b: Block, rest: string)
    requires BlockOk(b)
    ensures Lex(BlockText(b) + rest) == BlockWords(b) + Lex(rest)
  {
    hide Lex, IsWord;
    var body := RecordBody(b.attrs, "\n");
    assert body[0] == '\n' && body == "\n" + body[1..];
    var line := body[1..] + rest;
    LexFirst(b.name, line);
    LexBlank("\n", line);
    assert "\n" + line == body + rest;
    assert BlockText(b) + rest == b.name + ("\n" + line);
    LexBody(b.attrs, "\n", rest);
    assert [b.name] + (AttrWords(b.attrs) + [";;"] + Lex(rest)) == BlockWords(b) + Lex(rest);
  }

  lemma {:induction false} LexBlocks(bs: seq<Block>)
    requires BlocksOk(bs)
    ensures Lex(BlocksText(bs)) == BlocksWords(bs)
  {
    if bs != [] {
      hide BlockText, BlockWords, Lex;
      LexBlock(bs[0], BlocksText(bs[1..]));
      LexBlocks(bs[1..]);
    }
  }

  // ---------- how it is read ----------

  /** Attribute words where a name is expected: deletions, then a record that is named by
      the first word that is none. False if the reading stops. */
  function Loose(t: Tree, attrs: seq<(string, string)>): (Tree, bool)
    decreases |attrs|
  {
    if attrs == [] then (t, false)
    else
      var w := AttrWord(attrs[0]);
      if w[0] == '-' then Loose(Del(t, Split(w[1..])), attrs[1..])
      else (Put(t, Split(w), Node(AttrMap(attrs[1..]), map[])), true)
  }

  function ReadBlock(t: Tree, b: Block): (Tree, bool)
    requires b.name != ""
  {
    if b.name[0] == '#' then Loose(t, b.attrs)
    else if b.name == ";;" then (t, false)
    else if b.name[0] == '-' then Loose(Del(t, Split(b.name[1..])), b.attrs)
    else (Put(t, Split(b.name), Node(AttrMap(b.attrs), map[])), true)
  }

  function ReadBlocks(t: Tree, bs: seq<Block>): Tree
    requires forall i :: 0 <= i < |bs| ==> bs[i].name != ""
    decreases |bs|
  {
    if bs == [] then t
    else
      var (t', on) := ReadBlock(t, bs[0]);
      if on then ReadBlocks(t', bs[1..]) else t'
  }

  lemma RunNamed(t: Tree, w: string, attrs: seq<(string, string)>, more: seq<string>, last: string)
    requires IsWord(w) && w[0] != '#' && w[0] != '-' && w != ";;" && AttrsOk(attrs)
    requires forall i :: 0 <= i < |more| ==> IsWord(more[i])
    ensures forall i :: 0 <= i < |AttrWords(attrs)| ==> IsWord(AttrWords(attrs)[i])
    ensures ReadWords(t, None, [w] + (AttrWords(attrs) + [";;"] + more), last)
         == ReadWords(Put(t, Split(w), Node(AttrMap(attrs), map[])), None, more, "")
  {
    AttrWordsAreWords(attrs);
    assert forall i :: 0 <= i < |attrs| ==> (AttrWords(attrs) + [";;"])[i] == AttrWords(attrs)[i];
    var words := [w] + (AttrWords(attrs) + [";;"] + more);
    assert words[0] == w && words[1..] == AttrWords(attrs) + [";;"] + more;
    RunAttrs(t, Split(w), map[], attrs, more, w);
    assert map[] + AttrMap(attrs) == AttrMap(attrs);
  }

  lemma {:induction false} RunLoose(t: Tree, attrs: seq<(string, string)>, more: seq<string>, last: string)
    requires AttrsOk(attrs) && forall i :: 0 <= i < |more| ==> IsWord(more[i])
    ensures forall i :: 0 <= i < |AttrWords(attrs)| ==> IsWord(AttrWords(attrs)[i])
    ensures var r := Loose(t, attrs);
      ReadWords(t, None, AttrWords(attrs) + [";;"] + more, last) == if r.1 then ReadWords(r.0, None, more, "") else r.0
    decreases |attrs|
  {
    AttrWordsAreWords(attrs);
    assert forall i :: 0 <= i < |attrs| ==> (AttrWords(attrs) + [";;"])[i] == AttrWords(attrs)[i];
    if attrs == [] {
      assert AttrWords(attrs) + [";;"] + more == [";;"] + more;
    } else {
      var w := AttrWord(attrs[0]);
      AttrWordSafe(attrs[0]);
      var words := AttrWords(attrs) + [";;"] + more;
      assert AttrWords(attrs) == [w] + AttrWords(attrs[1..]);
      assert words == [w] + (AttrWords(attrs[1..]) + [";;"] + more);
      if w[0] == '-' {
        assert words[0] == w && words[1..] == AttrWords(attrs[1..]) + [";;"] + more;
        RunLoose(Del(t, Split(w[1..])), attrs[1..], more, w);
      } else {
        RunNamed(t, w, attrs[1..], more, last);
      }
    }
  }

  lemma RunBlock(t: Tree, b: Block, more: seq<string>)
    requires BlockOk(b) && forall i :: 0 <= i < |more| ==> IsWord(more[i])
    ensures forall i :: 0 <= i < |BlockWords(b) + more| ==> IsWord((BlockWords(b) + more)[i])
    ensures var r := ReadBlock(t, b);
      ReadWords(t, None, BlockWords(b) + more, "") == if r.1 then ReadWords(r.0, None, more, "") else r.0
  {
    BlockWordsAreWords(b);
    var words := BlockWords(b) + more;
    assert words == [b.name] + (AttrWords(b.attrs) + [";;"] + more);
    assert words[0] == b.name && words[1..] == AttrWords(b.attrs) + [";;"] + more;
    if b.name[0] == '#' {
      RunLoose(t, b.attrs, more, b.name);
    } else if b.name == ";;" {
    } else if b.name[0] == '-' {
      RunLoose(Del(t, Split(b.name[1..])), b.attrs, more, b.name);
    } else {
      RunNamed(t, b.name, b.attrs, more, "");
    }
  }

  lemma {:induction false} RunBlocks(t: Tree, bs: seq<Block>)
    requires BlocksOk(bs)
    ensures forall i :: 0 <= i < |BlocksWords(bs)| ==> IsWord(BlocksWords(bs)[i])
    ensures ReadWords(t, None, BlocksWords(bs), "") == ReadBlocks(t, bs)
    decreases |bs|
  {
    BlocksWordsAreWords(bs);
    if bs != [] {
      hide BlockWords, ReadBlock;
      BlocksWordsAreWords(bs[1..]);
      RunBlock(t, bs[0], BlocksWords(bs[1..]));
      RunBlocks(ReadBlock(t, bs[0]).0, bs[1..]);
    }
  }

  // ---------- the names that are printed ----------

  /** No node at or below the root of c has more than m attributes. */
  ghost predicate AtMost(c: Tree, m: nat) {
    forall p :: Lookup(c, p).Some? ==> |Lookup(c, p).value| <= m
  }

  lemma AtMostBelow(c: Tree, m: nat, k: string)
    requires AtMost(c, m) && k in c.child
    ensures AtMost(c.child[k], m) && |c.attr| <= m
  {
    assert Lookup(c, []) == Some(c.attr);
    forall p | Lookup(c.child[k], p).Some? ensures |Lookup(c.child[k], p).value| <= m {
      LookupChild(c, k, p);
    }
  }

  lemma {:induction false} SortedSize(s: set<string>)
    ensures |Sorted(s)| == |s|
    decreases |s|
  {
    if s != {} {
      LeastExists(s);
      var k :| IsLeast(k, s) && Sorted(s) == [k] + Sorted(s - {k});
      SortedSize(s - {k});
    }
  }

  /** No name begins with a slash; one that begins as a comment or a deletion is of a node
      with at most m attributes. */
  ghost predicate Bounded(b: Block, m: nat) {
    && BlockOk(b) && b.name[0] != '/'
    && (b.name[0] == '-' || b.name[0] == '#' ==> |b.attrs| <= m)
  }

  ghost predicate AllBounded(bs: seq<Block>, m: nat) {
    forall i :: 0 <= i < |bs| ==> Bounded(bs[i], m)
  }

  predicate Plain(name: string) {
    name != "" && name[0] != '-' && name[0] != '#'
  }

  predicate NameOk(name: string) {
    NoSpace(name) && (name != "" ==> name[0] != '/')
  }

  lemma HeadBounded(t: Tree, name: string, m: nat)
    requires Clean(t) && NameOk(name) && name != "" && (Plain(name) || |t.attr| <= m)
    ensures Bounded(Block(name, AttrList(t.attr)), m)
  {
    SortedMembers(t.attr.Keys);
    SortedSize(t.attr.Keys);
    var attrs := AttrList(t.attr);
    forall i | 0 <= i < |attrs| ensures SafeAttr(attrs[i]) {
      assert attrs[i].0 in Sorted(t.attr.Keys);
    }
  }

  lemma {:induction false} TreeBounded(t: Tree, name: string, m: nat)
    requires Clean(t) && NameOk(name) && (Plain(name) || AtMost(t, m))
    ensures AllBounded(TreeBlocks(t, name), m)
    decreases t, 1, 0
  {
    var ks := Sorted(t.child.Keys);
    SortedMembers(t.child.Keys);
    if name == "" {
      ChildrenBounded(t, "", ks, |ks|, m);
    } else {
      if !Plain(name) {
        assert Lookup(t, []) == Some(t.attr);
      }
      HeadBounded(t, name, m);
      ChildrenBounded(t, name + "/", ks, |ks|, m);
    }
  }

  lemma {:induction false} ChildrenBounded(t: Tree, prefix: string, ks: seq<string>, i: nat, m: nat)
    requires Clean(t) && NameOk(prefix) && (Plain(prefix) || AtMost(t, m)) && i <= |ks|
    ensures AllBounded(ChildrenBlocks(t, prefix, ks, i), m)
    decreases t, 0, i
  {
    if i > 0 {
      var k := ks[i - 1];
      ChildrenBounded(t, prefix, ks, i - 1, m);
      if k in t.child {
        assert NameOk(prefix + k) by {
          assert '/' !in k;
        }
        if !Plain(prefix) {
          AtMostBelow(t, m, k);
        }
        TreeBounded(t.child[k], prefix + k, m);
      }
    }
  }

  /** At the top, only what is below a nameless child can be taken for something else. */
  lemma {:induction false} RootBounded(t: Tree, ks: seq<string>, i: nat, m: nat)
    requires Readable(t) && i <= |ks| && ("" in t.child ==> AtMost(t.child[""], m))
    ensures AllBounded(ChildrenBlocks(t, "", ks, i), m)
  {
    if i > 0 {
      var k := ks[i - 1];
      RootBounded(t, ks, i - 1, m);
      if k in t.child {
        assert StartsRecord(k) && "" + k == k;
        TreeBounded(t.child[k], k, m);
      }
    }
  }

  // ---------- a nameless child does not come back ----------

  /** Below a nameless child of the root, every node has fewer than m attributes. */
  ghost predicate Fewer(t: Tree, m: nat) {
    forall p :: |p| > 0 && p[0] == "" && Lookup(t, p).Some? ==> |Lookup(t, p).value| < m
  }

  lemma {:induction false} AttrMapSize(attrs: seq<(string, string)>)
    ensures |AttrMap(attrs)| <= |attrs|
  {
    if attrs != [] {
      AttrMapSize(attrs[..|attrs| - 1]);
    }
  }

  lemma PutFewer(t: Tree, p: Path, a: Attrs, m: nat)
    requires Fewer(t, m) && |p| > 0 && (p[0] == "" ==> |a| < m)
    ensures Fewer(Put(t, p, Node(a, map[])), m)
  {
    var s := Node(a, map[]);
    forall q: Path | |q| > 0 && q[0] == "" && Lookup(Put(t, p, s), q).Some?
      ensures |Lookup(Put(t, p, s), q).value| < m
    {
      LookupPut(t, p, s, q);
      if Extends(q, p) {
        assert q[0] == p[0];
        assert Lookup(s, q[|p|..]).Some? ==> q[|p|..] == [];
      } else if Extends(p, q) {
        assert p[0] == q[0];
      }
    }
  }

  lemma DelFewer(t: Tree, p: Path, m: nat)
    requires Fewer(t, m) && |p| > 0
    ensures Fewer(Del(t, p), m)
  {
    forall q: Path | |q| > 0 && q[0] == "" && Lookup(Del(t, p), q).Some? ensures |Lookup(Del(t, p), q).value| < m {
      LookupDel(t, p, q);
    }
  }

  lemma {:induction false} LooseFewer(t: Tree, attrs: seq<(string, string)>, m: nat)
    requires Fewer(t, m) && |attrs| <= m
    ensures Fewer(Loose(t, attrs).0, m)
    decreases |attrs|
  {
    if attrs != [] {
      hide Fewer;
      var w := AttrWord(attrs[0]);
      if w[0] == '-' {
        DelFewer(t, Split(w[1..]), m);
        LooseFewer(Del(t, Split(w[1..])), attrs[1..], m);
      } else {
        AttrMapSize(attrs[1..]);
        PutFewer(t, Split(w), AttrMap(attrs[1..]), m);
      }
    }
  }

  lemma BlockFewer(t: Tree, b: Block, m: nat)
    requires Fewer(t, m) && Bounded(b, m)
    ensures Fewer(ReadBlock(t, b).0, m)
  {
    hide Fewer;
    if b.name[0] == '#' {
      LooseFewer(t, b.attrs, m);
    } else if b.name[0] == '-' {
      DelFewer(t, Split(b.name[1..]), m);
      LooseFewer(Del(t, Split(b.name[1..])), b.attrs, m);
    } else if b.name != ";;" {
      SplitNamed(b.name);
      PutFewer(t, Split(b.name), AttrMap(b.attrs), m);
    }
  }

  lemma SplitNamed(name: string)
    requires name != "" && name[0] != '/'
    ensures Split(name)[0] == name[..IndexOf(name, '/')] && Split(name)[0] != ""
  {
  }

  lemma {:induction false} BlocksFewer(t: Tree, bs: seq<Block>, m: nat)
    requires Fewer(t, m) && AllBounded(bs, m)
    ensures forall i :: 0 <= i < |bs| ==> bs[i].name != ""
    ensures Fewer(ReadBlocks(t, bs), m)
    decreases |bs|
  {
    if bs != [] {
      hide Fewer, ReadBlock;
      BlockFewer(t, bs[0], m);
      BlocksFewer(ReadBlock(t, bs[0]).0, bs[1..], m);
    }
  }

  /** The tree that comes back, in terms of the blocks. */
  lemma TripReads(t: Tree, m: nat)
    requires Readable(t) && ("" in t.child ==> AtMost(t.child[""], m))
    ensures AllBounded(TreeBlocks(t, ""), m)
    ensures forall i :: 0 <= i < |TreeBlocks(t, "")| ==> TreeBlocks(t, "")[i].name != ""
    ensures Parse(TreeText(t, "")) == ReadBlocks(EMPTY, TreeBlocks(t, ""))
  {
    var ks := Sorted(t.child.Keys);
    RootBounded(t, ks, |ks|, m);
    var bs := TreeBlocks(t, "");
    assert BlocksOk(bs);
    TextIsBlocks(t, "");
    LexBlocks(bs);
    RunBlocks(EMPTY, bs);
  }

  /** If the tree came back, the bound could be lowered for ever. */
  lemma {:induction false} NamelessDiffers(t: Tree, m: nat)
    requires Readable(t) && "" in t.child && AtMost(t.child[""], m)
    ensures Parse(TreeText(t, "")) != t
    decreases m
  {
    TripReads(t, m);
    BlocksFewer(EMPTY, TreeBlocks(t, ""), m);
    if Parse(TreeText(t, "")) == t {
      var c := t.child[""];
      forall p | Lookup(c, p).Some? ensures |Lookup(c, p).value| < m {
        LookupChild(t, "", p);
      }
      assert Lookup(c, []) == Some(c.attr);
      assert m > 0 && AtMost(c, m - 1);
      NamelessDiffers(t, m - 1);
    }
  }

  lemma {:induction false} BoundExists(t: Tree)
    ensures exists m: nat :: AtMost(t, m)
    decreases t, 1, 0
  {
    BoundOver(t, t.child.Keys);
    var m: nat :| BoundsOver(t, t.child.Keys, m);
    var n := if m < |t.attr| then |t.attr| else m;
    forall p | Lookup(t, p).Some? ensures |Lookup(t, p).value| <= n {
      if p != [] {
        assert AtMost(t.child[p[0]], m);
      }
    }
    assert AtMost(t, n);
  }

  ghost predicate BoundsOver(t: Tree, ks: set<string>, m: nat) {
    forall k :: k in ks && k in t.child ==> AtMost(t.child[k], m)
  }

  lemma {:induction false} BoundOver(t: Tree, ks: set<string>)
    requires ks <= t.child.Keys
    ensures exists m: nat :: BoundsOver(t, ks, m)
    decreases t, 0, |ks|
  {
    if ks == {} {
      assert BoundsOver(t, ks, 0);
    } else {
      var k :| k in ks;
      BoundOver(t, ks - {k});
      var m: nat :| BoundsOver(t, ks - {k}, m);
      BoundExists(t.child[k]);
      var n: nat :| AtMost(t.child[k], n);
      var most := if m < n then n else m;
      assert AtMost(t.child[k], most);
      forall j | j in ks && j in t.child ensures AtMost(t.child[j], most) {
        if j != k {
          assert AtMost(t.child[j], m);
        }
      }
      assert BoundsOver(t, ks, most);
    }
  }

  // ---------- a child named as the end mark does not come back ----------

  /** Whatever is named below the mark comes after the mark itself. */
  ghost predicate MarkFirst(bs: seq<Block>) {
    forall i :: 0 <= i < |bs| && Split(bs[i].name)[0] == ";;" ==> exists j :: 0 <= j <= i && bs[j].name == ";;"
  }

  ghost predicate AllPlain(bs: seq<Block>) {
    forall i :: 0 <= i < |bs| ==> Plain(bs[i].name)
  }

  lemma {:induction false} MarkStops(t: Tree, bs: seq<Block>)
    requires AllPlain(bs) && MarkFirst(bs) && ";;" !in t.child
    ensures forall i :: 0 <= i < |bs| ==> bs[i].name != ""
    ensures ";;" !in ReadBlocks(t, bs).child
    decreases |bs|
  {
    assert forall i :: 0 <= i < |bs| ==> Plain(bs[i].name);
    if bs != [] && bs[0].name != ";;" {
      assert Split(bs[0].name)[0] != ";;";
      forall i | 0 <= i < |bs[1..]| && Split(bs[1..][i].name)[0] == ";;"
        ensures exists j :: 0 <= j <= i && bs[1..][j].name == ";;"
      {
        assert bs[1..][i] == bs[i + 1];
        var j :| 0 <= j <= i + 1 && bs[j].name == ";;";
        assert bs[1..][j - 1] == bs[j];
      }
      MarkStops(ReadBlock(t, bs[0]).0, bs[1..]);
    }
  }

  /** Every name below a node begins with that node's. */
  ghost predicate AllBelow(bs: seq<Block>, name: string) {
    forall i :: 0 <= i < |bs| ==> name <= bs[i].name && (bs[i].name == name || bs[i].name[|name|] == '/')
  }

  lemma {:induction false} TreeBelow(t: Tree, name: string, top: string)
    requires top != "" && top <= name && (name == top || name[|top|] == '/')
    ensures AllBelow(TreeBlocks(t, name), top)
    ensures TreeBlocks(t, name) != [] && TreeBlocks(t, name)[0].name == name
    decreases t, 1, 0
  {
    var ks := Sorted(t.child.Keys);
    ChildrenBelow(t, name + "/", ks, |ks|, top);
  }

  lemma {:induction false} ChildrenBelow(t: Tree, prefix: string, ks: seq<string>, i: nat, top: string)
    requires i <= |ks| && top != "" && top < prefix && prefix[|top|] == '/'
    ensures AllBelow(ChildrenBlocks(t, prefix, ks, i), top)
    decreases t, 0, i
  {
    if i > 0 {
      ChildrenBelow(t, prefix, ks, i - 1, top);
      if ks[i - 1] in t.child {
        TreeBelow(t.child[ks[i - 1]], prefix + ks[i - 1], top);
      }
    }
  }

  lemma BelowFirst(name: string, top: string)
    requires top <= name && (name == top || name[|top|] == '/') && '/' !in top
    ensures Split(name)[0] == top
  {
    if name == top {
      assert IndexOf(name, '/') == |name|;
    } else {
      assert name == top + ['/'] + name[|top| + 1..];
      IndexOfConcat(top, '/', name[|top| + 1..]);
    }
  }

  lemma {:induction false} RootMarkFirst(t: Tree, ks: seq<string>, i: nat)
    requires Readable(t) && "" !in t.child && i <= |ks|
    ensures AllPlain(ChildrenBlocks(t, "", ks, i)) && MarkFirst(ChildrenBlocks(t, "", ks, i))
  {
    if i > 0 {
      var k := ks[i - 1];
      var before, here := ChildrenBlocks(t, "", ks, i - 1), ChildBlocks(t, "", k);
      RootMarkFirst(t, ks, i - 1);
      if k in t.child {
        assert StartsRecord(k) && "" + k == k;
        TreeBelow(t.child[k], k, k);
        ChildMarkFirst(here, k);
      }
      MarkFirstConcat(before, here);
    }
  }

  lemma ChildMarkFirst(bs: seq<Block>, k: string)
    requires AllBelow(bs, k) && bs != [] && bs[0].name == k && Plain(k) && '/' !in k
    ensures AllPlain(bs) && MarkFirst(bs)
  {
    forall i | 0 <= i < |bs| ensures Plain(bs[i].name) && Split(bs[i].name)[0] == k {
      BelowFirst(bs[i].name, k);
      assert bs[i].name[0] == k[0];
    }
  }

  lemma MarkFirstConcat(a: seq<Block>, b: seq<Block>)
    requires AllPlain(a) && MarkFirst(a) && AllPlain(b) && MarkFirst(b)
    ensures AllPlain(a + b) && MarkFirst(a + b)
  {
    var c := a + b;
    forall i | 0 <= i < |c| && Split(c[i].name)[0] == ";;" ensures exists j :: 0 <= j <= i && c[j].name == ";;" {
      if i < |a| {
        var j :| 0 <= j <= i && a[j].name == ";;";
        assert c[j] == a[j];
      } else {
        assert b[i - |a|] == c[i];
        var j :| 0 <= j <= i - |a| && b[j].name == ";;";
        assert c[|a| + j] == b[j];
      }
    }
  }

  lemma MarkDiffers(t: Tree)
    requires Readable(t) && "" !in t.child && ";;" in t.child
    ensures Parse(TreeText(t, "")) != t
  {
    var ks := Sorted(t.child.Keys);
    TripReads(t, 0);
    RootMarkFirst(t, ks, |ks|);
    MarkStops(EMPTY, TreeBlocks(t, ""));
  }

  // ---------- exactly when ----------

  /** Any tree at all comes back from its printed text if and only if it is printable. */
  lemma RoundTripIff(t: Tree)
    ensures Parse(TreeText(t, "")) == t <==> Printable(t)
  {
    if Printable(t) {
      RoundTrip(t);
    } else {
      ReadWordsReadable(EMPTY, None, Lex(TreeText(t, "")), "");
      if Readable(t) {
        OddName(t);
        if "" in t.child {
          BoundExists(t.child[""]);
          var m: nat :| AtMost(t.child[""], m);
          NamelessDiffers(t, m);
        } else {
          MarkDiffers(t);
        }
      }
    }
  }

  lemma OddName(t: Tree)
    requires Readable(t)
    ensures Printable(t) <==> "" !in t.child && ";;" !in t.child
  {
    assert !SafeName("") && !SafeName(";;");
    forall k | k in t.child && k != "" && k != ";;" ensures SafeName(k) {
      assert StartsRecord(k);
    }
  }

  /** So printing what was read from any file, and reading that, changes nothing if and only
      if no child of the root is named with the empty string or as the end mark. */
  lemma ReadPrintReadIff(text: string)
    ensures Parse(TreeText(Parse(text), "")) == Parse(text) <==> "" !in Parse(text).child && ";;" !in Parse(text).child
  {
    ReadIsPrintable(text);
    RoundTripIff(Parse(text));
  }

  // ---------- how the two names get lost ----------

  lemma {:induction false} ReadBlocksConcat(t: Tree, a: seq<Block>, mark: Block, b: seq<Block>)
    requires BlocksOk(a) && BlocksOk(b) && BlockOk(mark) && mark.name == ";;"
    ensures BlocksOk(a + ([mark] + b))
    ensures ReadBlocks(t, a + ([mark] + b)) == ReadBlocks(t, a)
    decreases |a|
  {
    var c := a + ([mark] + b);
    if a == [] {
      assert c == [mark] + b;
    } else {
      hide ReadBlock;
      assert c[0] == a[0] && c[1..] == a[1..] + ([mark] + b);
      ReadBlocksConcat(ReadBlock(t, a[0]).0, a[1..], mark, b);
    }
  }

  /** A record named as the end mark ends the reading, whatever was printed before and after
      it. */
  lemma NothingIsReadAfter(a: seq<Block>, mark: Block, b: seq<Block>)
    requires BlocksOk(a) && BlocksOk(b) && BlockOk(mark) && mark.name == ";;"
    ensures Parse(BlocksText(a + ([mark] + b))) == Parse(BlocksText(a))
  {
    hide ReadBlocks, BlocksText;
    ReadBlocksConcat(EMPTY, a, mark, b);
    LexBlocks(a);
    LexBlocks(a + ([mark] + b));
    RunBlocks(EMPTY, a);
    RunBlocks(EMPTY, a + ([mark] + b));
  }

  lemma {:induction false} ChildrenTextCons(t: Tree, t': Tree, k: string, ks: seq<string>, i: nat)
    requires i <= |ks| && k !in ks && t'.child == t.child - {k}
    ensures ChildrenText(t, "", [k] + ks, i + 1) == ChildText(t, "", k) + ChildrenText(t', "", ks, i)
  {
    hide TreeText;
    var all := [k] + ks;
    if i == 0 {
      assert ChildrenText(t, "", all, 0) == "" && all[0] == k;
    } else {
      ChildrenTextCons(t, t', k, ks, i - 1);
      assert all[i] == ks[i - 1];
      ConcatAssoc(ChildText(t, "", k), ChildrenText(t', "", ks, i - 1), ChildText(t', "", ks[i - 1]));
    }
  }

  /** A nameless child of the root is printed as if its children were the root's. */
  lemma NamelessVanishes(t: Tree)
    requires "" in t.child
    ensures TreeText(t, "") == TreeText(t.child[""], "") + TreeText(t.(child := t.child - {""}), "")
  {
    var t' := t.(child := t.child - {""});
    var ks := Sorted(t'.child.Keys);
    assert t.child.Keys - {""} == t'.child.Keys;
    SortedStep(t.child.Keys, "");
    SortedMembers(t'.child.Keys);
    ChildrenTextCons(t, t', "", ks, |ks|);
    assert "" + "" == "";
  }

  lemma {:induction false} WordEndWord(w: string)
    requires NoSpace(w)
    ensures WordEnd(w) == |w|
  {
    if w != "" {
      WordEndWord(w[1..]);
    }
  }

  /** A file that ends in a name: the word is still in the buffer when the stream runs dry, and
      becomes an attribute of the node that it has just named. */
  lemma LastWordTwice(name: string)
    requires SafeName(name) && '=' !in name
    ensures Parse(name) == Put(EMPTY, Split(name), Node(map[name := ""], map[]))
  {
    hide WordEnd;
    WordEndWord(name);
    assert SkipSpace(name) == name && name[..|name|] == name && name[|name|..] == "";
    assert Lex("") == [];
    assert Lex(name) == [name];
    assert [name][1..] == [];
    var p := Split(name);
    LookupPut(EMPTY, p, EMPTY, p);
    assert p[|p|..] == [];
    SetAttrsPut(EMPTY, p, EMPTY, map[name := ""]);
    WithAttrMeans(map[], name, "");
    assert ReadWords(EMPTY, None, [name], "") == ReadWords(Add(EMPTY, p), Some(p), [], name);
    assert ReadWords(Add(EMPTY, p), Some(p), [], name) == AddAttr(Add(EMPTY, p), p, name);
  }
}
