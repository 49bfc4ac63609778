/** PersistNode as the server holds it: nodes on the heap, changed in place. Each method
    is proved against the function on tree values that says what it does. */
module PersistNodes {
  import opened Text
  import opened PersistTree
  import opened PersistFormat
  import opened PersistPrint
  import opened Wrappers

  /** A std::istream over a text, as far as the reader uses it. */
  class IStream {
    var rest: string
    var eof: bool
    var fail: bool

    constructor (text: string)
      ensures rest == text && !eof && !fail
    {
      rest, eof, fail := text, false, false;
    }

    /** The words still to come. */
    function Pending(): (ws: seq<string>)
      reads this
    {
      if eof || fail then [] else Lex(rest)
    }

    function Measure(): nat
      reads this
    {
      if fail then 0 else 1 + |rest|
    }

    /** is >> tok. When no word is left the stream fails and tok keeps its value. */
    method Extract(tok: string) returns (tok': string)
      requires !fail
      modifies this
      ensures fail == (old(eof) || SkipSpace(old(rest)) == "")
      ensures fail ==> tok' == tok
      ensures !fail ==>
        var r := SkipSpace(old(rest));
        tok' == r[..WordEnd(r)] && rest == r[WordEnd(r)..] && eof == (rest == "")
    {
      if eof {
        fail := true;
        return tok;
      }
      var r := SkipSpace(rest);
      if r == "" {
        rest, eof, fail := "", true, true;
        return tok;
      }
      var n := WordEnd(r);
      tok' := r[..n];
      rest := r[n..];
      eof := rest == "";
    }

    /** is.ignore(INT_MAX, '\n'). */
    method Ignore()
      modifies this
      ensures old(eof) || old(fail) ==> fail && rest == old(rest)
      ensures !old(eof) && !old(fail) ==> !fail && rest == DropLine(old(rest), INT_MAX) && (eof ==> rest == "")
    {
      if eof || fail {
        fail := true;
      } else {
        var n := 0;
        ghost var text := rest;
        while n < INT_MAX && rest != "" && rest[0] != '\n'
          invariant n <= INT_MAX && !fail && !eof
          invariant DropLine(rest, INT_MAX - n) == DropLine(text, INT_MAX)
        {
          rest, n := rest[1..], n + 1;
        }
        if n < INT_MAX {
          if rest == "" {
            eof := true;
          } else {
            rest := rest[1..];
          }
        }
      }
    }
  }

  /** What the reader's loops still have to do. */
  function Goal(input: IStream, t: Tree, cur: Cursor, last: string): Tree
    reads input
  {
    if input.fail then t else ReadWords(t, cur, input.Pending(), last)
  }

  /** One readtoken, seen from the fold. */
  ghost function AfterToken(input: IStream, t: Tree, cur: Cursor, tok: string): Tree
    requires tok != ""
    reads input
  {
    if tok == ";;" then if cur.Some? then Goal(input, t, None, "") else t
    else var (t', cur') := ApplyWord(t, cur, tok); Goal(input, t', cur', tok)
  }

  method ReadToken(input: IStream, tok: string, ghost t: Tree, ghost cur: Cursor) returns (ok: bool, tok': string)
    requires tok != ";;"
    modifies input
    ensures !ok ==> input.fail && old(Goal(input, t, cur, tok)) == t
    ensures ok ==> tok' != "" && input.Measure() < old(input.Measure())
    ensures ok ==> AfterToken(input, t, cur, tok') == old(Goal(input, t, cur, tok))
    ensures input.Measure() <= old(input.Measure())
  {
    tok' := tok;
    while !input.fail
      invariant Goal(input, t, cur, tok') == old(Goal(input, t, cur, tok))
      invariant tok' != ";;"
      invariant input.Measure() <= old(input.Measure())
      decreases input.Measure()
    {
      ghost var words := input.Pending();
      ghost var before := tok';
      ghost var r := SkipSpace(input.rest);
      tok' := input.Extract(tok');
      if input.fail {
        assert words == [] && tok' == before;
      } else {
        assert words[0] == tok' && words[1..] == Lex(if r[0] == '#' then DropLine(input.rest, INT_MAX) else input.rest);
        assert Lex("") == [] && DropLine("", INT_MAX) == "";
      }
      if tok' == "" {
        return false, tok';
      }
      if tok'[0] != '#' {
        return true, tok';
      }
      ghost var failed, ended, left := input.fail, input.eof, input.rest;
      assert Goal(input, t, cur, tok') == old(Goal(input, t, cur, tok)) || (!failed && !ended);
      input.Ignore();
      if failed || ended {
        assert input.fail;
      } else {
        assert input.Pending() == Lex(DropLine(left, INT_MAX));
      }
    }
    ok := false;
  }

  /** The keys of a std::map in the order of its iterators. */
  method Walk(keys: set<string>) returns (ks: seq<string>)
    ensures ks == Sorted(keys)
  {
    var todo := keys;
    ks := [];
    while todo != {}
      invariant ks + Sorted(todo) == Sorted(keys)
      decreases todo
    {
      LeastExists(todo);
      var k :| IsLeast(k, todo);
      SortedStep(todo, k);
      ks, todo := ks + [k], todo - {k};
    }
  }

  class PersistNode {
    var child: map<string, PersistNode>
    var attr: Attrs
    ghost var Repr: set<PersistNode>

    ghost predicate Valid()
      reads this, Repr
      decreases Repr
    {
      && this in Repr
      && (forall k :: k in child ==>
            child[k] in Repr && child[k].Repr <= Repr && this !in child[k].Repr && child[k].Valid())
      && (forall k, j {:trigger Apart(k, j)} :: k in child && j in child && k != j ==> Apart(k, j))
    }

    ghost predicate Apart(k: string, j: string)
      requires k in child && j in child
      reads this, child[k], child[j]
    {
      child[k].Repr !! child[j].Repr
    }

    /** The tree below this node. */
    ghost function Tree(): Tree
      requires Valid()
      reads this, Repr
      decreases Repr
    {
      Node(attr, map k | k in child :: child[k].Tree())
    }

    ghost predicate At(p: Path, n: PersistNode)
      requires Valid()
      reads this, Repr
      decreases |p|
    {
      n in Repr && if p == [] then n == this else p[0] in child && child[p[0]].At(p[1..], n)
    }

    constructor ()
      ensures Valid() && Repr == {this} && Tree() == EMPTY
    {
      child, attr := map[], map[];
      Repr := {this};
    }

    /** _child[key]=n, dropping what was there. */
    method SetChild(key: string, n: PersistNode)
      requires Valid() && n.Valid() && n !in Repr && n.Repr == {n}
      modifies this
      ensures Valid() && Repr == old(Repr) + {n} && child == old(child)[key := n]
      ensures Tree() == WithChild(old(Tree()), key, n.Tree())
    {
      child := child[key := n];
      Repr := Repr + {n};
      forall k | k in child && k != key
        ensures child[k].Valid() && child[k].Repr == old(child[k].Repr) && child[k].Tree() == old(child[k].Tree())
      {
        assert this !in old(child[k].Repr);
      }
      assert n.Valid() && n.Repr == {n} && n.Tree() == old(n.Tree());
      forall k, j | k in child && j in child && k != j ensures Apart(k, j) {
        if k != key && j != key {
          assert old(Apart(k, j));
        }
      }
      TreeIs(this, WithChild(old(Tree()), key, n.Tree()));
    }

    method AddNode(name: string) returns (leaf: PersistNode)
      requires Valid()
      modifies Repr
      ensures Valid() && fresh(Repr - old(Repr))
      ensures Tree() == Add(old(Tree()), Split(name))
      ensures At(Split(name), leaf)
      decreases |name|, 0
    {
      hide Put, Split, IndexOf;
      var pos := IndexOf(name, '/');
      var key := name[..pos];
      if pos == |name| {
        SplitLeaf(name);
        PutChild(Tree(), name, EMPTY);
        leaf := NewLeaf(name);
      } else {
        ghost var t := Tree();
        AddBranch(key);
        leaf := AddBelow(key, name[pos + 1..]);
        SplitPeels(name, key, name[pos + 1..]);
        AddInTwo(t, key, Split(name[pos + 1..]));
      }
    }

    method NewLeaf(key: string) returns (leaf: PersistNode)
      requires Valid()
      modifies this
      ensures Valid() && fresh(Repr - old(Repr))
      ensures Tree() == WithChild(old(Tree()), key, EMPTY)
      ensures At([key], leaf)
    {
      leaf := new PersistNode();
      SetChild(key, leaf);
      assert [key][1..] == [];
    }

    /** Makes the branch if it is missing. */
    method AddBranch(key: string)
      requires Valid()
      modifies this
      ensures Valid() && key in child && fresh(Repr - old(Repr)) && old(Repr) <= Repr
      ensures Tree() == WithChild(old(Tree()), key, ChildOrEmpty(old(Tree()), key))
    {
      if key in child {
        assert Tree().child[key := Tree().child[key]] == Tree().child;
      } else {
        var branch := new PersistNode();
        SetChild(key, branch);
      }
    }

    method AddBelow(key: string, name: string) returns (leaf: PersistNode)
      requires Valid() && key in child
      modifies Repr
      ensures Valid() && fresh(Repr - old(Repr)) && child == old(child)
      ensures Tree() == WithChild(old(Tree()), key, Add(old(Tree()).child[key], Split(name)))
      ensures child[key].At(Split(name), leaf)
      decreases |name|, 1
    {
      ghost var t, c := Tree(), child[key].Tree();
      assert t.child[key] == c;
      leaf := child[key].AddNode(name);
      ghost var c' := child[key].Tree();
      Repr := Repr + child[key].Repr;
      assert child[key].Tree() == c';
      ChildChanged(this, key);
      assert Tree() == WithChild(t, key, c');
    }

    method DelNode(name: string)
      requires Valid()
      modifies Repr
      ensures Valid() && fresh(Repr - old(Repr))
      ensures Tree() == Del(old(Tree()), Split(name))
      decreases |name|, 0
    {
      var pos := IndexOf(name, '/');
      var key := name[..pos];
      if pos == |name| {
        SplitLeaf(name);
        DelChild(Tree(), name);
        assert key == name;
      } else {
        SplitPeels(name, key, name[pos + 1..]);
        DelPeels(Tree(), key, Split(name[pos + 1..]));
      }
      if key in child {
        if pos == |name| {
          DropChild(key);
        } else {
          DelBelow(key, name[pos + 1..]);
        }
      } else {
        assert Tree().child - {key} == Tree().child;
      }
    }

    /** _child.erase(key). */
    method DropChild(key: string)
      requires Valid()
      modifies this
      ensures Valid() && Repr == old(Repr)
      ensures Tree() == old(Tree()).(child := old(Tree()).child - {key})
    {
      child := child - {key};
      forall k | k in child
        ensures child[k].Valid() && child[k].Repr == old(child[k].Repr) && child[k].Tree() == old(child[k].Tree())
      {
        assert this !in old(child[k].Repr);
      }
      forall k, j | k in child && j in child && k != j ensures Apart(k, j) {
        assert old(Apart(k, j));
      }
    }

    method DelBelow(key: string, name: string)
      requires Valid() && key in child
      modifies Repr
      ensures Valid() && fresh(Repr - old(Repr))
      ensures Tree() == WithChild(old(Tree()), key, Del(old(Tree()).child[key], Split(name)))
      decreases |name|, 1
    {
      ghost var t, c := Tree(), child[key].Tree();
      assert t.child[key] == c;
      child[key].DelNode(name);
      ghost var c' := child[key].Tree();
      Repr := Repr + child[key].Repr;
      assert child[key].Tree() == c';
      ChildChanged(this, key);
      assert Tree() == WithChild(t, key, c');
    }

    /** Reads records up to the end of one that is closed by ";;". */
    method ReadNode(input: IStream) returns (more: bool)
      requires Valid()
      modifies input, Repr
      ensures Valid() && fresh(Repr - old(Repr))
      ensures more ==> Goal(input, Tree(), None, "") == old(Goal(input, Tree(), None, ""))
      ensures !more ==> Tree() == old(Goal(input, Tree(), None, ""))
      ensures more ==> input.Measure() < old(input.Measure())
    {
      var node: PersistNode? := null;
      ghost var cur: Cursor := None;
      var tok := "";
      while true
        invariant Valid() && fresh(Repr - old(Repr)) && tok != ";;"
        invariant Goal(input, Tree(), cur, tok) == old(Goal(input, Tree(), None, ""))
        invariant cur.None? <==> node == null
        invariant node != null ==> At(cur.value, node)
        invariant node != null ==> input.Measure() < old(input.Measure())
        decreases input.Measure()
      {
        var ok;
        ok, tok := ReadToken(input, tok, Tree(), cur);
        if !ok {
          return node != null;
        }
        if tok == ";;" {
          return node != null;
        }
        if node != null {
          AddAttrTo(cur.value, node, tok);
        } else if tok[0] == '-' {
          DelNode(tok[1..]);
        } else {
          node := AddNode(tok);
          cur := Some(Split(tok));
        }
      }
    }

    /** node->addattr(tok), as this tree sees it. */
    method AddAttrTo(ghost p: Path, node: PersistNode, tok: string)
      requires Valid() && At(p, node)
      modifies Repr
      ensures Valid() && Repr == old(Repr) && At(p, node)
      ensures Tree() == PersistFormat.AddAttr(old(Tree()), p, tok)
    {
      AtInside(this, p, node);
      node.AddAttr(tok);
      AttrChanged(this, p, node);
    }

    /** PersistNode(istream&): the root of the tree that the text describes. */
    constructor Read(input: IStream)
      requires !input.eof && !input.fail
      modifies input
      ensures Valid() && fresh(Repr)
      ensures Tree() == Parse(old(input.rest))
    {
      child, attr := map[], map[];
      Repr := {this};
      new;
      var more := true;
      while more
        invariant Valid() && fresh(Repr)
        invariant more ==> Goal(input, Tree(), None, "") == Parse(old(input.rest))
        invariant !more ==> Tree() == Parse(old(input.rest))
        decreases more, input.Measure()
      {
        more := ReadNode(input);
      }
    }

    /** The record of this node: its name, its attributes in ascending order of their
        keys, and the closing mark. */
    method OutputRecord(name: string) returns (os: string)
      ensures os == RecordLines(attr, name)
    {
      var ks := Walk(attr.Keys);
      SortedMembers(attr.Keys);
      os := name + "\n";
      for i := 0 to |ks|
        invariant os == name + "\n" + AttrLines(attr, ks, i)
      {
        assert ks[i] in attr;
        var line := " " + ks[i] + "=" + attr[ks[i]] + "\n";
        NextAttrLine(attr, name + "\n", ks, i);
        os := os + line;
      }
      os := os + " ;;\n";
    }

    /** output(os, name): the text that is appended to os. */
    method Output(name: string) returns (os: string)
      requires Valid()
      ensures os == TreeText(Tree(), name)
      decreases Repr, 1
    {
      assert Tree().child.Keys == child.Keys;
      if name == "" {
        os := OutputChildren("");
      } else {
        var head := OutputRecord(name);
        var below := OutputChildren(name + "/");
        os := head + below;
      }
    }

    method OutputChildren(prefix: string) returns (os: string)
      requires Valid()
      ensures os == ChildrenText(Tree(), prefix, Sorted(child.Keys), |Sorted(child.Keys)|)
      decreases Repr, 0, 1
    {
      var ks := Walk(child.Keys);
      ghost var t := Tree();
      hide ChildText, Sorted;
      os := "";
      for i := 0 to |ks|
        invariant Tree() == t
        invariant os == ChildrenText(t, prefix, ks, i)
      {
        SortedMember(child.Keys, i);
        var below := OutputChild(prefix, ks[i]);
        os := os + below;
      }
    }

    method OutputChild(prefix: string, k: string) returns (os: string)
      requires Valid() && k in child
      ensures os == ChildText(Tree(), prefix, k)
      decreases Repr, 0, 0
    {
      os := child[k].Output(prefix + k);
    }

    method AddAttr(keyvalue: string)
      modifies this`attr
      ensures attr == WithAttr(old(attr), keyvalue)
    {
      var pos := IndexOf(keyvalue, '=');
      attr := attr[keyvalue[..pos] := if pos == |keyvalue| then "" else keyvalue[pos + 1..]];
    }
  }

  lemma {:induction false} AtInside(root: PersistNode, p: Path, n: PersistNode)
    requires root.Valid() && root.At(p, n)
    ensures n in root.Repr && n.Repr <= root.Repr && n.Valid() && Lookup(root.Tree(), p) == Some(n.attr)
    decreases |p|
  {
    if p != [] {
      AtInside(root.child[p[0]], p[1..], n);
    }
  }

  lemma TreeIs(root: PersistNode, t: Tree)
    requires root.Valid() && t.attr == root.attr && t.child.Keys == root.child.Keys
    requires forall k :: k in root.child ==> t.child[k] == root.child[k].Tree()
    ensures root.Tree() == t
  {
    assert root.Tree().child == t.child;
  }

  /** A change inside one child, which may have grown by new nodes. */
  twostate lemma ChildChanged(root: PersistNode, new key: string)
    requires old(root.Valid()) && key in root.child
    requires root.child == old(root.child) && root.attr == old(root.attr)
    requires root.child[key].Valid()
    requires fresh(root.child[key].Repr - old(root.child[key].Repr))
    requires root.Repr == old(root.Repr) + root.child[key].Repr
    requires root !in root.child[key].Repr
    requires forall o :: o in old(root.Repr) && o != root && o !in old(root.child[key].Repr) ==> unchanged(o)
    ensures root.Valid() && fresh(root.Repr - old(root.Repr))
    ensures root.Tree() == WithChild(old(root.Tree()), key, root.child[key].Tree())
  {
    forall k | k in root.child && k != key
      ensures root.child[k].Repr == old(root.child[k].Repr)
      ensures root.child[k].Valid() && root.child[k].Tree() == old(root.child[k].Tree())
    {
      assert old(root.Apart(k, key));
      assert forall o :: o in old(root.child[k].Repr) ==> unchanged(o);
    }
    forall k, j | k in root.child && j in root.child && k != j ensures root.Apart(k, j) {
      assert old(root.Apart(k, j));
    }
    TreeIs(root, WithChild(old(root.Tree()), key, root.child[key].Tree()));
  }

  /** Changing one node's attributes changes the tree at that node's path and nowhere else. */
  twostate lemma {:induction false} AttrChanged(root: PersistNode, new p: Path, new leaf: PersistNode)
    requires old(root.Valid()) && leaf in old(root.Repr) && old(root.At(p, leaf))
    requires forall o :: o in old(root.Repr) && o != leaf ==> unchanged(o)
    requires unchanged(leaf`child) && unchanged(leaf`Repr)
    ensures root.Valid() && root.At(p, leaf)
    ensures root.Tree() == SetAttrs(old(root.Tree()), p, leaf.attr)
    decreases |p|
  {
    if p == [] {
      forall k | k in root.child
        ensures root.child[k].Valid() && root.child[k].Tree() == old(root.child[k].Tree())
      {
        assert forall o :: o in old(root.child[k].Repr) ==> unchanged(o);
      }
      forall k, j | k in root.child && j in root.child && k != j ensures root.Apart(k, j) {
        assert old(root.Apart(k, j));
      }
    } else {
      AttrChanged(root.child[p[0]], p[1..], leaf);
      assert leaf in root.child[p[0]].Repr by {
        AtInside(root.child[p[0]], p[1..], leaf);
      }
      ChildChanged(root, p[0]);
    }
  }

  lemma NextAttrLine(m: Attrs, head: string, ks: seq<string>, i: nat)
    requires i < |ks| && ks[i] in m
    ensures head + AttrLines(m, ks, i) + (" " + ks[i] + "=" + m[ks[i]] + "\n") == head + AttrLines(m, ks, i + 1)
  {
    ConcatAssoc(head, AttrLines(m, ks, i), AttrLine(m, ks[i]));
  }
}
