/** The value of a persistent tree, and the updates a log record makes to it. */
module PersistTree {
  import opened Text
  import opened Wrappers

  type Attrs = map<string, string>

  datatype Tree = Node(attr: Attrs, child: map<string, Tree>)

  const EMPTY := Node(map[], map[])

  type Path = seq<string>

  /** The path of a node other than the root. */
  type Name = p: Path | |p| > 0 witness [""]

  /** The attributes of the node at p, if there is one. */
  function Lookup(t: Tree, p: Path): Option<Attrs>
    decreases |p|
  {
    if p == [] then Some(t.attr)
    else if p[0] in t.child then Lookup(t.child[p[0]], p[1..])
    else None
  }

  /** The subtree at p, the empty tree where there is none. */
  function Sub(t: Tree, p: Path): Tree
    decreases |p|
  {
    if p == [] then t
    else if p[0] in t.child then Sub(t.child[p[0]], p[1..])
    else EMPTY
  }

  /** t with the subtree at p replaced by s; missing branches are made. */
  function Put(t: Tree, p: Path, s: Tree): Tree
    decreases |p|
  {
    if p == [] then s
    else
      var sub := if p[0] in t.child then t.child[p[0]] else EMPTY;
      t.(child := t.child[p[0] := Put(sub, p[1..], s)])
  }

  /** What addnode does: a fresh empty leaf. */
  function Add(t: Tree, p: Path): Tree {
    Put(t, p, EMPTY)
  }

  /** What delnode does. */
  function Del(t: Tree, p: Path): Tree
    requires |p| > 0
    decreases |p|
  {
    if p[0] !in t.child then t
    else if |p| == 1 then t.(child := t.child - {p[0]})
    else t.(child := t.child[p[0] := Del(t.child[p[0]], p[1..])])
  }

  /** t with the attributes at p replaced. */
  function SetAttrs(t: Tree, p: Path, a: Attrs): Tree
    decreases |p|
  {
    if p == [] then t.(attr := a)
    else if p[0] !in t.child then t
    else t.(child := t.child[p[0] := SetAttrs(t.child[p[0]], p[1..], a)])
  }

  // ---------- paths ----------

  /** q is p or lies below it. */
  predicate Extends(q: Path, p: Path) {
    p <= q
  }

  predicate Incomparable(p: Path, q: Path) {
    !Extends(p, q) && !Extends(q, p)
  }

  // ---------- trees are determined by their lookups ----------

  lemma {:induction false} LookupChild(t: Tree, k: string, p: Path)
    ensures Lookup(t, [k] + p) == if k in t.child then Lookup(t.child[k], p) else None
  {
    assert ([k] + p)[1..] == p;
  }

  lemma {:induction false} Extensional(a: Tree, b: Tree)
    requires forall p :: Lookup(a, p) == Lookup(b, p)
    ensures a == b
    decreases a
  {
    assert Lookup(a, []) == Lookup(b, []);
    forall k
      ensures k in a.child <==> k in b.child
      ensures k in a.child && k in b.child ==> a.child[k] == b.child[k]
    {
      LookupChild(a, k, []);
      LookupChild(b, k, []);
      assert Lookup(a, [k] + []) == Lookup(b, [k] + []);
      if k in a.child && k in b.child {
        forall p ensures Lookup(a.child[k], p) == Lookup(b.child[k], p) {
          LookupChild(a, k, p);
          LookupChild(b, k, p);
        }
        Extensional(a.child[k], b.child[k]);
      }
    }
  }

  /** The domain is prefix-closed. */
  lemma {:induction false} PrefixClosed(t: Tree, p: Path, q: Path)
    requires Extends(q, p) && Lookup(t, q).Some?
    ensures Lookup(t, p).Some?
    decreases |p|
  {
    if p != [] {
      PrefixClosed(t.child[p[0]], p[1..], q[1..]);
    }
  }

  // ---------- the updates as updates of a prefix-closed map ----------

  /** Put replaces exactly the paths that extend p, creates the missing prefixes of p
      as bare nodes, and leaves every other path alone. */
  lemma {:induction false} LookupPut(t: Tree, p: Path, s: Tree, q: Path)
    ensures Lookup(Put(t, p, s), q) ==
            if Extends(q, p) then Lookup(s, q[|p|..])
            else if Extends(p, q) && Lookup(t, q).None? then Some(map[])
            else Lookup(t, q)
    decreases |p|
  {
    if p == [] {
      assert q[0..] == q;
    } else if q != [] && q[0] == p[0] {
      var sub := if p[0] in t.child then t.child[p[0]] else EMPTY;
      LookupPut(sub, p[1..], s, q[1..]);
      assert q == [q[0]] + q[1..] && p == [p[0]] + p[1..];
      assert Extends(q, p) <==> Extends(q[1..], p[1..]);
      assert Extends(p, q) <==> Extends(p[1..], q[1..]);
      if Extends(q, p) {
        assert q[1..][|p| - 1..] == q[|p|..];
      }
      if p[0] !in t.child && q[1..] != [] {
        assert Lookup(EMPTY, q[1..]) == None;
      }
    }
  }

  /** Del removes exactly the paths that extend p. */
  lemma {:induction false} LookupDel(t: Tree, p: Path, q: Path)
    requires |p| > 0
    ensures Lookup(Del(t, p), q) == if Extends(q, p) then None else Lookup(t, q)
    decreases |p|
  {
    if q != [] && q[0] == p[0] {
      assert p == [p[0]] + p[1..] && q == [q[0]] + q[1..];
      assert Extends(q, p) <==> Extends(q[1..], p[1..]);
      if p[0] in t.child && |p| > 1 {
        LookupDel(t.child[p[0]], p[1..], q[1..]);
      }
    }
  }

  /** SetAttrs changes the one path p, if it is there. */
  lemma {:induction false} LookupSetAttrs(t: Tree, p: Path, a: Attrs, q: Path)
    ensures Lookup(SetAttrs(t, p, a), q) ==
            if q == p && Lookup(t, p).Some? then Some(a) else Lookup(t, q)
    decreases |p|
  {
    if p != [] && q != [] && p[0] in t.child && q[0] == p[0] {
      LookupSetAttrs(t.child[p[0]], p[1..], a, q[1..]);
      assert p == [p[0]] + p[1..] && q == [q[0]] + q[1..];
    }
  }

  // ---------- algebra of the updates ----------

  lemma DelIdempotent(t: Tree, p: Path)
    requires |p| > 0
    ensures Del(Del(t, p), p) == Del(t, p)
  {
    forall q ensures Lookup(Del(Del(t, p), p), q) == Lookup(Del(t, p), q) {
      LookupDel(t, p, q);
      LookupDel(Del(t, p), p, q);
    }
    Extensional(Del(Del(t, p), p), Del(t, p));
  }

  lemma PutOverwrites(t: Tree, p: Path, s: Tree, s': Tree)
    ensures Put(Put(t, p, s), p, s') == Put(t, p, s')
  {
    forall q ensures Lookup(Put(Put(t, p, s), p, s'), q) == Lookup(Put(t, p, s'), q) {
      LookupPut(t, p, s, q);
      LookupPut(Put(t, p, s), p, s', q);
      LookupPut(t, p, s', q);
    }
    Extensional(Put(Put(t, p, s), p, s'), Put(t, p, s'));
  }

  lemma DelDelCommute(t: Tree, p: Path, r: Path)
    requires |p| > 0 && |r| > 0
    ensures Del(Del(t, p), r) == Del(Del(t, r), p)
  {
    forall q ensures Lookup(Del(Del(t, p), r), q) == Lookup(Del(Del(t, r), p), q) {
      LookupDel(t, p, q);
      LookupDel(t, r, q);
      LookupDel(Del(t, p), r, q);
      LookupDel(Del(t, r), p, q);
    }
    Extensional(Del(Del(t, p), r), Del(Del(t, r), p));
  }

  lemma PutPutCommute(t: Tree, p: Path, s: Tree, r: Path, u: Tree)
    requires Incomparable(p, r)
    ensures Put(Put(t, p, s), r, u) == Put(Put(t, r, u), p, s)
  {
    var a, b := Put(Put(t, p, s), r, u), Put(Put(t, r, u), p, s);
    forall q ensures Lookup(a, q) == Lookup(b, q) {
      LookupPut(t, p, s, q);
      LookupPut(t, r, u, q);
      LookupPut(Put(t, p, s), r, u, q);
      LookupPut(Put(t, r, u), p, s, q);
      NotBoth(p, r, q);
    }
    Extensional(a, b);
  }

  lemma PutDelCommute(t: Tree, p: Path, s: Tree, r: Path)
    requires |r| > 0 && Incomparable(p, r)
    ensures Del(Put(t, p, s), r) == Put(Del(t, r), p, s)
  {
    var a, b := Del(Put(t, p, s), r), Put(Del(t, r), p, s);
    forall q ensures Lookup(a, q) == Lookup(b, q) {
      LookupPut(t, p, s, q);
      LookupDel(t, r, q);
      LookupDel(Put(t, p, s), r, q);
      LookupPut(Del(t, r), p, s, q);
      NotBoth(p, r, q);
    }
    Extensional(a, b);
  }

  lemma NotBoth(p: Path, r: Path, q: Path)
    requires Incomparable(p, r)
    ensures !(Extends(q, p) && Extends(q, r))
    ensures !(Extends(q, p) && Extends(r, q))
    ensures !(Extends(q, r) && Extends(p, q))
  {}

  lemma {:induction false} SetAttrsPut(t: Tree, p: Path, s: Tree, a: Attrs)
    ensures SetAttrs(Put(t, p, s), p, a) == Put(t, p, s.(attr := a))
    decreases |p|
  {
    if p != [] {
      var sub := if p[0] in t.child then t.child[p[0]] else EMPTY;
      SetAttrsPut(sub, p[1..], s, a);
    }
  }

  /** Putting at an extension of p is putting inside the subtree at p. */
  lemma {:induction false} PutPut(t: Tree, p: Path, s: Tree, r: Path, u: Tree)
    ensures Put(Put(t, p, s), p + r, u) == Put(t, p, Put(s, r, u))
    decreases |p|
  {
    if p == [] {
      assert p + r == r;
    } else {
      var sub := if p[0] in t.child then t.child[p[0]] else EMPTY;
      assert (p + r)[1..] == p[1..] + r;
      PutPut(sub, p[1..], s, r, u);
    }
  }

  // ---------- one component at a time, as addnode and delnode work ----------

  function WithChild(t: Tree, key: string, s: Tree): Tree {
    t.(child := t.child[key := s])
  }

  function ChildOrEmpty(t: Tree, key: string): Tree {
    if key in t.child then t.child[key] else EMPTY
  }

  lemma SplitPeels(name: string, key: string, rest: string)
    requires IndexOf(name, '/') < |name| && key == name[..IndexOf(name, '/')] && rest == name[IndexOf(name, '/') + 1..]
    ensures Split(name) == [key] + Split(rest)
  {}

  lemma SplitLeaf(name: string)
    requires IndexOf(name, '/') == |name|
    ensures Split(name) == [name]
  {}

  lemma PutPeels(t: Tree, key: string, p: Path, s: Tree)
    ensures Put(t, [key] + p, s) == WithChild(t, key, Put(ChildOrEmpty(t, key), p, s))
  {
    var q := [key] + p;
    assert q[0] == key && q[1..] == p;
  }

  lemma PutChild(t: Tree, key: string, s: Tree)
    ensures Put(t, [key], s) == WithChild(t, key, s)
  {
    assert [key] == [key] + [];
    PutPeels(t, key, [], s);
  }

  lemma DelPeels(t: Tree, key: string, p: Path)
    requires |p| > 0
    ensures Del(t, [key] + p) == if key in t.child then WithChild(t, key, Del(t.child[key], p)) else t
  {
    var q := [key] + p;
    assert q[0] == key && q[1..] == p;
  }

  lemma DelChild(t: Tree, key: string)
    ensures Del(t, [key]) == t.(child := t.child - {key})
  {
    if key !in t.child {
      assert t.child - {key} == t.child;
    }
  }

  /** First the branch, then the rest of the path below it. */
  lemma AddInTwo(t: Tree, key: string, p: Path)
    ensures var t1 := WithChild(t, key, ChildOrEmpty(t, key));
            WithChild(t1, key, Add(t1.child[key], p)) == Add(t, [key] + p)
  {
    PutPeels(t, key, p, EMPTY);
    var c := Add(ChildOrEmpty(t, key), p);
    assert t.child[key := ChildOrEmpty(t, key)][key := c] == t.child[key := c];
  }
}
