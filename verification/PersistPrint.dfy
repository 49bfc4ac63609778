/** PersistNode::output, and the proof that the reader undoes it. */
module PersistPrint {
  import opened Text
  import opened PersistTree
  import opened PersistFormat

  // ---------- the order in which a std::map is walked ----------

  predicate Leq(a: string, b: string) {
    if a == "" then true
    else if b == "" then false
    else if a[0] != b[0] then a[0] < b[0]
    else Leq(a[1..], b[1..])
  }

  lemma {:induction false} LeqTotal(a: string, b: string)
    ensures Leq(a, b) || Leq(b, a)
    ensures Leq(a, b) && Leq(b, a) ==> a == b
  {
    if a != "" && b != "" && a[0] == b[0] {
      LeqTotal(a[1..], b[1..]);
      assert a == [a[0]] + a[1..] && b == [b[0]] + b[1..];
    }
  }

  lemma {:induction false} LeqTransitive(a: string, b: string, c: string)
    requires Leq(a, b) && Leq(b, c)
    ensures Leq(a, c)
  {
    if a != "" && b != "" && c != "" && a[0] == b[0] && b[0] == c[0] {
      LeqTransitive(a[1..], b[1..], c[1..]);
    }
  }

  predicate IsLeast(k: string, s: set<string>) {
    k in s && forall j :: j in s ==> Leq(k, j)
  }

  lemma {:induction false} LeastExists(s: set<string>)
    requires s != {}
    ensures exists k :: IsLeast(k, s)
  {
    var k :| k in s;
    LeqTotal(k, k);
    if s == {k} {
      assert IsLeast(k, s);
    } else {
      LeastExists(s - {k});
      var m :| IsLeast(m, s - {k});
      LeqTotal(k, m);
      if Leq(m, k) {
        assert IsLeast(m, s);
      } else {
        forall j | j in s ensures Leq(k, j) {
          if j != k {
            LeqTransitive(k, m, j);
          }
        }
        assert IsLeast(k, s);
      }
    }
  }

  ghost function Sorted(s: set<string>): seq<string>
    decreases |s|
  {
    if s == {} then []
    else
      LeastExists(s);
      var k :| IsLeast(k, s);
      [k] + Sorted(s - {k})
  }

  lemma {:induction false} SortedMembers(s: set<string>)
    ensures forall k :: k in Sorted(s) <==> k in s
    decreases |s|
  {
    if s != {} {
      LeastExists(s);
      var k :| IsLeast(k, s) && Sorted(s) == [k] + Sorted(s - {k});
      SortedMembers(s - {k});
    }
  }

  lemma SortedMember(s: set<string>, i: nat)
    requires i < |Sorted(s)|
    ensures Sorted(s)[i] in s
  {
    SortedMembers(s);
  }

  lemma LeastUnique(s: set<string>, k: string, j: string)
    requires IsLeast(k, s) && IsLeast(j, s)
    ensures k == j
  {
    LeqTotal(k, j);
  }

  lemma SortedStep(s: set<string>, k: string)
    requires IsLeast(k, s)
    ensures Sorted(s) == [k] + Sorted(s - {k})
  {
    LeastExists(s);
    var j :| IsLeast(j, s) && Sorted(s) == [j] + Sorted(s - {j});
    LeastUnique(s, k, j);
  }

  /** Each key once, in ascending order. */
  lemma {:induction false} SortedAscends(s: set<string>, i: nat, j: nat)
    requires i < j < |Sorted(s)|
    ensures Leq(Sorted(s)[i], Sorted(s)[j]) && Sorted(s)[i] != Sorted(s)[j]
    decreases |s|
  {
    LeastExists(s);
    var k :| IsLeast(k, s) && Sorted(s) == [k] + Sorted(s - {k});
    SortedMembers(s - {k});
    if i == 0 {
      assert Sorted(s)[j] in Sorted(s - {k});
    } else {
      SortedAscends(s - {k}, i - 1, j - 1);
    }
  }

  // ---------- output ----------

  function Value(m: Attrs, k: string): string {
    if k in m then m[k] else ""
  }

  function Pairs(m: Attrs, ks: seq<string>): (ps: seq<(string, string)>)
    ensures |ps| == |ks| && forall i :: 0 <= i < |ks| ==> ps[i] == (ks[i], Value(m, ks[i]))
  {
    seq(|ks|, i requires 0 <= i < |ks| => (ks[i], Value(m, ks[i])))
  }

  ghost function AttrList(m: Attrs): seq<(string, string)> {
    Pairs(m, Sorted(m.Keys))
  }

  lemma {:induction false} AttrMapPairs(m: Attrs, ks: seq<string>)
    requires forall k :: k in ks ==> k in m
    ensures AttrMap(Pairs(m, ks)) == map k | k in ks :: m[k]
  {
    if ks != [] {
      var n := |ks| - 1;
      AttrMapPairs(m, ks[..n]);
      assert Pairs(m, ks)[..n] == Pairs(m, ks[..n]);
      assert ks == ks[..n] + [ks[n]];
    }
  }

  lemma AttrMapAttrList(m: Attrs)
    ensures AttrMap(AttrList(m)) == m
  {
    SortedMembers(m.Keys);
    AttrMapPairs(m, Sorted(m.Keys));
  }

  /** One attribute, on a line of its own. */
  function AttrLine(m: Attrs, k: string): string {
    " " + k + "=" + Value(m, k) + "\n"
  }

  /** The lines of the first i attributes. */
  function AttrLines(m: Attrs, ks: seq<string>, i: nat): string
    requires i <= |ks|
  {
    if i == 0 then "" else AttrLines(m, ks, i - 1) + AttrLine(m, ks[i - 1])
  }

  ghost function RecordLines(m: Attrs, name: string): string {
    var ks := Sorted(m.Keys);
    name + "\n" + AttrLines(m, ks, |ks|) + " ;;\n"
  }

  /** The characters that output(os, name) writes. The root is the call with an empty
      name: it writes no record of its own. */
  ghost function TreeText(t: Tree, name: string): string
    decreases t, 1, 0
  {
    var ks := Sorted(t.child.Keys);
    if name == "" then ChildrenText(t, "", ks, |ks|)
    else RecordLines(t.attr, name) + ChildrenText(t, name + "/", ks, |ks|)
  }

  /** The first i children. */
  ghost function ChildrenText(t: Tree, prefix: string, ks: seq<string>, i: nat): string
    requires i <= |ks|
    decreases t, 0, i
  {
    if i == 0 then ""
    else ChildrenText(t, prefix, ks, i - 1) + ChildText(t, prefix, ks[i - 1])
  }

  ghost function ChildText(t: Tree, prefix: string, k: string): string
    decreases t, 0, 0
  {
    if k in t.child then TreeText(t.child[k], prefix + k) else ""
  }

  lemma {:induction false} LinesFrom(m: Attrs, ks: seq<string>, i: nat, line: string)
    requires i <= |ks|
    requires line + "\n" == "\n" + AttrLines(m, ks, i)
    ensures line + RecordBody(Pairs(m, ks[i..]), "\n") == "\n" + AttrLines(m, ks, |ks|) + " ;;\n"
    decreases |ks| - i
  {
    hide RecordBody, Pairs, AttrWord, Value;
    if i == |ks| {
      assert ks[i..] == [];
      LastLine(m, line, AttrLines(m, ks, i));
    } else {
      var next := line + "\n" + " " + AttrWord((ks[i], Value(m, ks[i])));
      NextLine(line, AttrLines(m, ks, i), ks[i], Value(m, ks[i]));
      LinesFrom(m, ks, i + 1, next);
      assert ks[i..] == [ks[i]] + ks[i + 1..];
      BodyStep(m, ks[i], ks[i + 1..], line);
    }
  }

  lemma LastLine(m: Attrs, line: string, lines: string)
    requires line + "\n" == "\n" + lines
    ensures line + RecordBody(Pairs(m, []), "\n") == "\n" + lines + " ;;\n"
  {
    assert Pairs(m, []) == [];
    assert line + RecordBody([], "\n") == (line + "\n") + " ;;\n";
  }

  lemma NextLine(line: string, lines: string, k: string, v: string)
    requires line + "\n" == "\n" + lines
    ensures (line + "\n" + " " + AttrWord((k, v))) + "\n" == "\n" + (lines + (" " + k + "=" + v + "\n"))
  {
    var tail := " " + k + "=" + v + "\n";
    assert (line + "\n" + " " + AttrWord((k, v))) + "\n" == (line + "\n") + tail;
    assert ("\n" + lines) + tail == "\n" + (lines + tail);
  }

  lemma BodyStep(m: Attrs, k: string, ks: seq<string>, line: string)
    ensures line + RecordBody(Pairs(m, [k] + ks), "\n")
         == (line + "\n" + " " + AttrWord((k, Value(m, k)))) + RecordBody(Pairs(m, ks), "\n")
  {
    assert Pairs(m, [k] + ks) == [(k, Value(m, k))] + Pairs(m, ks);
    var w, b := AttrWord((k, Value(m, k))), RecordBody(Pairs(m, ks), "\n");
    assert line + ("\n" + " " + w + b) == (line + "\n" + " " + w) + b;
  }

  lemma RecordLinesBody(m: Attrs, name: string)
    ensures RecordLines(m, name) == name + RecordBody(AttrList(m), "\n")
  {
    hide RecordBody, Pairs, Sorted;
    var ks := Sorted(m.Keys);
    var lines, body := AttrLines(m, ks, |ks|), RecordBody(AttrList(m), "\n");
    assert ks[0..] == ks && "" + "\n" == "\n" + AttrLines(m, ks, 0);
    LinesFrom(m, ks, 0, "");
    assert "" + body == body;
    assert name + "\n" + lines + " ;;\n" == name + ("\n" + lines + " ;;\n");
  }

  /** The same, as a list of records. */
  ghost function TreeLog(t: Tree, p: Path): (log: seq<Entry>)
    requires |p| > 0
    decreases t, 1, 0
  {
    var ks := Sorted(t.child.Keys);
    [Head(t, p)] + ChildrenLog(t, p, ks, |ks|)
  }

  ghost function ChildrenLog(t: Tree, p: Path, ks: seq<string>, i: nat): (log: seq<Entry>)
    requires i <= |ks|
    decreases t, 0, i
  {
    if i == 0 then [] else ChildrenLog(t, p, ks, i - 1) + ChildLog(t, p, ks[i - 1])
  }

  ghost function ChildLog(t: Tree, p: Path, k: string): seq<Entry>
    decreases t, 0, 0
  {
    if k in t.child then TreeLog(t.child[k], p + [k]) else []
  }

  ghost function Head(t: Tree, p: Path): Entry
    requires |p| > 0
  {
    Entry(Record(p, AttrList(t.attr)), "\n")
  }

  // ---------- which trees can be printed ----------

  /** Attributes and names below the first level fit the format. */
  ghost predicate Clean(t: Tree)
    decreases t
  {
    && (forall k :: k in t.attr ==> SafeAttr((k, t.attr[k])))
    && (forall k :: k in t.child ==> NoSpace(k) && '/' !in k && Clean(t.child[k]))
  }

  ghost predicate Printable(t: Tree) {
    && t.attr == map[]
    && forall k :: k in t.child ==> SafeName(k) && '/' !in k && Clean(t.child[k])
  }

  lemma SafeNameBelow(p: Path, k: string)
    requires |p| > 0 && SafeName(Join(p)) && NoSlash(p) && NoSpace(k) && '/' !in k
    ensures NoSlash(p + [k]) && SafeName(Join(p + [k])) && Join(p + [k]) == Join(p) + "/" + k
  {
    hide Join;
    JoinSnoc(p, k);
    var s := Join(p) + "/" + k;
    assert s[|Join(p)|] == '/';
    assert s[0] == Join(p)[0];
  }

  lemma {:induction false} TreeLogSafe(t: Tree, p: Path)
    requires |p| > 0 && SafeName(Join(p)) && NoSlash(p) && Clean(t)
    ensures SafeLog(TreeLog(t, p)) && LogText(TreeLog(t, p)) == TreeText(t, Join(p))
    decreases t, 1, 0
  {
    var ks := Sorted(t.child.Keys);
    SortedMembers(t.child.Keys);
    forall k | k in ks ensures Grows(p, Join(p) + "/", k) {
      SafeNameBelow(p, k);
    }
    ChildrenLogSafe(t, p, Join(p) + "/", ks, |ks|);
    HeadSafe(t, p);
    LogTextCons(Head(t, p), ChildrenLog(t, p, ks, |ks|));
    RecordLinesBody(t.attr, Join(p));
  }

  lemma HeadSafe(t: Tree, p: Path)
    requires |p| > 0 && SafeName(Join(p)) && NoSlash(p) && Clean(t)
    ensures SafeOp(Head(t, p).op)
  {
    var ps := AttrList(t.attr);
    SortedMembers(t.attr.Keys);
    forall i | 0 <= i < |ps| ensures SafeAttr(ps[i]) {
      assert ps[i].0 in Sorted(t.attr.Keys);
    }
  }

  ghost predicate Grows(p: Path, prefix: string, k: string) {
    SafeName(Join(p + [k])) && NoSlash(p + [k]) && Join(p + [k]) == prefix + k
  }

  lemma {:induction false} ChildrenLogSafe(t: Tree, p: Path, prefix: string, ks: seq<string>, i: nat)
    requires i <= |ks| && forall k :: k in ks ==> k in t.child && Clean(t.child[k])
    requires forall k :: k in ks ==> Grows(p, prefix, k)
    ensures SafeLog(ChildrenLog(t, p, ks, i)) && LogText(ChildrenLog(t, p, ks, i)) == ChildrenText(t, prefix, ks, i)
    decreases t, 0, i
  {
    NothingLogged();
    hide SafeLog, LogText, ChildLog, ChildText, Clean, Grows;
    if i != 0 {
      var k := ks[i - 1];
      assert k in ks;
      ChildrenLogSafe(t, p, prefix, ks, i - 1);
      ChildLogSafe(t, p, prefix, k);
      SafeLogConcat(ChildrenLog(t, p, ks, i - 1), ChildLog(t, p, k));
    }
  }

  lemma ChildLogSafe(t: Tree, p: Path, prefix: string, k: string)
    requires k in t.child && Clean(t.child[k]) && Grows(p, prefix, k)
    ensures SafeLog(ChildLog(t, p, k)) && LogText(ChildLog(t, p, k)) == ChildText(t, prefix, k)
    decreases t, 0, 0
  {
    hide Clean, SafeLog, LogText, TreeLog, TreeText, Join, SafeName;
    TreeLogSafe(t.child[k], p + [k]);
  }

  lemma NothingLogged()
    ensures SafeLog([]) && LogText([]) == ""
  {
  }

  lemma SafeLogConcat(a: seq<Entry>, b: seq<Entry>)
    requires SafeLog(a) && SafeLog(b)
    ensures SafeLog(a + b) && LogText(a + b) == LogText(a) + LogText(b)
  {
    LogTextConcat(a, b);
  }

  // ---------- reading a printed tree ----------

  lemma {:induction false} ApplyTree(acc: Tree, p: Path, t: Tree)
    requires |p| > 0
    ensures ApplyLog(acc, TreeLog(t, p)) == Put(acc, p, t)
    decreases t, 1, 0
  {
    var ks := Sorted(t.child.Keys);
    SortedMembers(t.child.Keys);
    AttrMapAttrList(t.attr);
    ApplyLogCons(acc, Head(t, p), ChildrenLog(t, p, ks, |ks|));
    ApplyChildren(acc, p, t, ks, |ks|);
    OnlyAll(t, ks);
  }

  /** t with only the first i of its children. */
  ghost function Only(t: Tree, ks: seq<string>, i: nat): Tree
    requires i <= |ks|
  {
    t.(child := map k | k in t.child && k in ks[..i] :: t.child[k])
  }

  lemma OnlyAll(t: Tree, ks: seq<string>)
    requires forall k :: k in t.child ==> k in ks
    ensures Only(t, ks, |ks|) == t
  {
    assert ks[..|ks|] == ks;
    assert Only(t, ks, |ks|).child == t.child;
  }

  lemma OnlyOneMore(t: Tree, ks: seq<string>, i: nat)
    requires i < |ks| && ks[i] in t.child
    ensures Put(Only(t, ks, i), [ks[i]], t.child[ks[i]]) == Only(t, ks, i + 1)
  {
    PutChild(Only(t, ks, i), ks[i], t.child[ks[i]]);
    assert ks[..i + 1] == ks[..i] + [ks[i]];
    assert Only(t, ks, i).child[ks[i] := t.child[ks[i]]] == Only(t, ks, i + 1).child;
  }

  lemma {:induction false} ApplyChildren(acc: Tree, p: Path, t: Tree, ks: seq<string>, i: nat)
    requires i <= |ks| && forall k :: k in ks ==> k in t.child
    ensures ApplyLog(Put(acc, p, Node(t.attr, map[])), ChildrenLog(t, p, ks, i)) == Put(acc, p, Only(t, ks, i))
    decreases t, 0, i
  {
    var x := Put(acc, p, Node(t.attr, map[]));
    if i == 0 {
      assert Only(t, ks, 0) == Node(t.attr, map[]);
    } else {
      hide Put, ApplyLog, Only, ChildLog;
      ApplyLogConcat(x, ChildrenLog(t, p, ks, i - 1), ChildLog(t, p, ks[i - 1]));
      ApplyChildren(acc, p, t, ks, i - 1);
      ApplyChild(acc, p, t, ks, i - 1);
    }
  }

  lemma ApplyChild(acc: Tree, p: Path, t: Tree, ks: seq<string>, i: nat)
    requires i < |ks| && ks[i] in t.child
    ensures ApplyLog(Put(acc, p, Only(t, ks, i)), ChildLog(t, p, ks[i])) == Put(acc, p, Only(t, ks, i + 1))
    decreases t, 0, 0
  {
    hide Put, ApplyLog, Only, TreeLog;
    var k, c := ks[i], t.child[ks[i]];
    ApplyTree(Put(acc, p, Only(t, ks, i)), p + [k], c);
    PutPut(acc, p, Only(t, ks, i), [k], c);
    OnlyOneMore(t, ks, i);
  }

  /** Round trip: the reader rebuilds any printable tree from what output() wrote. */
  lemma RoundTrip(t: Tree)
    requires Printable(t)
    ensures Parse(TreeText(t, "")) == t
  {
    var ks := Sorted(t.child.Keys);
    SortedMembers(t.child.Keys);
    forall k | k in ks ensures Grows([], "", k) {
      assert [] + [k] == [k];
    }
    ChildrenLogSafe(t, [], "", ks, |ks|);
    var log := ChildrenLog(t, [], ks, |ks|);
    assert LogText(log) + "" == TreeText(t, "");
    Replay(log, "");
    ApplyChildren(EMPTY, [], t, ks, |ks|);
    OnlyAll(t, ks);
  }
}
