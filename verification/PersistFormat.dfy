/** The persistence file format: how a word stream is folded into a tree, and what the
    records that the server writes do to that tree. */
module PersistFormat {
  import opened Text
  import opened PersistTree
  import opened Wrappers

  // ---------- reading ----------

  /** addattr: the key ends at the first '=', and a missing '=' leaves the value empty. */
  function WithAttr(a: Attrs, w: string): Attrs {
    var i := IndexOf(w, '=');
    a[w[..i] := if i == |w| then "" else w[i + 1..]]
  }

  function AddAttr(t: Tree, p: Path, w: string): Tree {
    match Lookup(t, p)
    case Some(a) => SetAttrs(t, p, WithAttr(a, w))
    case None => t
  }

  /** The reader's cursor: the node that attributes go to, or none between records. */
  type Cursor = Option<Name>

  /** What readnode does with one word other than ";;". */
  function ApplyWord(t: Tree, cur: Cursor, w: string): (r: (Tree, Cursor))
    requires w != ""
  {
    if cur.Some? then (AddAttr(t, cur.value, w), cur)
    else if w[0] == '-' then (Del(t, Split(w[1..])), None)
    else (Add(t, Split(w)), Some(Split(w)))
  }

  /** The reader's loops, as one fold over the words that are left. `last` is what the
      word buffer holds. When the stream runs dry the buffer keeps its old value, so a
      record that is not closed by ";;" has its last word applied a second time. */
  function ReadWords(t: Tree, cur: Cursor, words: seq<string>, last: string): Tree
    requires forall i :: 0 <= i < |words| ==> IsWord(words[i])
    decreases |words|
  {
    if words == [] then
      if last == "" || last[0] == '#' then t else ApplyWord(t, cur, last).0
    else
      var w := words[0];
      assert IsWord(words[0]);
      if w[0] == '#' then ReadWords(t, cur, words[1..], w)
      else if w == ";;" then
        if cur.Some? then ReadWords(t, None, words[1..], "") else t
      else
        var (t', cur') := ApplyWord(t, cur, w);
        ReadWords(t', cur', words[1..], w)
  }

  /** The tree that the PersistNode(istream&) constructor builds. */
  function Parse(text: string): Tree {
    ReadWords(EMPTY, None, Lex(text), "")
  }

  // ---------- records ----------

  datatype Op =
    | Record(path: Name, attrs: seq<(string, string)>)
    | Erase(path: Name)

  function AttrWord(kv: (string, string)): string {
    kv.0 + "=" + kv.1
  }

  function AttrMap(attrs: seq<(string, string)>): Attrs {
    if attrs == [] then map[]
    else AttrMap(attrs[..|attrs| - 1])[attrs[|attrs| - 1].0 := attrs[|attrs| - 1].1]
  }

  predicate SafeAttr(kv: (string, string)) {
    NoSpace(kv.0) && NoSpace(kv.1) && '=' !in kv.0 && (kv.0 != "" ==> kv.0[0] != '#')
  }

  predicate SafeName(s: string) {
    IsWord(s) && s[0] != '-' && s[0] != '#' && s != ";;"
  }

  predicate SafeOp(op: Op) {
    && NoSlash(op.path)
    && match op
       case Record(p, attrs) => SafeName(Join(p)) && forall i :: 0 <= i < |attrs| ==> SafeAttr(attrs[i])
       case Erase(p) => NoSpace(Join(p))
  }

  predicate SafeOps(ops: seq<Op>) {
    forall i :: 0 <= i < |ops| ==> SafeOp(ops[i])
  }

  /** What a record means. */
  function ApplyOp(t: Tree, op: Op): Tree
  {
    match op
    case Record(p, attrs) => Put(t, p, Node(AttrMap(attrs), map[]))
    case Erase(p) => Del(t, p)
  }

  function ApplyOps(t: Tree, ops: seq<Op>): Tree
    decreases |ops|
  {
    if ops == [] then t else ApplyOps(ApplyOp(t, ops[0]), ops[1..])
  }

  lemma {:induction false} ApplyOpsConcat(t: Tree, a: seq<Op>, b: seq<Op>)
    ensures ApplyOps(t, a + b) == ApplyOps(ApplyOps(t, a), b)
    decreases |a|
  {
    if a == [] {
      assert a + b == b;
    } else {
      assert (a + b)[1..] == a[1..] + b;
      ApplyOpsConcat(ApplyOp(t, a[0]), a[1..], b);
    }
  }

  // ---------- writing ----------

  /** A record from the end of its name on. nl is the newline that PersistNode::output
      puts after each word, or empty for the one-line records of proxies and factory. */
  function RecordBody(attrs: seq<(string, string)>, nl: string): string {
    if attrs == [] then nl + " ;;\n"
    else nl + " " + AttrWord(attrs[0]) + RecordBody(attrs[1..], nl)
  }

  function OpText(op: Op, nl: string): string
  {
    match op
    case Record(p, attrs) => Join(p) + RecordBody(attrs, nl)
    case Erase(p) => "-" + Join(p) + "\n"
  }

  predicate Layout(nl: string) {
    nl == "" || nl == "\n"
  }

  // ---------- the words of what is written ----------

  function AttrWords(attrs: seq<(string, string)>): (ws: seq<string>)
    ensures |ws| == |attrs|
    ensures forall i :: 0 <= i < |attrs| ==> ws[i] == AttrWord(attrs[i])
  {
    seq(|attrs|, i requires 0 <= i < |attrs| => AttrWord(attrs[i]))
  }

  function OpWords(op: Op): seq<string>
  {
    match op
    case Record(p, attrs) => [Join(p)] + AttrWords(attrs) + [";;"]
    case Erase(p) => ["-" + Join(p)]
  }

  function OpsWords(ops: seq<Op>): seq<string>
  {
    if ops == [] then [] else OpWords(ops[0]) + OpsWords(ops[1..])
  }

  lemma {:induction false} OpsWordsConcat(a: seq<Op>, b: seq<Op>)
    ensures OpsWords(a + b) == OpsWords(a) + OpsWords(b)
  {
    if a == [] {
      assert a + b == b;
    } else {
      assert (a + b)[1..] == a[1..] + b;
      OpsWordsConcat(a[1..], b);
    }
  }

  lemma AttrWordSafe(kv: (string, string))
    requires SafeAttr(kv)
    ensures IsWord(AttrWord(kv)) && AttrWord(kv)[0] != '#' && AttrWord(kv) != ";;"
    ensures forall a :: WithAttr(a, AttrWord(kv)) == a[kv.0 := kv.1]
  {
    var w := AttrWord(kv);
    assert w == kv.0 + ['='] + kv.1;
    IndexOfConcat(kv.0, '=', kv.1);
    assert w[|kv.0|] == '=';
    assert w[..|kv.0|] == kv.0 && w[|kv.0| + 1..] == kv.1;
  }

  /** The key of an attribute word is what stands before the first equals sign, its value what
      stands behind; without the sign the word is a key with an empty value. */
  lemma WithAttrMeans(a: Attrs, key: string, value: string)
    requires '=' !in key
    ensures WithAttr(a, key + ['='] + value) == a[key := value] && WithAttr(a, key) == a[key := ""]
  {
    IndexOfConcat(key, '=', value);
    var w := key + ['='] + value;
    assert w[..|key|] == key && w[|key| + 1..] == value && key[..|key|] == key;
  }

  lemma {:induction false} LexBody(attrs: seq<(string, string)>, nl: string, rest: string)
    requires Layout(nl) && forall i :: 0 <= i < |attrs| ==> SafeAttr(attrs[i])
    ensures Lex(RecordBody(attrs, nl) + rest) == AttrWords(attrs) + [";;"] + Lex(rest)
  {
    hide Lex;
    if attrs == [] {
      LexEnd(nl, rest);
      assert AttrWords(attrs) == [];
    } else {
      var w := AttrWord(attrs[0]);
      var body := RecordBody(attrs[1..], nl);
      AttrWordSafe(attrs[0]);
      BodyStartsBlank(attrs[1..], nl);
      LexBody(attrs[1..], nl, rest);
      assert IsSpace((body + rest)[0]);
      LexWord(nl + " ", w, body + rest);
      assert (nl + " " + w + body) + rest == (nl + " ") + w + (body + rest);
      assert AttrWords(attrs) == [w] + AttrWords(attrs[1..]);
    }
  }

  lemma BodyStartsBlank(attrs: seq<(string, string)>, nl: string)
    requires Layout(nl)
    ensures RecordBody(attrs, nl) != "" && IsSpace(RecordBody(attrs, nl)[0])
  {}

  lemma LexEnd(nl: string, rest: string)
    requires Layout(nl)
    ensures Lex((nl + " ;;\n") + rest) == [";;"] + Lex(rest)
  {
    assert (nl + " ;;\n") + rest == (nl + " ") + ";;" + ("\n" + rest);
    LexWord(nl + " ", ";;", "\n" + rest);
    LexBlank("\n", rest);
  }

  /** The words of a written record are read back, whatever follows it. */
  lemma LexOp(op: Op, nl: string, rest: string)
    requires SafeOp(op) && Layout(nl)
    ensures Lex(OpText(op, nl) + rest) == OpWords(op) + Lex(rest)
  {
    hide Lex, Join, RecordBody;
    match op
    case Record(p, attrs) =>
      var b := RecordBody(attrs, nl) + rest;
      assert (Join(p) + RecordBody(attrs, nl)) + rest == "" + Join(p) + b;
      BodyStartsBlank(attrs, nl);
      LexWord("", Join(p), b);
      LexBody(attrs, nl, rest);
    case Erase(p) =>
      assert OpText(op, nl) + rest == "" + ("-" + Join(p)) + ("\n" + rest);
      LexWord("", "-" + Join(p), "\n" + rest);
      LexBlank("\n", rest);
  }

  // ---------- reading back what was written ----------

  /** One attribute word. */
  lemma RunAttrWord(t: Tree, p: Name, w: string, more: seq<string>, last: string)
    requires IsWord(w) && w[0] != '#' && w != ";;" && forall i :: 0 <= i < |more| ==> IsWord(more[i])
    ensures ReadWords(t, Some(p), [w] + more, last) == ReadWords(AddAttr(t, p, w), Some(p), more, w)
  {
    hide AddAttr;
    assert ([w] + more)[1..] == more;
  }

  /** The closing mark. */
  lemma RunClose(t: Tree, p: Name, more: seq<string>, last: string)
    requires forall i :: 0 <= i < |more| ==> IsWord(more[i])
    ensures ReadWords(t, Some(p), [";;"] + more, last) == ReadWords(t, None, more, "")
  {
    assert ([";;"] + more)[1..] == more;
  }

  lemma AttrWordsSafe(attrs: seq<(string, string)>)
    requires forall i :: 0 <= i < |attrs| ==> SafeAttr(attrs[i])
    ensures forall i :: 0 <= i < |attrs| ==> IsWord(AttrWords(attrs)[i])
  {
    forall i | 0 <= i < |attrs| ensures IsWord(AttrWords(attrs)[i]) {
      AttrWordSafe(attrs[i]);
    }
  }

  lemma AttrWordsCons(attrs: seq<(string, string)>, more: seq<string>)
    requires attrs != []
    ensures AttrWords(attrs) + [";;"] + more == [AttrWord(attrs[0])] + (AttrWords(attrs[1..]) + [";;"] + more)
  {
    hide AttrWord;
    assert AttrWords(attrs) == [AttrWord(attrs[0])] + AttrWords(attrs[1..]);
  }

  lemma {:induction false} RunAttrs(t: Tree, p: Path, a: Attrs, attrs: seq<(string, string)>,
                                    more: seq<string>, last: string)
    requires |p| > 0 && forall i :: 0 <= i < |attrs| ==> SafeAttr(attrs[i])
    requires forall i :: 0 <= i < |more| ==> IsWord(more[i])
    ensures forall i :: 0 <= i < |attrs| ==> IsWord(AttrWords(attrs)[i])
    ensures ReadWords(Put(t, p, Node(a, map[])), Some(p), AttrWords(attrs) + [";;"] + more, last)
         == ReadWords(Put(t, p, Node(a + AttrMap(attrs), map[])), None, more, "")
    decreases |attrs|
  {
    assert IsWord(";;");
    hide ReadWords, Put, AddAttr, AttrMap, AttrWord, SafeAttr, IsWord;
    AttrWordsSafe(attrs);
    AttrMapPlus(a, attrs);
    if attrs == [] {
      RunClose(Put(t, p, Node(a, map[])), p, more, last);
      assert AttrWords(attrs) + [";;"] + more == [";;"] + more;
    } else {
      var kv, rest := attrs[0], AttrWords(attrs[1..]) + [";;"] + more;
      AttrWordIsWord(kv);
      AttrWordsSafe(attrs[1..]);
      AttrWordsCons(attrs, more);
      RunAttrWord(Put(t, p, Node(a, map[])), p, AttrWord(kv), rest, last);
      AddAttrPut(t, p, a, kv);
      RunAttrs(t, p, a[kv.0 := kv.1], attrs[1..], more, AttrWord(kv));
    }
  }

  lemma AttrWordIsWord(kv: (string, string))
    requires SafeAttr(kv)
    ensures IsWord(AttrWord(kv)) && AttrWord(kv)[0] != '#' && AttrWord(kv) != ";;"
  {
    AttrWordSafe(kv);
  }

  lemma AttrMapPlus(a: Attrs, attrs: seq<(string, string)>)
    ensures attrs == [] ==> a + AttrMap(attrs) == a
    ensures attrs != [] ==> a[attrs[0].0 := attrs[0].1] + AttrMap(attrs[1..]) == a + AttrMap(attrs)
  {
    if attrs != [] {
      AttrMapCons(attrs);
    }
  }

  lemma AddAttrPut(t: Tree, p: Path, a: Attrs, kv: (string, string))
    requires SafeAttr(kv)
    ensures AddAttr(Put(t, p, Node(a, map[])), p, AttrWord(kv)) == Put(t, p, Node(a[kv.0 := kv.1], map[]))
  {
    AttrWordSafe(kv);
    LookupPut(t, p, Node(a, map[]), p);
    assert p[|p|..] == [];
    SetAttrsPut(t, p, Node(a, map[]), a[kv.0 := kv.1]);
  }

  lemma {:induction false} AttrMapCons(attrs: seq<(string, string)>)
    requires attrs != []
    ensures AttrMap(attrs) == map[attrs[0].0 := attrs[0].1] + AttrMap(attrs[1..])
  {
    var n := |attrs| - 1;
    if n == 0 {
      assert attrs[..0] == [] && attrs[1..] == [];
    } else {
      AttrMapCons(attrs[..n]);
      assert attrs[..n][1..] == attrs[1..][..n - 1];
    }
  }

  /** What is left in the word buffer does no harm if the stream ends here. */
  predicate Harmless(t: Tree, last: string) {
    last == "" || (last[0] == '-' && Del(t, Split(last[1..])) == t)
  }

  lemma OpWordsAreWords(op: Op)
    requires SafeOp(op)
    ensures forall i :: 0 <= i < |OpWords(op)| ==> IsWord(OpWords(op)[i])
  {
    if op.Record? {
      forall i | 0 <= i < |op.attrs| ensures IsWord(AttrWords(op.attrs)[i]) {
        AttrWordSafe(op.attrs[i]);
      }
    }
  }

  lemma RunRecord(t: Tree, op: Op, more: seq<string>, last: string)
    requires SafeOp(op) && op.Record?
    requires forall i :: 0 <= i < |more| ==> IsWord(more[i])
    ensures forall i :: 0 <= i < |OpWords(op)| ==> IsWord(OpWords(op)[i])
    ensures ReadWords(t, None, OpWords(op) + more, last) == ReadWords(ApplyOp(t, op), None, more, "")
  {
    OpWordsAreWords(op);
    SplitJoin(op.path);
    var words := OpWords(op) + more;
    assert words[0] == Join(op.path) && words[1..] == AttrWords(op.attrs) + [";;"] + more;
    RunAttrs(t, op.path, map[], op.attrs, more, Join(op.path));
    assert map[] + AttrMap(op.attrs) == AttrMap(op.attrs);
  }

  lemma RunErase(t: Tree, op: Op, more: seq<string>, last: string)
    requires SafeOp(op) && op.Erase?
    requires forall i :: 0 <= i < |more| ==> IsWord(more[i])
    ensures forall i :: 0 <= i < |OpWords(op)| ==> IsWord(OpWords(op)[i])
    ensures ReadWords(t, None, OpWords(op) + more, last) == ReadWords(ApplyOp(t, op), None, more, OpWords(op)[0])
    ensures Harmless(ApplyOp(t, op), OpWords(op)[0])
  {
    OpWordsAreWords(op);
    SplitJoin(op.path);
    var w := "-" + Join(op.path);
    assert w[1..] == Join(op.path);
    assert (OpWords(op) + more)[1..] == more;
    DelIdempotent(t, op.path);
  }

  lemma {:induction false} RunOps(t: Tree, ops: seq<Op>, last: string)
    requires SafeOps(ops) && Harmless(t, last)
    ensures forall i :: 0 <= i < |OpsWords(ops)| ==> IsWord(OpsWords(ops)[i])
    ensures ReadWords(t, None, OpsWords(ops), last) == ApplyOps(t, ops)
    decreases |ops|
  {
    if ops != [] {
      var op, more := ops[0], OpsWords(ops[1..]);
      OpWordsAreWords(op);
      if op.Record? {
        RunOps(ApplyOp(t, op), ops[1..], "");
        RunRecord(t, op, more, last);
      } else {
        DelIdempotent(t, op.path);
        SplitJoin(op.path);
        assert ("-" + Join(op.path))[1..] == Join(op.path);
        RunOps(ApplyOp(t, op), ops[1..], OpWords(op)[0]);
        RunErase(t, op, more, last);
      }
    }
  }

  // ---------- whole logs ----------

  /** A log: records in the order they were written, each with its layout. */
  datatype Entry = Entry(op: Op, nl: string)

  predicate SafeLog(log: seq<Entry>) {
    forall i :: 0 <= i < |log| ==> SafeOp(log[i].op) && Layout(log[i].nl)
  }

  function OpsOf(log: seq<Entry>): (ops: seq<Op>)
    ensures |ops| == |log| && forall i :: 0 <= i < |log| ==> ops[i] == log[i].op
  {
    seq(|log|, i requires 0 <= i < |log| => log[i].op)
  }

  /** What reading a log does to a tree. */
  function ApplyLog(t: Tree, log: seq<Entry>): Tree {
    ApplyOps(t, OpsOf(log))
  }

  lemma ApplyLogCons(t: Tree, e: Entry, log: seq<Entry>)
    ensures ApplyLog(t, [e] + log) == ApplyLog(ApplyOp(t, e.op), log)
  {
    assert OpsOf([e] + log)[1..] == OpsOf(log);
  }

  lemma ApplyLogConcat(t: Tree, a: seq<Entry>, b: seq<Entry>)
    ensures ApplyLog(t, a + b) == ApplyLog(ApplyLog(t, a), b)
  {
    assert OpsOf(a + b) == OpsOf(a) + OpsOf(b);
    ApplyOpsConcat(t, OpsOf(a), OpsOf(b));
  }

  function LogText(log: seq<Entry>): string {
    if log == [] then "" else OpText(log[0].op, log[0].nl) + LogText(log[1..])
  }

  lemma LogTextCons(e: Entry, log: seq<Entry>)
    ensures LogText([e] + log) == OpText(e.op, e.nl) + LogText(log)
  {
    assert ([e] + log)[1..] == log;
  }

  lemma {:induction false} LogTextConcat(a: seq<Entry>, b: seq<Entry>)
    ensures LogText(a + b) == LogText(a) + LogText(b)
  {
    if a == [] {
      assert a + b == b;
    } else {
      assert (a + b)[1..] == a[1..] + b;
      LogTextConcat(a[1..], b);
    }
  }

  lemma {:induction false} LexLog(log: seq<Entry>, rest: string)
    requires SafeLog(log)
    ensures Lex(LogText(log) + rest) == OpsWords(OpsOf(log)) + Lex(rest)
  {
    if log == [] {
      assert LogText(log) + rest == rest;
    } else {
      var op, tail := log[0].op, log[1..];
      ConcatAssoc(OpText(op, log[0].nl), LogText(tail), rest);
      LexOp(op, log[0].nl, LogText(tail) + rest);
      LexLog(tail, rest);
      assert OpsOf(log)[1..] == OpsOf(tail);
      ConcatAssoc(OpWords(op), OpsWords(OpsOf(tail)), Lex(rest));
    }
  }

  /** Reading a log back applies its records in order, blank lines notwithstanding. */
  lemma Replay(log: seq<Entry>, tail: string)
    requires SafeLog(log) && Lex(tail) == []
    ensures Parse(LogText(log) + tail) == ApplyLog(EMPTY, log)
  {
    LexLog(log, tail);
    RunOps(EMPTY, OpsOf(log), "");
    assert OpsWords(OpsOf(log)) + [] == OpsWords(OpsOf(log));
  }

  // ---------- files that are appended to ----------

  /** The file holds t, and what is appended to it is applied to t. */
  ghost predicate Replays(text: string, t: Tree) {
    forall more: seq<Entry> :: SafeLog(more) ==> Parse(text + LogText(more)) == ApplyLog(t, more)
  }

  lemma ReplaysNow(text: string, t: Tree)
    requires Replays(text, t)
    ensures Parse(text) == t
  {
    assert SafeLog([]) && text + LogText([]) == text;
    assert ApplyLog(t, []) == t;
  }

  /** A new file: a list of records and a blank line. */
  lemma ReplaysFresh(log: seq<Entry>)
    requires SafeLog(log)
    ensures Replays(LogText(log) + "\n", ApplyLog(EMPTY, log))
  {
    var now := ApplyLog(EMPTY, log);
    forall more: seq<Entry> | SafeLog(more)
      ensures Parse(LogText(log) + "\n" + LogText(more)) == ApplyLog(now, more)
    {
      FreshThen(log, more);
    }
  }

  lemma FreshThen(log: seq<Entry>, more: seq<Entry>)
    requires SafeLog(log) && SafeLog(more)
    ensures Parse(LogText(log) + "\n" + LogText(more)) == ApplyLog(ApplyLog(EMPTY, log), more)
  {
    ConcatAssoc(LogText(log), "\n", LogText(more));
    LexLog(log, "\n" + LogText(more));
    LexBlank("\n", LogText(more));
    assert LogText(more) + "" == LogText(more) && Lex("") == [];
    LexLog(more, "");
    var ops, ops' := OpsOf(log), OpsOf(more);
    assert OpsWords(ops') + [] == OpsWords(ops');
    OpsWordsConcat(ops, ops');
    RunOps(EMPTY, ops + ops', "");
    ApplyOpsConcat(EMPTY, ops, ops');
  }

  lemma ReplaysAppend(text: string, t: Tree, log: seq<Entry>)
    requires Replays(text, t) && SafeLog(log)
    ensures Replays(text + LogText(log), ApplyLog(t, log))
  {
    var now := ApplyLog(t, log);
    forall more: seq<Entry> | SafeLog(more)
      ensures Parse(text + LogText(log) + LogText(more)) == ApplyLog(now, more)
    {
      ReplaysThen(text, t, log, more);
    }
  }

  lemma ReplaysThen(text: string, t: Tree, log: seq<Entry>, more: seq<Entry>)
    requires Replays(text, t) && SafeLog(log) && SafeLog(more)
    ensures Parse(text + LogText(log) + LogText(more)) == ApplyLog(ApplyLog(t, log), more)
  {
    LogTextConcat(log, more);
    ConcatAssoc(text, LogText(log), LogText(more));
    var both := log + more;
    assert SafeLog(both);
    ApplyLogConcat(t, log, more);
  }

  lemma ConcatAssoc<T>(a: seq<T>, b: seq<T>, c: seq<T>)
    ensures a + b + c == a + (b + c)
  {}
}
