/** What the server must remember, the records it logs as that changes, and what a
    restart makes of the log. */
module EventLog {
  import opened Text
  import opened PersistTree
  import opened PersistFormat
  import opened PersistPrint
  import opened Wrappers

  // ---------- live state ----------

  datatype Kind = PushConsumer | PullConsumer | PushSupplier | PullSupplier

  datatype Key = Key(kind: Kind, oid: string)

  /** A connected proxy. `target` is the client it talks to (only a PullSupplier may have
      none). `ior` is the reference that output() prints, `restored` says that the proxy was
      made by reincarnate, `pending` that its is-a request is still unanswered. */
  datatype Conn = Conn(target: Option<string>, ior: Option<string>, isProxy: bool, pending: bool, restored: bool)

  datatype Channel = Channel(props: Attrs, conns: map<Key, Conn>)

  datatype Live = Live(port: nat, endPoint: string, channels: map<string, Channel>)

  // ---------- where things are kept ----------

  function AdminName(kind: Kind): string {
    if kind == PushConsumer || kind == PullConsumer then "SupplierAdmin" else "ConsumerAdmin"
  }

  function KindName(kind: Kind): string {
    match kind
    case PushConsumer => "ProxyPushConsumer"
    case PullConsumer => "ProxyPullConsumer"
    case PushSupplier => "ProxyPushSupplier"
    case PullSupplier => "ProxyPullSupplier"
  }

  function KindAt(admin: string, name: string): Option<Kind> {
    if admin == "SupplierAdmin" && name == "ProxyPushConsumer" then Some(PushConsumer)
    else if admin == "SupplierAdmin" && name == "ProxyPullConsumer" then Some(PullConsumer)
    else if admin == "ConsumerAdmin" && name == "ProxyPushSupplier" then Some(PushSupplier)
    else if admin == "ConsumerAdmin" && name == "ProxyPullSupplier" then Some(PullSupplier)
    else None
  }

  const ECF: Name := ["ecf"]

  function ChannelPath(ch: string): Name {
    ["ecf", ch]
  }

  function ConnPath(ch: string, key: Key): Name {
    ["ecf", ch, AdminName(key.kind), KindName(key.kind), key.oid]
  }

  // ---------- records ----------

  function Digit(d: nat): char
    requires d < 10
  {
    "0123456789"[d]
  }

  /** A number as operator<< prints it. */
  function Dec(n: nat): (s: string)
    ensures s != ""
  {
    if n < 10 then [Digit(n)] else Dec(n / 10) + [Digit(n % 10)]
  }

  function EcfAttrs(live: Live): seq<(string, string)> {
    [("port", Dec(live.port))] + if live.endPoint == "" then [] else [("endPointNoListen", live.endPoint)]
  }

  function ConnAttrs(c: Conn): seq<(string, string)> {
    if c.ior.None? then []
    else [("IOR", c.ior.value)] + if c.isProxy then [("proxy", "1")] else []
  }

  function EcfEntry(live: Live): Entry {
    Entry(Record(ECF, EcfAttrs(live)), "")
  }

  ghost function ChannelEntry(ch: string, props: Attrs): Entry {
    Entry(Record(ChannelPath(ch), AttrList(props)), "\n")
  }

  function ConnEntry(ch: string, key: Key, c: Conn): Entry {
    Entry(Record(ConnPath(ch, key), ConnAttrs(c)), "")
  }

  function EraseConn(ch: string, key: Key): Entry {
    Entry(Erase(ConnPath(ch, key)), "")
  }

  function EraseChannel(ch: string): Entry {
    Entry(Erase(ChannelPath(ch)), "")
  }

  /** The records of the listed connections. */
  function ConnLog(ch: string, conns: map<Key, Conn>, ks: seq<Key>, i: nat): seq<Entry>
    requires i <= |ks| && forall k :: k in ks ==> k in conns
  {
    if i == 0 then [] else ConnLog(ch, conns, ks, i - 1) + [ConnEntry(ch, ks[i - 1], conns[ks[i - 1]])]
  }

  /** EventChannel_i::output, the proxies in the order ks. */
  ghost function ChannelLog(ch: string, c: Channel, ks: seq<Key>): seq<Entry>
    requires forall k :: k in ks ==> k in c.conns
  {
    [ChannelEntry(ch, c.props)] + ConnLog(ch, c.conns, ks, |ks|)
  }

  /** An order in which the sets of channels and of proxies are walked. */
  type Plan = seq<(string, seq<Key>)>

  ghost predicate Fits(plan: Plan, live: Live) {
    && Walks(plan, live)
    && (forall ch :: ch in live.channels ==> exists i :: 0 <= i < |plan| && plan[i].0 == ch)
  }

  ghost predicate Walks(plan: Plan, live: Live) {
    forall i :: 0 <= i < |plan| ==>
      plan[i].0 in live.channels && forall k :: k in plan[i].1 <==> k in live.channels[plan[i].0].conns
  }

  ghost function ChannelsLog(live: Live, plan: Plan, i: nat): seq<Entry>
    requires i <= |plan| && Walks(plan, live)
  {
    if i == 0 then []
    else ChannelsLog(live, plan, i - 1) + ChannelLog(plan[i - 1].0, live.channels[plan[i - 1].0], plan[i - 1].1)
  }

  /** EventChannelFactory_i::output. */
  ghost function SnapshotLog(live: Live, plan: Plan): seq<Entry>
    requires Walks(plan, live)
  {
    [EcfEntry(live)] + ChannelsLog(live, plan, |plan|)
  }

  // ---------- what a tree says ----------

  /** What must be at p. */
  function Kept(live: Live, p: Path): Option<Attrs> {
    if p == [] then Some(map[])
    else if p[0] != "ecf" then None
    else if |p| == 1 then Some(AttrMap(EcfAttrs(live)))
    else if p[1] !in live.channels then None
    else KeptBelow(live.channels[p[1]], p[2..])
  }

  function KeptBelow(c: Channel, p: Path): Option<Attrs> {
    if p == [] then Some(c.props)
    else if |p| == 3 && KindAt(p[0], p[1]).Some? && Key(KindAt(p[0], p[1]).value, p[2]) in c.conns then
      Some(AttrMap(ConnAttrs(c.conns[Key(KindAt(p[0], p[1]).value, p[2])])))
    else None
  }

  /** Nodes that only lead to proxies: they may be there without any attribute. */
  predicate Branch(live: Live, p: Path) {
    && 3 <= |p| <= 4 && p[0] == "ecf" && p[1] in live.channels
    && (p[2] == "SupplierAdmin" || p[2] == "ConsumerAdmin")
    && (|p| == 4 ==> KindAt(p[2], p[3]).Some?)
  }

  ghost predicate Agrees(t: Tree, live: Live, p: Path) {
    || Lookup(t, p) == Kept(live, p)
    || (Branch(live, p) && Lookup(t, p) == Some(map[]))
  }

  /** The tree is the live state, up to bare branches. */
  ghost predicate Represents(t: Tree, live: Live) {
    forall p: Path :: Agrees(t, live, p)
  }

  lemma PutEcf(live: Live)
    ensures Represents(ApplyOp(EMPTY, EcfEntry(live).op), live.(channels := map[]))
  {
    var none := live.(channels := map[]);
    forall q: Path ensures Agrees(ApplyOp(EMPTY, EcfEntry(live).op), none, q) {
      LookupPut(EMPTY, ECF, Node(AttrMap(EcfAttrs(live)), map[]), q);
      assert EcfAttrs(none) == EcfAttrs(live);
      if q != [] && q[0] == "ecf" {
        assert q == ["ecf"] + q[1..];
      }
    }
  }

  lemma PutChannel(t: Tree, live: Live, ch: string, props: Attrs)
    requires Represents(t, live)
    ensures Represents(ApplyOp(t, ChannelEntry(ch, props).op),
                       live.(channels := live.channels[ch := Channel(props, map[])]))
  {
    var live' := live.(channels := live.channels[ch := Channel(props, map[])]);
    AttrMapAttrList(props);
    forall q: Path ensures Agrees(ApplyOp(t, ChannelEntry(ch, props).op), live', q) {
      LookupPut(t, ChannelPath(ch), Node(props, map[]), q);
      assert Agrees(t, live, q) && EcfAttrs(live') == EcfAttrs(live);
      if |q| >= 2 && q[0] == "ecf" && q[1] == ch {
        assert q == ChannelPath(ch) + q[2..];
      } else if Extends(ChannelPath(ch), q) {
        assert |q| == 1 ==> q == ECF;
      }
    }
  }

  lemma PutConn(t: Tree, live: Live, ch: string, key: Key, c: Conn)
    requires Represents(t, live) && ch in live.channels
    ensures Represents(ApplyOp(t, ConnEntry(ch, key, c).op), WithConn(live, ch, key, c))
  {
    assert Agrees(t, live, ECF) && Agrees(t, live, ChannelPath(ch));
    forall q: Path ensures Agrees(ApplyOp(t, ConnEntry(ch, key, c).op), WithConn(live, ch, key, c), q) {
      assert Agrees(t, live, q);
      PutConnAt(t, live, ch, key, c, q);
    }
  }

  lemma PutConnAt(t: Tree, live: Live, ch: string, key: Key, c: Conn, q: Path)
    requires ch in live.channels && Agrees(t, live, q) && Agrees(t, live, ECF) && Agrees(t, live, ChannelPath(ch))
    ensures Agrees(ApplyOp(t, ConnEntry(ch, key, c).op), WithConn(live, ch, key, c), q)
  {
    var p := ConnPath(ch, key);
    LookupPut(t, p, Node(AttrMap(ConnAttrs(c)), map[]), q);
    KeptWithConn(live, ch, key, c, q);
    KindAtNames(key.kind);
    if Extends(q, p) {
      assert q == p + q[5..];
    } else if Extends(p, q) {
      assert forall i :: 0 <= i < |q| ==> q[i] == p[i];
      assert |q| == 1 ==> q == ECF;
      assert |q| == 2 ==> q == ChannelPath(ch);
    }
  }

  lemma KeptWithConn(live: Live, ch: string, key: Key, c: Conn, q: Path)
    requires ch in live.channels
    ensures Kept(WithConn(live, ch, key, c), q) ==
            if q == ConnPath(ch, key) then Some(AttrMap(ConnAttrs(c))) else Kept(live, q)
    ensures Branch(WithConn(live, ch, key, c), q) == Branch(live, q)
    ensures |q| > 5 ==> Kept(live, q).None?
  {
    KindAtNames(key.kind);
    if |q| == 5 && KindAt(q[2], q[3]).Some? {
      NamesOfKind(q[2], q[3]);
      if q[0] == "ecf" && q[1] == ch && Key(KindAt(q[2], q[3]).value, q[4]) == key {
        assert q == ConnPath(ch, key);
      }
    }
  }

  lemma KindAtNames(kind: Kind)
    ensures KindAt(AdminName(kind), KindName(kind)) == Some(kind)
    ensures AdminName(kind) == "SupplierAdmin" || AdminName(kind) == "ConsumerAdmin"
  {}

  lemma NamesOfKind(admin: string, name: string)
    requires KindAt(admin, name).Some?
    ensures AdminName(KindAt(admin, name).value) == admin && KindName(KindAt(admin, name).value) == name
  {}

  function WithConn(live: Live, ch: string, key: Key, c: Conn): Live
    requires ch in live.channels
  {
    var chan := live.channels[ch];
    live.(channels := live.channels[ch := chan.(conns := chan.conns[key := c])])
  }

  function WithoutConn(live: Live, ch: string, key: Key): Live
    requires ch in live.channels
  {
    var chan := live.channels[ch];
    live.(channels := live.channels[ch := chan.(conns := chan.conns - {key})])
  }

  lemma DelConn(t: Tree, live: Live, ch: string, key: Key)
    requires Represents(t, live)
    ensures Represents(ApplyOp(t, EraseConn(ch, key).op), if ch in live.channels then WithoutConn(live, ch, key) else live)
  {
    var p := ConnPath(ch, key);
    var live' := if ch in live.channels then WithoutConn(live, ch, key) else live;
    forall q: Path ensures Agrees(ApplyOp(t, EraseConn(ch, key).op), live', q) {
      LookupDel(t, p, q);
      assert Agrees(t, live, q) && EcfAttrs(live') == EcfAttrs(live);
      if Extends(q, p) {
        assert q == p + q[5..];
        KindAtNames(key.kind);
      } else if |q| == 5 && KindAt(q[2], q[3]).Some? {
        NamesOfKind(q[2], q[3]);
      }
    }
  }

  lemma DelChannel(t: Tree, live: Live, ch: string)
    requires Represents(t, live)
    ensures Represents(ApplyOp(t, EraseChannel(ch).op), live.(channels := live.channels - {ch}))
  {
    var p := ChannelPath(ch);
    var live' := live.(channels := live.channels - {ch});
    forall q: Path ensures Agrees(ApplyOp(t, EraseChannel(ch).op), live', q) {
      LookupDel(t, p, q);
      assert Agrees(t, live, q) && EcfAttrs(live') == EcfAttrs(live);
      if |q| >= 2 && q[0] == "ecf" && q[1] == ch {
        assert q == p + q[2..];
      }
    }
  }

  lemma {:induction false} PutConns(t: Tree, live: Live, ch: string, conns: map<Key, Conn>, ks: seq<Key>, i: nat)
    requires ch in live.channels && Represents(t, live)
    requires i <= |ks| && forall k :: k in ks ==> k in conns
    ensures Represents(ApplyLog(t, ConnLog(ch, conns, ks, i)), WithConns(live, ch, conns, ks, i))
  {
    if i == 0 {
      assert ApplyLog(t, []) == t;
    } else {
      var k := ks[i - 1];
      var e := ConnEntry(ch, k, conns[k]);
      PutConns(t, live, ch, conns, ks, i - 1);
      ApplyLogConcat(t, ConnLog(ch, conns, ks, i - 1), [e]);
      var t' := ApplyLog(t, ConnLog(ch, conns, ks, i - 1));
      ApplyLogCons(t', e, []);
      assert [e] + [] == [e] && ApplyLog(ApplyOp(t', e.op), []) == ApplyOp(t', e.op);
      PutConn(t', WithConns(live, ch, conns, ks, i - 1), ch, k, conns[k]);
    }
  }

  ghost function WithConns(live: Live, ch: string, conns: map<Key, Conn>, ks: seq<Key>, i: nat): (r: Live)
    requires ch in live.channels && i <= |ks| && forall k :: k in ks ==> k in conns
    ensures ch in r.channels
  {
    if i == 0 then live else WithConn(WithConns(live, ch, conns, ks, i - 1), ch, ks[i - 1], conns[ks[i - 1]])
  }

  ghost function Upto(conns: map<Key, Conn>, ks: seq<Key>, i: nat): map<Key, Conn>
    requires i <= |ks|
  {
    map k | k in conns && k in ks[..i] :: conns[k]
  }

  lemma UptoStep(kept: map<Key, Conn>, conns: map<Key, Conn>, ks: seq<Key>, i: nat)
    requires i < |ks| && ks[i] in conns
    ensures (kept + Upto(conns, ks, i))[ks[i] := conns[ks[i]]] == kept + Upto(conns, ks, i + 1)
  {
    assert ks[..i + 1] == ks[..i] + [ks[i]];
  }

  lemma {:induction false} WithConnsAre(live: Live, ch: string, conns: map<Key, Conn>, ks: seq<Key>, i: nat)
    requires ch in live.channels && i <= |ks| && forall k :: k in ks ==> k in conns
    ensures var chan := live.channels[ch];
      WithConns(live, ch, conns, ks, i) ==
      live.(channels := live.channels[ch := Channel(chan.props, chan.conns + Upto(conns, ks, i))])
  {
    var chan := live.channels[ch];
    assert chan.conns + Upto(conns, ks, 0) == chan.conns;
    hide Upto;
    if i == 0 {
      assert live.channels[ch := chan] == live.channels;
    } else {
      WithConnsAre(live, ch, conns, ks, i - 1);
      UptoStep(chan.conns, conns, ks, i - 1);
      var before, after := Channel(chan.props, chan.conns + Upto(conns, ks, i - 1)), Channel(chan.props, chan.conns + Upto(conns, ks, i));
      assert live.channels[ch := before][ch := after] == live.channels[ch := after];
    }
  }

  /** Writing a channel's records makes the log say that channel, whatever it said before. */
  lemma PutChannelLog(t: Tree, live: Live, ch: string, c: Channel, ks: seq<Key>)
    requires Represents(t, live) && forall k :: k in ks <==> k in c.conns
    ensures Represents(ApplyLog(t, ChannelLog(ch, c, ks)), live.(channels := live.channels[ch := c]))
  {
    var bare := live.(channels := live.channels[ch := Channel(c.props, map[])]);
    PutChannel(t, live, ch, c.props);
    ApplyLogCons(t, ChannelEntry(ch, c.props), ConnLog(ch, c.conns, ks, |ks|));
    PutConns(ApplyOp(t, ChannelEntry(ch, c.props).op), bare, ch, c.conns, ks, |ks|);
    assert ks[..|ks|] == ks;
    assert map[] + Upto(c.conns, ks, |ks|) == c.conns;
    WithConnsAre(bare, ch, c.conns, ks, |ks|);
    assert bare.channels[ch := c] == live.channels[ch := c];
  }

  /** from, with the channels of the first i plan entries as they are in live. */
  ghost function Mixed(from: map<string, Channel>, live: Live, plan: Plan, i: nat): map<string, Channel>
    requires i <= |plan| && Walks(plan, live)
  {
    if i == 0 then from else Mixed(from, live, plan, i - 1)[plan[i - 1].0 := live.channels[plan[i - 1].0]]
  }

  lemma {:induction false} PutChannelsLog(t: Tree, from: Live, live: Live, plan: Plan, i: nat)
    requires Represents(t, from) && i <= |plan| && Walks(plan, live)
    ensures Represents(ApplyLog(t, ChannelsLog(live, plan, i)), from.(channels := Mixed(from.channels, live, plan, i)))
  {
    if i == 0 {
      assert ApplyLog(t, []) == t;
    } else {
      var (ch, ks) := plan[i - 1];
      PutChannelsLog(t, from, live, plan, i - 1);
      ApplyLogConcat(t, ChannelsLog(live, plan, i - 1), ChannelLog(ch, live.channels[ch], ks));
      PutChannelLog(ApplyLog(t, ChannelsLog(live, plan, i - 1)), from.(channels := Mixed(from.channels, live, plan, i - 1)),
                    ch, live.channels[ch], ks);
    }
  }

  ghost predicate Reached(plan: Plan, i: nat, ch: string)
    requires i <= |plan|
  {
    exists j :: 0 <= j < i && plan[j].0 == ch
  }

  lemma {:induction false} MixedAt(from: map<string, Channel>, live: Live, plan: Plan, i: nat, ch: string)
    requires i <= |plan| && Walks(plan, live)
    ensures Reached(plan, i, ch) ==>
              ch in Mixed(from, live, plan, i) && ch in live.channels && Mixed(from, live, plan, i)[ch] == live.channels[ch]
    ensures !Reached(plan, i, ch) ==>
              (ch in Mixed(from, live, plan, i) <==> ch in from)
  {
    if i != 0 {
      MixedAt(from, live, plan, i - 1, ch);
      assert Reached(plan, i, ch) <==> Reached(plan, i - 1, ch) || plan[i - 1].0 == ch;
    }
  }

  lemma MixedAll(from: map<string, Channel>, live: Live, plan: Plan)
    requires Fits(plan, live) && from.Keys <= live.channels.Keys
    ensures Mixed(from, live, plan, |plan|) == live.channels
  {
    var m := Mixed(from, live, plan, |plan|);
    forall ch
      ensures ch in m <==> ch in live.channels
      ensures ch in m ==> m[ch] == live.channels[ch]
    {
      MixedAt(from, live, plan, |plan|, ch);
      assert ch in live.channels ==> Reached(plan, |plan|, ch);
    }
  }

  /** A snapshot, in whatever order it was written, says the live state. */
  lemma SnapshotRepresents(live: Live, plan: Plan)
    requires Fits(plan, live)
    ensures Represents(ApplyLog(EMPTY, SnapshotLog(live, plan)), live)
  {
    PutEcf(live);
    ApplyLogCons(EMPTY, EcfEntry(live), ChannelsLog(live, plan, |plan|));
    PutChannelsLog(ApplyOp(EMPTY, EcfEntry(live).op), live.(channels := map[]), live, plan, |plan|);
    MixedAll(map[], live, plan);
  }

  /** Two trees that differ at most in bare branches. */
  ghost predicate SameButBranches(a: Tree, b: Tree) {
    forall p: Path :: Lookup(a, p) == Lookup(b, p) ||
      (3 <= |p| <= 4 && Lookup(a, p) in {None, Some(map[])} && Lookup(b, p) in {None, Some(map[])})
  }

  lemma RepresentUnique(a: Tree, b: Tree, live: Live)
    requires Represents(a, live) && Represents(b, live)
    ensures SameButBranches(a, b)
  {
    forall p: Path
      ensures Lookup(a, p) == Lookup(b, p) ||
        (3 <= |p| <= 4 && Lookup(a, p) in {None, Some(map[])} && Lookup(b, p) in {None, Some(map[])})
    {
      assert Agrees(a, live, p) && Agrees(b, live, p);
    }
  }
}
