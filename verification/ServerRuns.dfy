/** Runs of the server: every change of the live state with the record it appends,
    checkpoints that replace the file by a snapshot, and restarts from the file. */
module ServerRuns {
  import opened Text
  import opened PersistTree
  import opened PersistFormat
  import opened PersistPrint
  import opened EventLog
  import opened Wrappers

  datatype Server = Server(live: Live, text: string)

  datatype Event =
    | Create(ch: string, props: Attrs)
    | Destroy(ch: string)
    | Connect(ch: string, key: Key, target: Option<string>)
    | Disconnect(ch: string, key: Key)
    | Answer(ch: string, key: Key, isProxy: Option<bool>)
    | Checkpoint(plan: Plan)
    | Restart(plan: Plan)

  // ---------- restart ----------

  function Digits(s: string, acc: nat): nat {
    if s == "" || !('0' <= s[0] <= '9') then acc
    else Digits(s[1..], 10 * acc + (s[0] as int - '0' as int))
  }

  /** atol, on an attribute: words hold no leading space. */
  function Atol(s: string): int {
    if s != "" && s[0] == '-' then 0 - Digits(s[1..], 0)
    else if s != "" && s[0] == '+' then Digits(s[1..], 0)
    else Digits(s, 0)
  }

  function AttrString(a: Attrs, key: string, fallback: string): string {
    if key in a then a[key] else fallback
  }

  function AttrLong(a: Attrs, key: string, fallback: int): int {
    if key in a then Atol(a[key]) else fallback
  }

  predicate HasFlag(kind: Kind) {
    kind == PushConsumer || kind == PushSupplier
  }

  /** The reference that a reincarnated proxy will print. ProxyPushSupplier_i::reincarnate
      sets its target but not the string it prints. */
  function ReprintedIor(kind: Kind, ior: string): string {
    if kind == PushSupplier then "" else ior
  }

  /** reincarnate: an empty reference does not convert to an object, and the proxy is
      dropped. */
  function RestoreConn(kind: Kind, a: Attrs): Option<Conn> {
    var ior := AttrString(a, "IOR", "");
    if ior == "" then None
    else Some(Conn(Some(ior), Some(ReprintedIor(kind, ior)), HasFlag(kind) && AttrLong(a, "proxy", 0) != 0, false, true))
  }

  function RestoreKind(t: Tree, kind: Kind): map<Key, Conn> {
    var n := Sub(t, [AdminName(kind), KindName(kind)]);
    map oid | oid in n.child && RestoreConn(kind, n.child[oid].attr).Some? ::
      Key(kind, oid) := RestoreConn(kind, n.child[oid].attr).value
  }

  /** EventChannel_i::activate on a node of the tree. */
  function RestoreChannel(t: Tree): Channel {
    Channel(t.attr, RestoreKind(t, PushConsumer) + RestoreKind(t, PullConsumer)
                  + RestoreKind(t, PushSupplier) + RestoreKind(t, PullSupplier))
  }

  /** The EventChannelFactory_i constructor on a parsed file. */
  function Recover(t: Tree): Live {
    var ecf := Sub(t, ECF);
    var port := AttrLong(ecf.attr, "port", 11169);
    Live(if port < 0 then 0 else port, AttrString(ecf.attr, "endPointNoListen", ""),
         map ch | ch in ecf.child :: RestoreChannel(ecf.child[ch]))
  }

  // ---------- steps ----------

  /** connect_xxx takes effect: no such connection yet, and a client unless the proxy is
      a pull supplier. Otherwise it is ignored or throws, and nothing changes. */
  predicate Accepts(live: Live, ch: string, key: Key, target: Option<string>) {
    && ch in live.channels && key !in live.channels[ch].conns
    && (target.Some? || key.kind == PullSupplier)
  }

  function NewConn(key: Key, target: Option<string>): Conn {
    Conn(target, target, false, HasFlag(key.kind), false)
  }

  predicate Awaits(live: Live, ch: string, key: Key) {
    ch in live.channels && key in live.channels[ch].conns && live.channels[ch].conns[key].pending
  }

  function Answered(c: Conn, isProxy: Option<bool>): Conn {
    c.(pending := false, isProxy := isProxy == Some(true))
  }

  ghost function Append(s: Server, live: Live, log: seq<Entry>): Server {
    Server(live, s.text + LogText(log))
  }

  /** One event. The records of a connect or disconnect belong to the same step. */
  ghost function Step(s: Server, e: Event): Server {
    var live := s.live;
    match e
    case Create(ch, props) =>
      if ch in live.channels then s
      else Append(s, live.(channels := live.channels[ch := Channel(props, map[])]), [ChannelEntry(ch, props)])
    case Destroy(ch) =>
      if ch !in live.channels then s
      else Append(s, live.(channels := live.channels - {ch}), [EraseChannel(ch)])
    case Connect(ch, key, target) =>
      if !Accepts(live, ch, key, target) then s
      else var c := NewConn(key, target); Append(s, WithConn(live, ch, key, c), [ConnEntry(ch, key, c)])
    case Disconnect(ch, key) =>
      // The push consumers' servant knows whether it holds the connection. The other
      // proxies erase their key before they look.
      if ch !in live.channels || (key.kind == PushConsumer && key !in live.channels[ch].conns) then s
      else Append(s, WithoutConn(live, ch, key), [EraseConn(ch, key)])
    case Answer(ch, key, isProxy) =>
      if !Awaits(live, ch, key) then s
      else
        var c := Answered(live.channels[ch].conns[key], isProxy);
        var live' := WithConn(live, ch, key, c);
        if c.isProxy then Append(s, live', [ConnEntry(ch, key, c)]) else s.(live := live')
    case Checkpoint(plan) =>
      if !Fits(plan, live) then s else Server(live, LogText(SnapshotLog(live, plan)) + "\n")
    case Restart(plan) =>
      // Every channel writes itself to the log again when its thread starts.
      var live' := Recover(Parse(s.text));
      if !Fits(plan, live') then s else Append(s, live', ChannelsLog(live', plan, |plan|))
  }

  // ---------- what fits the format ----------

  predicate SafeComponent(s: string) {
    NoSpace(s) && '/' !in s
  }

  predicate SafeProps(m: Attrs) {
    forall k :: k in m ==> SafeAttr((k, m[k]))
  }

  predicate SafeIor(ior: Option<string>) {
    ior.Some? ==> IsWord(ior.value)
  }

  predicate SafeEvent(e: Event) {
    match e
    case Create(ch, props) => SafeComponent(ch) && SafeProps(props)
    case Destroy(ch) => SafeComponent(ch)
    case Connect(ch, key, target) => SafeComponent(ch) && SafeComponent(key.oid) && SafeIor(target)
    case Disconnect(ch, key) => SafeComponent(ch) && SafeComponent(key.oid)
    case Answer(ch, key, _) => SafeComponent(ch) && SafeComponent(key.oid)
    case Checkpoint(_) => true
    case Restart(_) => true
  }

  /** What is true of every connection. */
  predicate ConnOk(key: Key, c: Conn) {
    && SafeComponent(key.oid)
    && SafeIor(c.target)
    && (c.target.None? ==> key.kind == PullSupplier)
    && (c.restored ==> c.target.Some?)
    && c.ior == (if c.restored then Some(ReprintedIor(key.kind, c.target.value)) else c.target)
    && (c.isProxy || c.pending ==> HasFlag(key.kind))
    && (c.pending ==> !c.isProxy)
  }

  predicate ChannelOk(c: Channel) {
    SafeProps(c.props) && forall key :: key in c.conns ==> ConnOk(key, c.conns[key])
  }

  predicate LiveOk(live: Live) {
    && live.port > 0 && NoSpace(live.endPoint)
    && forall ch :: ch in live.channels ==> SafeComponent(ch) && ChannelOk(live.channels[ch])
  }

  /** The file replays to a tree that says the live state. */
  ghost predicate Inv(s: Server) {
    LiveOk(s.live) && Replays(s.text, Parse(s.text)) && Represents(Parse(s.text), s.live)
  }

  // ---------- the records are safe ----------

  lemma {:induction false} JoinNoSpace(p: Path)
    requires |p| > 0 && forall i :: 0 <= i < |p| ==> NoSpace(p[i])
    ensures NoSpace(Join(p))
    ensures p[0] != "" ==> Join(p) != "" && Join(p)[0] == p[0][0]
  {
    if |p| > 1 {
      JoinNoSpace(p[1..]);
    }
  }

  lemma UnderEcfSafe(p: Name)
    requires p[0] == "ecf" && forall i :: 1 <= i < |p| ==> SafeComponent(p[i])
    ensures NoSlash(p) && SafeName(Join(p)) && NoSpace(Join(p))
  {
    forall i | 0 <= i < |p| ensures SafeComponent(p[i]) {
      if i == 0 {
        EcfSafe();
      }
    }
    JoinNoSpace(p);
    assert Join(p)[0] == 'e';
  }

  lemma EcfSafe()
    ensures SafeComponent("ecf")
  {}

  lemma ConnPathSafe(ch: string, key: Key)
    requires SafeComponent(ch) && SafeComponent(key.oid)
    ensures NoSlash(ConnPath(ch, key)) && SafeName(Join(ConnPath(ch, key))) && NoSpace(Join(ConnPath(ch, key)))
  {
    assert SafeComponent(AdminName(key.kind)) && SafeComponent(KindName(key.kind));
    UnderEcfSafe(ConnPath(ch, key));
  }

  lemma ConnEntrySafe(ch: string, key: Key, c: Conn)
    requires SafeComponent(ch) && ConnOk(key, c)
    ensures SafeLog([ConnEntry(ch, key, c)])
  {
    ConnPathSafe(ch, key);
    assert SafeAttr(("proxy", "1"));
    assert c.ior.Some? ==> SafeAttr(("IOR", c.ior.value));
  }

  lemma ChannelEntrySafe(ch: string, props: Attrs)
    requires SafeComponent(ch) && SafeProps(props)
    ensures SafeLog([ChannelEntry(ch, props)])
  {
    UnderEcfSafe(ChannelPath(ch));
    SortedMembers(props.Keys);
  }

  lemma {:induction false} DecDigits(n: nat)
    ensures NoSpace(Dec(n))
  {
    if n >= 10 {
      DecDigits(n / 10);
    }
  }

  lemma EcfEntrySafe(live: Live)
    requires NoSpace(live.endPoint)
    ensures SafeLog([EcfEntry(live)])
  {
    UnderEcfSafe(ECF);
    DecDigits(live.port);
    assert SafeAttr(("port", Dec(live.port))) && SafeAttr(("endPointNoListen", live.endPoint));
  }

  lemma {:induction false} ConnLogSafe(ch: string, conns: map<Key, Conn>, ks: seq<Key>, i: nat)
    requires SafeComponent(ch) && i <= |ks| && forall k :: k in ks ==> k in conns && ConnOk(k, conns[k])
    ensures SafeLog(ConnLog(ch, conns, ks, i))
  {
    if i != 0 {
      ConnLogSafe(ch, conns, ks, i - 1);
      ConnEntrySafe(ch, ks[i - 1], conns[ks[i - 1]]);
      assert [ConnEntry(ch, ks[i - 1], conns[ks[i - 1]])][0] == ConnEntry(ch, ks[i - 1], conns[ks[i - 1]]);
    }
  }

  lemma {:induction false} ChannelsLogSafe(live: Live, plan: Plan, i: nat)
    requires LiveOk(live) && i <= |plan| && Walks(plan, live)
    ensures SafeLog(ChannelsLog(live, plan, i))
  {
    if i != 0 {
      var (ch, ks) := plan[i - 1];
      var c := live.channels[ch];
      ChannelsLogSafe(live, plan, i - 1);
      ChannelEntrySafe(ch, c.props);
      ConnLogSafe(ch, c.conns, ks, |ks|);
      var head, rest := [ChannelEntry(ch, c.props)], ConnLog(ch, c.conns, ks, |ks|);
      assert SafeLog(head + rest);
    }
  }

  lemma SnapshotSafe(live: Live, plan: Plan)
    requires LiveOk(live) && Walks(plan, live)
    ensures SafeLog(SnapshotLog(live, plan))
  {
    EcfEntrySafe(live);
    ChannelsLogSafe(live, plan, |plan|);
    var head, rest := [EcfEntry(live)], ChannelsLog(live, plan, |plan|);
    assert SafeLog(head + rest);
  }

  lemma StepSafe(s: Server, e: Event)
    requires SafeEvent(e) && Inv(s)
    ensures e.Create? ==> SafeLog([ChannelEntry(e.ch, e.props)])
    ensures e.Destroy? ==> SafeLog([EraseChannel(e.ch)])
    ensures e.Connect? && Accepts(s.live, e.ch, e.key, e.target) ==> SafeLog([ConnEntry(e.ch, e.key, NewConn(e.key, e.target))])
    ensures e.Disconnect? ==> SafeLog([EraseConn(e.ch, e.key)])
    ensures e.Answer? && Awaits(s.live, e.ch, e.key) ==>
      SafeLog([ConnEntry(e.ch, e.key, Answered(s.live.channels[e.ch].conns[e.key], e.isProxy))])
    ensures e.Checkpoint? && Fits(e.plan, s.live) ==> SafeLog(SnapshotLog(s.live, e.plan))
    ensures e.Restart? && Fits(e.plan, Recover(Parse(s.text))) ==>
      var live' := Recover(Parse(s.text)); SafeLog(ChannelsLog(live', e.plan, |e.plan|))
  {
    match e
    case Create(ch, props) => ChannelEntrySafe(ch, props);
    case Destroy(ch) => UnderEcfSafe(ChannelPath(ch));
    case Connect(ch, key, target) =>
      if Accepts(s.live, ch, key, target) {
        ConnEntrySafe(ch, key, NewConn(key, target));
      }
    case Disconnect(ch, key) => ConnPathSafe(ch, key);
    case Answer(ch, key, isProxy) =>
      if Awaits(s.live, ch, key) {
        ConnEntrySafe(ch, key, Answered(s.live.channels[ch].conns[key], isProxy));
      }
    case Checkpoint(plan) =>
      if Fits(plan, s.live) {
        SnapshotSafe(s.live, plan);
      }
    case Restart(plan) =>
      RecoverExact(Parse(s.text), s.live);
      ReloadedOk(s.live);
      if Fits(plan, Recover(Parse(s.text))) {
        ChannelsLogSafe(Recover(Parse(s.text)), plan, |plan|);
      }
  }

  // ---------- what a restart recovers ----------

  function ReloadedConn(key: Key, c: Conn): Option<Conn> {
    if c.ior.None? || c.ior.value == "" then None
    else Some(Conn(c.ior, Some(ReprintedIor(key.kind, c.ior.value)), c.isProxy, false, true))
  }

  function ReloadedChannel(c: Channel): Channel {
    Channel(c.props, map key | key in c.conns && ReloadedConn(key, c.conns[key]).Some? ::
      ReloadedConn(key, c.conns[key]).value)
  }

  /** The live state as a restart would find it, in terms of what was printed. */
  function Reloaded(live: Live): Live {
    live.(channels := map ch | ch in live.channels :: ReloadedChannel(live.channels[ch]))
  }

  lemma ReloadedOk(live: Live)
    requires LiveOk(live)
    ensures LiveOk(Reloaded(live))
  {}

  lemma {:induction false} SubAt(t: Tree, p: Path)
    ensures Lookup(t, p).Some? ==> Lookup(t, p).value == Sub(t, p).attr
    ensures Lookup(t, p).None? ==> Sub(t, p) == EMPTY
    decreases |p|
  {
    if p != [] && p[0] in t.child {
      SubAt(t.child[p[0]], p[1..]);
    }
  }

  lemma {:induction false} LookupBelow(t: Tree, p: Path, q: Path)
    ensures Lookup(t, p + q) == if Lookup(t, p).Some? then Lookup(Sub(t, p), q) else None
    decreases |p|
  {
    if p == [] {
      assert p + q == q;
    } else {
      assert (p + q)[1..] == p[1..] + q;
      if p[0] in t.child {
        LookupBelow(t.child[p[0]], p[1..], q);
      }
    }
  }

  predicate AllDigits(s: string) {
    forall i :: 0 <= i < |s| ==> '0' <= s[i] <= '9'
  }

  lemma {:induction false} DigitsSnoc(s: string, c: char, acc: nat)
    requires AllDigits(s) && '0' <= c <= '9'
    ensures Digits(s + [c], acc) == 10 * Digits(s, acc) + (c as int - '0' as int)
    decreases |s|
  {
    if s == "" {
      assert s + [c] == [c] && [c][1..] == "";
    } else {
      assert (s + [c])[1..] == s[1..] + [c];
      DigitsSnoc(s[1..], c, 10 * acc + (s[0] as int - '0' as int));
    }
  }

  lemma DigitValue(d: nat)
    requires d < 10
    ensures '0' <= Digit(d) <= '9' && Digit(d) as int - '0' as int == d
  {}

  lemma {:induction false} DigitsDec(n: nat)
    ensures AllDigits(Dec(n)) && Digits(Dec(n), 0) == n
  {
    if n < 10 {
      DigitValue(n);
      assert [Digit(n)][1..] == "";
    } else {
      DigitsDec(n / 10);
      DigitValue(n % 10);
      DigitsSnoc(Dec(n / 10), Digit(n % 10), 0);
    }
  }

  lemma AtolDec(n: nat)
    ensures Atol(Dec(n)) == n
  {
    DigitsDec(n);
    assert '0' <= Dec(n)[0];
  }

  /** A tree that holds one channel, up to bare branches. */
  ghost predicate RepresentsChannel(t: Tree, c: Channel) {
    forall q: Path :: Lookup(t, q) == KeptBelow(c, q) || (1 <= |q| <= 2 && Lookup(t, q) == Some(map[]))
  }

  lemma RestoreConnExact(key: Key, c: Conn)
    requires ConnOk(key, c)
    ensures RestoreConn(key.kind, AttrMap(ConnAttrs(c))) == ReloadedConn(key, c)
  {
    var a := ConnAttrs(c);
    if c.ior.Some? {
      var ior := ("IOR", c.ior.value);
      if c.isProxy {
        assert a == [ior, ("proxy", "1")] && a[..1] == [ior];
        assert AttrMap(a) == AttrMap([ior])["proxy" := "1"];
        assert Digits("1", 0) == Digits("", 1) == 1;
      } else {
        assert a == [ior];
      }
      assert AttrMap([ior]) == AttrMap([])["IOR" := c.ior.value];
    } else {
      assert AttrMap(a) == map[];
    }
  }

  lemma RestoreKindExact(t: Tree, c: Channel, kind: Kind, oid: string)
    requires RepresentsChannel(t, c) && ChannelOk(c)
    ensures Key(kind, oid) in RestoreKind(t, kind) <==> Key(kind, oid) in ReloadedChannel(c).conns
    ensures Key(kind, oid) in RestoreKind(t, kind) ==>
      RestoreKind(t, kind)[Key(kind, oid)] == ReloadedChannel(c).conns[Key(kind, oid)]
  {
    var p := [AdminName(kind), KindName(kind)];
    var key := Key(kind, oid);
    var n := Sub(t, p);
    var q := p + [oid];
    KindAtNames(kind);
    assert Lookup(t, q) == KeptBelow(c, q);
    LookupBelow(t, p, [oid]);
    SubAt(t, p);
    assert oid in n.child <==> key in c.conns by {
      if Lookup(t, p).Some? {
        LookupChild(n, oid, []);
        assert [oid] + [] == [oid];
      }
    }
    if key in c.conns {
      assert [oid][1..] == [] && Lookup(n, [oid]) == Some(n.child[oid].attr);
      RestoreConnExact(key, c.conns[key]);
    }
  }

  lemma RestoreChannelExact(t: Tree, c: Channel)
    requires RepresentsChannel(t, c) && ChannelOk(c)
    ensures RestoreChannel(t) == ReloadedChannel(c)
  {
    assert Lookup(t, []) == KeptBelow(c, []);
    var a, b := RestoreChannel(t).conns, ReloadedChannel(c).conns;
    forall key: Key ensures (key in a <==> key in b) && (key in a ==> a[key] == b[key]) {
      RestoreAt(t, c, key);
    }
    SameMap(a, b);
  }

  lemma SameMap<K, V>(a: map<K, V>, b: map<K, V>)
    requires forall k :: (k in a <==> k in b) && (k in a ==> a[k] == b[k])
    ensures a == b
  {}

  lemma RestoreAt(t: Tree, c: Channel, key: Key)
    requires RepresentsChannel(t, c) && ChannelOk(c)
    ensures key in RestoreChannel(t).conns <==> key in ReloadedChannel(c).conns
    ensures key in RestoreChannel(t).conns ==> RestoreChannel(t).conns[key] == ReloadedChannel(c).conns[key]
  {
    RestoreUnion(t, key);
    RestoreKindExact(t, c, key.kind, key.oid);
  }

  lemma RestoreUnion(t: Tree, key: Key)
    ensures key in RestoreChannel(t).conns <==> key in RestoreKind(t, key.kind)
    ensures key in RestoreKind(t, key.kind) ==> RestoreChannel(t).conns[key] == RestoreKind(t, key.kind)[key]
  {
    KindsApart(t, PushConsumer, key);
    KindsApart(t, PullConsumer, key);
    KindsApart(t, PushSupplier, key);
    KindsApart(t, PullSupplier, key);
  }

  lemma KindsApart(t: Tree, kind: Kind, key: Key)
    ensures key in RestoreKind(t, kind) ==> key.kind == kind
  {}

  lemma RecoverEcf(t: Tree, live: Live)
    requires Represents(t, live)
    ensures Lookup(t, ECF) == Some(AttrMap(EcfAttrs(live)))
    ensures var a := AttrMap(EcfAttrs(live));
      AttrLong(a, "port", 11169) == live.port && AttrString(a, "endPointNoListen", "") == live.endPoint
  {
    assert Agrees(t, live, ECF);
    AtolDec(live.port);
    var a := EcfAttrs(live);
    var port := ("port", Dec(live.port));
    assert AttrMap([port]) == AttrMap([])["port" := Dec(live.port)];
    if live.endPoint == "" {
      assert a == [port];
    } else {
      assert a[..1] == [port];
      assert AttrMap(a) == AttrMap([port])["endPointNoListen" := live.endPoint];
    }
  }

  lemma RecoverChannel(t: Tree, live: Live, ch: string)
    requires Represents(t, live) && LiveOk(live)
    ensures var ecf := Sub(t, ECF);
      && (ch in ecf.child <==> ch in live.channels)
      && (ch in ecf.child ==> RestoreChannel(ecf.child[ch]) == ReloadedChannel(live.channels[ch]))
  {
    var ecf := Sub(t, ECF);
    assert Agrees(t, live, ECF);
    LookupBelow(t, ECF, [ch]);
    LookupChild(ecf, ch, []);
    assert [ch] + [] == [ch] && ECF + [ch] == ChannelPath(ch);
    assert Agrees(t, live, ChannelPath(ch));
    if ch in live.channels {
      var n := ecf.child[ch];
      forall q: Path
        ensures Lookup(n, q) == KeptBelow(live.channels[ch], q) || (1 <= |q| <= 2 && Lookup(n, q) == Some(map[]))
      {
        var p := ECF + ([ch] + q);
        LookupBelow(t, ECF, [ch] + q);
        LookupChild(ecf, ch, q);
        assert Agrees(t, live, p);
        assert p[0] == "ecf" && p[1] == ch && p[2..] == q;
      }
      RestoreChannelExact(n, live.channels[ch]);
    }
  }

  /** A restart finds exactly what was printed. */
  lemma RecoverExact(t: Tree, live: Live)
    requires Represents(t, live) && LiveOk(live)
    ensures Recover(t) == Reloaded(live)
  {
    RecoverEcf(t, live);
    SubAt(t, ECF);
    var a, b := Recover(t).channels, Reloaded(live).channels;
    forall ch ensures (ch in a <==> ch in b) && (ch in a ==> a[ch] == b[ch]) {
      RecoverChannel(t, live, ch);
    }
    SameMap(a, b);
  }

  // ---------- main results ----------

  lemma AppendKeeps(s: Server, log: seq<Entry>, live': Live)
    requires Inv(s) && SafeLog(log) && LiveOk(live')
    requires Represents(ApplyLog(Parse(s.text), log), live')
    ensures Inv(Append(s, live', log))
  {
    ReplaysAppend(s.text, Parse(s.text), log);
    ReplaysNow(s.text + LogText(log), ApplyLog(Parse(s.text), log));
  }

  lemma AppendOne(t: Tree, e: Entry)
    ensures ApplyLog(t, [e]) == ApplyOp(t, e.op)
  {
    ApplyLogCons(t, e, []);
    assert [e] + [] == [e] && ApplyLog(ApplyOp(t, e.op), []) == ApplyOp(t, e.op);
  }

  lemma StepKeepsInv(s: Server, e: Event)
    requires SafeEvent(e) && Inv(s)
    ensures Inv(Step(s, e))
  {
    hide Represents, Replays, ApplyLog, ApplyOp, SafeLog;
    StepSafe(s, e);
    var t, live := Parse(s.text), s.live;
    match e
    case Create(ch, props) =>
      if ch !in live.channels {
        AppendOne(t, ChannelEntry(ch, props));
        PutChannel(t, live, ch, props);
        AppendKeeps(s, [ChannelEntry(ch, props)], live.(channels := live.channels[ch := Channel(props, map[])]));
      }
    case Destroy(ch) =>
      if ch in live.channels {
        AppendOne(t, EraseChannel(ch));
        DelChannel(t, live, ch);
        AppendKeeps(s, [EraseChannel(ch)], live.(channels := live.channels - {ch}));
      }
    case Connect(ch, key, target) =>
      if Accepts(live, ch, key, target) {
        ConnKeepsInv(s, ch, key, NewConn(key, target));
      }
    case Disconnect(ch, key) =>
      if ch in live.channels && (key.kind != PushConsumer || key in live.channels[ch].conns) {
        AppendOne(t, EraseConn(ch, key));
        DelConn(t, live, ch, key);
        AppendKeeps(s, [EraseConn(ch, key)], WithoutConn(live, ch, key));
      }
    case Answer(ch, key, isProxy) =>
      if Awaits(live, ch, key) {
        var c := Answered(live.channels[ch].conns[key], isProxy);
        if c.isProxy {
          ConnKeepsInv(s, ch, key, c);
        } else {
          UnloggedAnswer(t, live, ch, key, c);
        }
      }
    case Checkpoint(plan) =>
      if Fits(plan, live) {
        CheckpointStarts(live, plan);
      }
    case Restart(plan) =>
      RestartKeepsInv(s, plan);
  }

  lemma ConnKeepsInv(s: Server, ch: string, key: Key, c: Conn)
    requires Inv(s) && ch in s.live.channels && ConnOk(key, c)
    ensures Inv(Append(s, WithConn(s.live, ch, key, c), [ConnEntry(ch, key, c)]))
  {
    ConnEntrySafe(ch, key, c);
    AppendOne(Parse(s.text), ConnEntry(ch, key, c));
    PutConn(Parse(s.text), s.live, ch, key, c);
    AppendKeeps(s, [ConnEntry(ch, key, c)], WithConn(s.live, ch, key, c));
  }

  lemma RestartKeepsInv(s: Server, plan: Plan)
    requires Inv(s)
    ensures Inv(Step(s, Restart(plan)))
  {
    StepSafe(s, Restart(plan));
    var t := Parse(s.text);
    RecoverExact(t, s.live);
    ReloadedOk(s.live);
    if Fits(plan, Recover(t)) {
      RestartRepresents(t, s.live, plan);
      AppendKeeps(s, ChannelsLog(Recover(t), plan, |plan|), Recover(t));
    }
  }

  /** An answer of "not a proxy" needs no record: the log does not say otherwise. */
  lemma UnloggedAnswer(t: Tree, live: Live, ch: string, key: Key, c: Conn)
    requires Represents(t, live) && ch in live.channels && key in live.channels[ch].conns
    requires ConnAttrs(c) == ConnAttrs(live.channels[ch].conns[key])
    ensures Represents(t, WithConn(live, ch, key, c))
  {
    forall q: Path ensures Agrees(t, WithConn(live, ch, key, c), q) {
      assert Agrees(t, live, q);
      KeptWithConn(live, ch, key, c, q);
      KindAtNames(key.kind);
    }
  }

  lemma RestartRepresents(t: Tree, live: Live, plan: Plan)
    requires Represents(t, live) && LiveOk(live) && Fits(plan, Reloaded(live))
    ensures Represents(ApplyLog(t, ChannelsLog(Reloaded(live), plan, |plan|)), Reloaded(live))
  {
    var live' := Reloaded(live);
    PutChannelsLog(t, live, live', plan, |plan|);
    MixedAll(live.channels, live', plan);
  }

  ghost predicate SafeRun(es: seq<Event>) {
    forall i :: 0 <= i < |es| ==> SafeEvent(es[i])
  }

  ghost predicate Steps(ss: seq<Server>, es: seq<Event>) {
    && |ss| == |es| + 1
    && forall i :: 0 <= i < |es| ==> ss[i + 1] == Step(ss[i], es[i])
  }

  /** Every state of every run that starts right after a checkpoint. */
  lemma {:induction false} RunKeepsInv(ss: seq<Server>, es: seq<Event>, i: nat)
    requires SafeRun(es) && Steps(ss, es) && Inv(ss[0]) && i <= |es|
    ensures Inv(ss[i])
  {
    if i != 0 {
      RunKeepsInv(ss, es, i - 1);
      StepKeepsInv(ss[i - 1], es[i - 1]);
    }
  }

  /** In every state of every run, reading the file gives the tree that a snapshot of the
      live state would print, up to bare branches. */
  lemma LogIsSnapshot(ss: seq<Server>, es: seq<Event>, i: nat, plan: Plan)
    requires SafeRun(es) && Steps(ss, es) && Inv(ss[0]) && i <= |es| && Fits(plan, ss[i].live)
    ensures LiveOk(ss[i].live) && SafeLog(SnapshotLog(ss[i].live, plan))
    ensures SameButBranches(Parse(ss[i].text), Parse(LogText(SnapshotLog(ss[i].live, plan)) + "\n"))
  {
    RunKeepsInv(ss, es, i);
    var live := ss[i].live;
    SnapshotSafe(live, plan);
    SnapshotRepresents(live, plan);
    ReplaysFresh(SnapshotLog(live, plan));
    ReplaysNow(LogText(SnapshotLog(live, plan)) + "\n", ApplyLog(EMPTY, SnapshotLog(live, plan)));
    RepresentUnique(Parse(ss[i].text), ApplyLog(EMPTY, SnapshotLog(live, plan)), live);
  }

  /** After a checkpoint a run can start. */
  lemma CheckpointStarts(live: Live, plan: Plan)
    requires LiveOk(live) && Fits(plan, live)
    ensures SafeLog(SnapshotLog(live, plan)) && Inv(Server(live, LogText(SnapshotLog(live, plan)) + "\n"))
  {
    SnapshotSafe(live, plan);
    SnapshotRepresents(live, plan);
    ReplaysFresh(SnapshotLog(live, plan));
    ReplaysNow(LogText(SnapshotLog(live, plan)) + "\n", ApplyLog(EMPTY, SnapshotLog(live, plan)));
  }

  // ---------- when a restart keeps every client ----------

  ghost predicate KeepsClients(live: Live, live': Live) {
    forall ch, key :: ch in live.channels && key in live.channels[ch].conns ==>
      && ch in live'.channels && key in live'.channels[ch].conns
      && live'.channels[ch].conns[key].target == live.channels[ch].conns[key].target
  }

  /** A push supplier that has been through a restart before, or a pull supplier whose
      client gave no reference, is lost by the next restart. */
  predicate Forgotten(key: Key, c: Conn) {
    (key.kind == PushSupplier && c.restored) || c.target.None?
  }

  /** In every state of every run, a restart keeps all clients if and only if no
      connection is of the two kinds that it forgets. */
  lemma RestartKeepsClientsIff(s: Server)
    requires Inv(s)
    ensures KeepsClients(s.live, Recover(Parse(s.text))) <==>
      forall ch, key :: ch in s.live.channels && key in s.live.channels[ch].conns ==>
        !Forgotten(key, s.live.channels[ch].conns[key])
  {
    RecoverExact(Parse(s.text), s.live);
    forall ch, key | ch in s.live.channels && key in s.live.channels[ch].conns
      ensures (&& key in Reloaded(s.live).channels[ch].conns
               && Reloaded(s.live).channels[ch].conns[key].target == s.live.channels[ch].conns[key].target)
        <==> !Forgotten(key, s.live.channels[ch].conns[key])
    {
      assert ConnOk(key, s.live.channels[ch].conns[key]);
    }
  }

  /** A consumer that stays connected through two restarts is forgotten by the second. */
  lemma SecondRestartForgets(live: Live, ch: string, key: Key)
    requires LiveOk(live) && ch in live.channels && key in live.channels[ch].conns && key.kind == PushSupplier
    requires !live.channels[ch].conns[key].restored
    ensures var once := Reloaded(live);
      && key in once.channels[ch].conns
      && once.channels[ch].conns[key].target == live.channels[ch].conns[key].target
      && key !in Reloaded(once).channels[ch].conns
  {
    assert ConnOk(key, live.channels[ch].conns[key]);
  }
}
