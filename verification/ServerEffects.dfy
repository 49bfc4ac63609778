/** What each event does to the live state and to what the file says, in terms of both and
    not of the step: the steps could not do anything else. */
module ServerEffects {
  import opened Text
  import opened PersistTree
  import opened PersistFormat
  import opened PersistPrint
  import opened EventLog
  import opened ServerRuns
  import opened Wrappers

  // ---------- what the file says ----------

  /** The attributes that reading the file gives to the node at p, if there is one. */
  function InFile(s: Server, p: Path): Option<Attrs> {
    Lookup(Parse(s.text), p)
  }

  /** Where a connection is kept. */
  function Place(ch: string, key: Key): Path {
    match key.kind
    case PushConsumer => ["ecf", ch, "SupplierAdmin", "ProxyPushConsumer", key.oid]
    case PullConsumer => ["ecf", ch, "SupplierAdmin", "ProxyPullConsumer", key.oid]
    case PushSupplier => ["ecf", ch, "ConsumerAdmin", "ProxyPushSupplier", key.oid]
    case PullSupplier => ["ecf", ch, "ConsumerAdmin", "ProxyPullSupplier", key.oid]
  }

  predicate Connected(live: Live, ch: string, key: Key) {
    ch in live.channels && key in live.channels[ch].conns
  }

  function ConnAt(live: Live, ch: string, key: Key): Conn
    requires Connected(live, ch, key)
  {
    live.channels[ch].conns[key]
  }

  /** A connection is in the file if and only if it is live, with the reference that its proxy
      prints and the mark of a proxy. */
  lemma ConnInFile(s: Server, ch: string, key: Key)
    requires Inv(s)
    ensures InFile(s, Place(ch, key)) ==
      if !Connected(s.live, ch, key) then None
      else
        var c := ConnAt(s.live, ch, key);
        if c.ior.None? then Some(map[])
        else if c.isProxy then Some(map["IOR" := c.ior.value, "proxy" := "1"])
        else Some(map["IOR" := c.ior.value])
  {
    var p := Place(ch, key);
    assert Agrees(Parse(s.text), s.live, p);
    KindAtNames(key.kind);
    assert p == ConnPath(ch, key) && !Branch(s.live, p);
    assert p[2..] == [AdminName(key.kind), KindName(key.kind), key.oid];
    if Connected(s.live, ch, key) {
      AttrsAre(ConnAt(s.live, ch, key));
    }
  }

  lemma AttrsAre(c: Conn)
    ensures AttrMap(ConnAttrs(c)) ==
      if c.ior.None? then map[]
      else if c.isProxy then map["IOR" := c.ior.value, "proxy" := "1"]
      else map["IOR" := c.ior.value]
  {
    var a := ConnAttrs(c);
    if c.ior.Some? {
      var ior := ("IOR", c.ior.value);
      assert AttrMap([ior]) == map["IOR" := c.ior.value] by {
        assert [ior][..0] == [];
      }
      if c.isProxy {
        assert a == [ior, ("proxy", "1")] && a[..1] == [ior];
      } else {
        assert a == [ior];
      }
    }
  }

  /** A channel is in the file if and only if it is live, with its properties. */
  lemma ChannelInFile(s: Server, ch: string)
    requires Inv(s)
    ensures InFile(s, ["ecf", ch]) == if ch in s.live.channels then Some(s.live.channels[ch].props) else None
  {
    assert Agrees(Parse(s.text), s.live, ["ecf", ch]);
    assert ["ecf", ch][2..] == [];
  }

  /** The factory's record. */
  lemma EcfInFile(s: Server)
    requires Inv(s)
    ensures InFile(s, ["ecf"]) == Some(
      if s.live.endPoint == "" then map["port" := Dec(s.live.port)]
      else map["port" := Dec(s.live.port), "endPointNoListen" := s.live.endPoint])
  {
    assert Agrees(Parse(s.text), s.live, ["ecf"]);
    var a, port := EcfAttrs(s.live), ("port", Dec(s.live.port));
    assert AttrMap([port]) == map["port" := Dec(s.live.port)] by {
      assert [port][..0] == [];
    }
    if s.live.endPoint == "" {
      assert a == [port];
    } else {
      assert a == [port, ("endPointNoListen", s.live.endPoint)] && a[..1] == [port];
    }
  }

  // ---------- what stays as it was ----------

  /** All but the channel ch. */
  ghost predicate ElseSame(live: Live, live': Live, ch: string) {
    && live'.port == live.port && live'.endPoint == live.endPoint
    && forall c :: c != ch ==>
      (c in live'.channels <==> c in live.channels) && (c in live.channels ==> live'.channels[c] == live.channels[c])
  }

  /** All of ch but the connection key. */
  ghost predicate OthersSame(live: Live, live': Live, ch: string, key: Key) {
    && ElseSame(live, live', ch)
    && ch in live.channels && ch in live'.channels && live'.channels[ch].props == live.channels[ch].props
    && forall k :: k != key ==>
      (Connected(live', ch, k) <==> Connected(live, ch, k)) && (Connected(live, ch, k) ==> ConnAt(live', ch, k) == ConnAt(live, ch, k))
  }

  // ---------- each event ----------

  lemma CreateDoes(s: Server, ch: string, props: Attrs)
    requires Inv(s) && SafeEvent(Create(ch, props))
    ensures var s' := Step(s, Create(ch, props));
      if ch in s.live.channels then s' == s
      else
        && ElseSame(s.live, s'.live, ch)
        && ch in s'.live.channels && s'.live.channels[ch] == Channel(props, map[])
        && InFile(s', ["ecf", ch]) == Some(props) && forall key :: InFile(s', Place(ch, key)) == None
  {
    var s' := Step(s, Create(ch, props));
    StepKeepsInv(s, Create(ch, props));
    ChannelInFile(s', ch);
    if ch !in s.live.channels {
      forall key ensures InFile(s', Place(ch, key)) == None {
        ConnInFile(s', ch, key);
      }
    }
  }

  lemma DestroyDoes(s: Server, ch: string)
    requires Inv(s) && SafeEvent(Destroy(ch))
    ensures var s' := Step(s, Destroy(ch));
      && ElseSame(s.live, s'.live, ch) && ch !in s'.live.channels
      && InFile(s', ["ecf", ch]) == None && forall key :: InFile(s', Place(ch, key)) == None
  {
    var s' := Step(s, Destroy(ch));
    StepKeepsInv(s, Destroy(ch));
    ChannelInFile(s', ch);
    forall key ensures InFile(s', Place(ch, key)) == None {
      ConnInFile(s', ch, key);
    }
  }

  /** A connection is made if there is none yet, and the client gives a reference or the proxy
      is one that can do without. A push consumer or supplier then awaits an answer. */
  lemma ConnectDoes(s: Server, ch: string, key: Key, target: Option<string>)
    requires Inv(s) && SafeEvent(Connect(ch, key, target))
    ensures var s' := Step(s, Connect(ch, key, target));
      if ch !in s.live.channels || Connected(s.live, ch, key) || (target.None? && key.kind != PullSupplier) then s' == s
      else
        && OthersSame(s.live, s'.live, ch, key) && Connected(s'.live, ch, key)
        && var c := ConnAt(s'.live, ch, key);
        && c.target == target && c.ior == target && !c.isProxy && !c.restored
        && (c.pending <==> key.kind == PushConsumer || key.kind == PushSupplier)
        && InFile(s', Place(ch, key)) == Some(if target.None? then map[] else map["IOR" := target.value])
  {
    var s' := Step(s, Connect(ch, key, target));
    assert Inv(s') by {
      StepKeepsInv(s, Connect(ch, key, target));
    }
    hide Inv, Step, Place;
    ConnectOnLive(s, ch, key, target);
    ConnInFile(s', ch, key);
  }

  lemma ConnectOnLive(s: Server, ch: string, key: Key, target: Option<string>)
    ensures var s' := Step(s, Connect(ch, key, target));
      if ch !in s.live.channels || Connected(s.live, ch, key) || (target.None? && key.kind != PullSupplier) then s' == s
      else
        && OthersSame(s.live, s'.live, ch, key) && Connected(s'.live, ch, key)
        && var c := ConnAt(s'.live, ch, key);
        && c.target == target && c.ior == target && !c.isProxy && !c.restored
        && (c.pending <==> key.kind == PushConsumer || key.kind == PushSupplier)
  {
    hide LogText, Parse, Recover;
  }

  /** Afterwards the client is gone, from the live state and from the file. */
  lemma DisconnectDoes(s: Server, ch: string, key: Key)
    requires Inv(s) && SafeEvent(Disconnect(ch, key))
    ensures var s' := Step(s, Disconnect(ch, key));
      && !Connected(s'.live, ch, key) && InFile(s', Place(ch, key)) == None
      && (ch in s.live.channels ==> OthersSame(s.live, s'.live, ch, key))
      && (ch !in s.live.channels ==> s' == s)
  {
    var s' := Step(s, Disconnect(ch, key));
    assert Inv(s') by {
      StepKeepsInv(s, Disconnect(ch, key));
    }
    hide Inv, Step, Place;
    DisconnectOnLive(s, ch, key);
    ConnInFile(s', ch, key);
  }

  lemma DisconnectOnLive(s: Server, ch: string, key: Key)
    ensures var s' := Step(s, Disconnect(ch, key));
      && !Connected(s'.live, ch, key)
      && (ch in s.live.channels ==> OthersSame(s.live, s'.live, ch, key))
      && (ch !in s.live.channels ==> s' == s)
  {
    hide LogText, Parse, Recover;
  }

  /** The mark of a proxy is set if and only if that was the answer. */
  lemma AnswerDoes(s: Server, ch: string, key: Key, isProxy: Option<bool>)
    requires Inv(s) && SafeEvent(Answer(ch, key, isProxy))
    ensures var s' := Step(s, Answer(ch, key, isProxy));
      if !Connected(s.live, ch, key) || !ConnAt(s.live, ch, key).pending then s' == s
      else
        && OthersSame(s.live, s'.live, ch, key) && Connected(s'.live, ch, key)
        && var c, c' := ConnAt(s.live, ch, key), ConnAt(s'.live, ch, key);
        && c'.target == c.target && c'.ior == c.ior && c'.restored == c.restored && !c'.pending
        && (c'.isProxy <==> isProxy == Some(true))
        && var a := InFile(s', Place(ch, key));
        && a.Some? && ("proxy" in a.value <==> c'.ior.Some? && isProxy == Some(true))
  {
    var s' := Step(s, Answer(ch, key, isProxy));
    assert Inv(s') by {
      StepKeepsInv(s, Answer(ch, key, isProxy));
    }
    hide Inv, Step, Place;
    AnswerOnLive(s, ch, key, isProxy);
    ConnInFile(s', ch, key);
  }

  lemma AnswerOnLive(s: Server, ch: string, key: Key, isProxy: Option<bool>)
    ensures var s' := Step(s, Answer(ch, key, isProxy));
      if !Connected(s.live, ch, key) || !ConnAt(s.live, ch, key).pending then s' == s
      else
        && OthersSame(s.live, s'.live, ch, key) && Connected(s'.live, ch, key)
        && var c, c' := ConnAt(s.live, ch, key), ConnAt(s'.live, ch, key);
        && c'.target == c.target && c'.ior == c.ior && c'.restored == c.restored && !c'.pending
        && (c'.isProxy <==> isProxy == Some(true))
  {
    hide LogText, Parse, Recover;
  }

  /** The state stays as it is, and the file says just that state. */
  lemma CheckpointDoes(s: Server, plan: Plan)
    requires Inv(s)
    ensures var s' := Step(s, Checkpoint(plan));
      && s'.live == s.live
      && (!Fits(plan, s.live) ==> s' == s)
      && (Fits(plan, s.live) ==> Parse(s'.text) == ApplyLog(EMPTY, SnapshotLog(s.live, plan)))
  {
    CheckpointIs(s, plan);
    assert LiveOk(s.live);
    hide *;
    if Fits(plan, s.live) {
      SnapshotReads(s.live, plan);
    }
  }

  lemma CheckpointIs(s: Server, plan: Plan)
    ensures Step(s, Checkpoint(plan)) ==
      if Fits(plan, s.live) then Server(s.live, LogText(SnapshotLog(s.live, plan)) + "\n") else s
  {
    hide LogText, SnapshotLog, Recover, Parse;
  }

  lemma SnapshotReads(live: Live, plan: Plan)
    requires LiveOk(live) && Fits(plan, live)
    ensures Parse(LogText(SnapshotLog(live, plan)) + "\n") == ApplyLog(EMPTY, SnapshotLog(live, plan))
  {
    SnapshotSafe(live, plan);
    assert Lex("\n") == [];
    hide Lex, SnapshotLog, Parse, ApplyLog, SafeLog;
    Replay(SnapshotLog(live, plan), "\n");
  }

  /** What is made of a node of the file: nothing without a reference, and else a proxy with
      that client, which is taken for a proxy again if it says so and can be. */
  lemma RestoreMeans(kind: Kind, a: Attrs)
    ensures RestoreConn(kind, a).None? <==> "IOR" !in a || a["IOR"] == ""
    ensures RestoreConn(kind, a).Some? ==>
      var c := RestoreConn(kind, a).value;
      && c.target == Some(a["IOR"]) && c.restored && !c.pending
      && c.ior == Some(if kind == PushSupplier then "" else a["IOR"])
      && (c.isProxy <==> (kind == PushConsumer || kind == PushSupplier) && "proxy" in a && Atol(a["proxy"]) != 0)
  {
  }

  /** What a file without a port or an end point stands for. */
  lemma RecoverDefaults(t: Tree)
    ensures "port" !in Sub(t, ["ecf"]).attr ==> Recover(t).port == 11169
    ensures "endPointNoListen" !in Sub(t, ["ecf"]).attr ==> Recover(t).endPoint == ""
    ensures Recover(t).channels.Keys == Sub(t, ["ecf"]).child.Keys
  {
  }

  /** What is left of a client by a restart: the proxies that printed a reference, with that
      reference, made anew. */
  lemma RestartDoes(s: Server, plan: Plan)
    requires Inv(s) && Fits(plan, Recover(Parse(s.text)))
    ensures var s' := Step(s, Restart(plan));
      && s'.live.port == s.live.port && s'.live.endPoint == s.live.endPoint
      && s'.live.channels.Keys == s.live.channels.Keys
      && forall ch :: ch in s.live.channels ==>
        && s'.live.channels[ch].props == s.live.channels[ch].props
        && forall key :: Survives(s.live, s'.live, ch, key)
  {
    RestartIs(s, plan);
    ReloadedSame(s.live);
    assert LiveOk(s.live);
    hide *;
    forall ch, key | ch in s.live.channels ensures Survives(s.live, Reloaded(s.live), ch, key) {
      ReloadedSurvives(s.live, ch, key);
    }
  }

  lemma RestartIs(s: Server, plan: Plan)
    requires Inv(s) && Fits(plan, Recover(Parse(s.text)))
    ensures Step(s, Restart(plan)).live == Reloaded(s.live)
  {
    RecoverExact(Parse(s.text), s.live);
    hide Inv, Recover, Parse, Reloaded, LogText, Fits;
  }

  lemma ReloadedSame(live: Live)
    ensures var live' := Reloaded(live);
      && live'.port == live.port && live'.endPoint == live.endPoint && live'.channels.Keys == live.channels.Keys
      && forall ch :: ch in live.channels ==> live'.channels[ch].props == live.channels[ch].props
  {
  }

  lemma ReloadedSurvives(live: Live, ch: string, key: Key)
    requires LiveOk(live) && ch in live.channels
    ensures Survives(live, Reloaded(live), ch, key)
  {
    if Connected(live, ch, key) {
      assert ConnOk(key, ConnAt(live, ch, key));
    }
  }

  /** A client is kept unless it gave no reference, or gets its events pushed by a proxy that
      was itself restored. The proxy that is made for it prints its reference, but for one that
      pushes. */
  ghost predicate Survives(live: Live, live': Live, ch: string, key: Key) {
    if !Connected(live, ch, key) then !Connected(live', ch, key)
    else
      var c := ConnAt(live, ch, key);
      && (Connected(live', ch, key) <==> c.target.Some? && !(key.kind == PushSupplier && c.restored))
      && (Connected(live', ch, key) ==>
            var c' := ConnAt(live', ch, key);
            && c'.target == c.target && c'.isProxy == c.isProxy && c'.restored && !c'.pending
            && c'.ior == (if key.kind == PushSupplier then Some("") else c.target))
  }

  // ---------- whole runs ----------

  /** The event makes the connection: it is accepted. */
  predicate Makes(s: Server, e: Event, ch: string, key: Key) {
    && e.Connect? && e.ch == ch && e.key == key
    && ch in s.live.channels && !Connected(s.live, ch, key) && (e.target.Some? || key.kind == PullSupplier)
  }

  /** The event ends the connection: a disconnect, the end of its channel, or a restart that
      forgets it. */
  ghost predicate Ends(s: Server, e: Event, ch: string, key: Key) {
    || (e.Disconnect? && e.ch == ch && e.key == key)
    || (e.Destroy? && e.ch == ch)
    || (e.Restart? && Fits(e.plan, Recover(Parse(s.text))) && Connected(s.live, ch, key)
        && (ConnAt(s.live, ch, key).target.None? || (key.kind == PushSupplier && ConnAt(s.live, ch, key).restored)))
  }

  lemma StepConnects(s: Server, e: Event, ch: string, key: Key)
    requires Inv(s) && SafeEvent(e)
    ensures Connected(Step(s, e).live, ch, key) <==>
      Makes(s, e, ch, key) || (Connected(s.live, ch, key) && !Ends(s, e, ch, key))
  {
    hide Inv, Step, RestoreChannel, Recover, Parse;
    match e
    case Create(c, props) => CreateDoes(s, c, props);
    case Destroy(c) => DestroyDoes(s, c);
    case Connect(c, k, target) => ConnectDoes(s, c, k, target);
    case Disconnect(c, k) => DisconnectDoes(s, c, k);
    case Answer(c, k, isProxy) => AnswerDoes(s, c, k, isProxy);
    case Checkpoint(plan) => CheckpointDoes(s, plan);
    case Restart(plan) =>
      if Fits(plan, Recover(Parse(s.text))) {
        RestartDoes(s, plan);
        assert ch in s.live.channels ==> Survives(s.live, Step(s, e).live, ch, key);
      } else {
        RestartNot(s, plan);
      }
  }

  lemma RestartNot(s: Server, plan: Plan)
    requires !Fits(plan, Recover(Parse(s.text)))
    ensures Step(s, Restart(plan)) == s
  {
    hide Fits, Recover, Parse, LogText, ChannelsLog;
  }

  /** The connection is there at m because it was from the start, or was just made. */
  ghost predicate BeginsAt(ss: seq<Server>, es: seq<Event>, ch: string, key: Key, m: nat)
    requires |ss| == |es| + 1 && m <= |es|
  {
    if m == 0 then Connected(ss[0].live, ch, key) else Makes(ss[m - 1], es[m - 1], ch, key)
  }

  ghost predicate NotEnded(ss: seq<Server>, es: seq<Event>, ch: string, key: Key, m: nat, i: nat)
    requires |ss| == |es| + 1 && m <= i <= |es|
  {
    forall k :: m <= k < i ==> !Ends(ss[k], es[k], ch, key)
  }

  /** In every state of every run, a client is connected if and only if it was from the start,
      or a connect was accepted, and no disconnect, destruction or forgetting restart came
      after that. */
  lemma {:induction false} ConnectedIff(ss: seq<Server>, es: seq<Event>, ch: string, key: Key, i: nat)
    requires SafeRun(es) && Steps(ss, es) && Inv(ss[0]) && i <= |es|
    ensures Connected(ss[i].live, ch, key) <==>
      exists m :: 0 <= m <= i && BeginsAt(ss, es, ch, key, m) && NotEnded(ss, es, ch, key, m, i)
  {
    hide Inv, Makes, Ends, Connected, Step, BeginsAt;
    if i == 0 {
      StartBegins(ss, es, ch, key);
    } else {
      RunKeepsInv(ss, es, i - 1);
      ConnectedIff(ss, es, ch, key, i - 1);
      StepConnects(ss[i - 1], es[i - 1], ch, key);
      BeginsNow(ss, es, ch, key, i);
      forall m | 0 <= m < i
        ensures NotEnded(ss, es, ch, key, m, i) <==> NotEnded(ss, es, ch, key, m, i - 1) && !Ends(ss[i - 1], es[i - 1], ch, key)
      {
      }
    }
  }

  lemma StartBegins(ss: seq<Server>, es: seq<Event>, ch: string, key: Key)
    requires |ss| == |es| + 1
    ensures NotEnded(ss, es, ch, key, 0, 0) && (BeginsAt(ss, es, ch, key, 0) <==> Connected(ss[0].live, ch, key))
  {
  }

  lemma BeginsNow(ss: seq<Server>, es: seq<Event>, ch: string, key: Key, i: nat)
    requires |ss| == |es| + 1 && 0 < i <= |es|
    ensures NotEnded(ss, es, ch, key, i, i) && (BeginsAt(ss, es, ch, key, i) <==> Makes(ss[i - 1], es[i - 1], ch, key))
  {
  }

  // ---------- the text of the records ----------

  /** The name of a connection, as it stands in the file. */
  function PlaceText(ch: string, key: Key): string {
    var below :=
      match key.kind
      case PushConsumer => "SupplierAdmin/" + ("ProxyPushConsumer/" + key.oid)
      case PullConsumer => "SupplierAdmin/" + ("ProxyPullConsumer/" + key.oid)
      case PushSupplier => "ConsumerAdmin/" + ("ProxyPushSupplier/" + key.oid)
      case PullSupplier => "ConsumerAdmin/" + ("ProxyPullSupplier/" + key.oid);
    "ecf/" + (ch + ("/" + below))
  }

  lemma JoinTwo(a: string, p: Path)
    requires |p| > 0
    ensures Join([a] + p) == (a + "/") + Join(p)
  {
    assert ([a] + p)[1..] == p;
  }

  lemma JoinPlace(ch: string, key: Key)
    ensures Join(ConnPath(ch, key)) == PlaceText(ch, key)
  {
    var admin, kind := AdminName(key.kind), KindName(key.kind);
    assert Join([key.oid]) == key.oid;
    JoinTwo(kind, [key.oid]);
    assert [kind] + [key.oid] == [kind, key.oid];
    JoinTwo(admin, [kind, key.oid]);
    assert [admin] + [kind, key.oid] == [admin, kind, key.oid];
    JoinTwo(ch, [admin, kind, key.oid]);
    assert [ch] + [admin, kind, key.oid] == [ch, admin, kind, key.oid];
    JoinTwo("ecf", [ch, admin, kind, key.oid]);
    assert ["ecf"] + [ch, admin, kind, key.oid] == ConnPath(ch, key);
    var below := (admin + "/") + ((kind + "/") + key.oid);
    assert Join(ConnPath(ch, key)) == ("ecf" + "/") + ((ch + "/") + below);
    assert (ch + "/") + below == ch + ("/" + below);
    NamesAre(key.kind);
  }

  lemma NamesAre(kind: Kind)
    ensures AdminName(kind) + "/" ==
      if kind == PushConsumer || kind == PullConsumer then "SupplierAdmin/" else "ConsumerAdmin/"
    ensures KindName(kind) + "/" == match kind
      case PushConsumer => "ProxyPushConsumer/"
      case PullConsumer => "ProxyPullConsumer/"
      case PushSupplier => "ProxyPushSupplier/"
      case PullSupplier => "ProxyPullSupplier/"
  {
  }

  lemma OneEntry(e: Entry)
    ensures LogText([e]) == OpText(e.op, e.nl)
  {
    assert [e][1..] == [];
    assert LogText([e]) == OpText(e.op, e.nl) + "";
  }

  lemma BodyOf(attrs: seq<(string, string)>)
    ensures RecordBody([], "") == " ;;\n"
    ensures attrs != [] ==> RecordBody(attrs, "") == " " + (attrs[0].0 + "=" + attrs[0].1) + RecordBody(attrs[1..], "")
  {
  }

  /** The records of a connection: its place, its reference and the mark of a proxy; and its
      deletion, and that of a channel. */
  lemma ConnRecords(ch: string, key: Key, c: Conn)
    ensures LogText([ConnEntry(ch, key, c)]) == PlaceText(ch, key) +
      (if c.ior.None? then " ;;\n"
       else if c.isProxy then " " + ("IOR=" + c.ior.value) + (" " + "proxy=1" + " ;;\n")
       else " " + ("IOR=" + c.ior.value) + " ;;\n")
    ensures LogText([EraseConn(ch, key)]) == "-" + PlaceText(ch, key) + "\n"
    ensures LogText([EraseChannel(ch)]) == "-" + ("ecf/" + ch) + "\n"
  {
    hide RecordBody, LogText, ConnPath, PlaceText;
    JoinPlace(ch, key);
    OneEntry(ConnEntry(ch, key, c));
    OneEntry(EraseConn(ch, key));
    OneEntry(EraseChannel(ch));
    JoinTwo("ecf", [ch]);
    assert ["ecf"] + [ch] == ChannelPath(ch) && "ecf" + "/" == "ecf/";
    BodyOf(ConnAttrs(c));
    if c.ior.Some? {
      BodyOf(ConnAttrs(c)[1..]);
      assert "IOR" + "=" + c.ior.value == "IOR=" + c.ior.value;
      if c.isProxy {
        assert ConnAttrs(c)[1..] == [("proxy", "1")] && ConnAttrs(c)[1..][1..] == [];
        assert "proxy" + "=" + "1" == "proxy=1";
      } else {
        assert ConnAttrs(c)[1..] == [];
      }
    }
  }
}
