/** The event pipeline of one channel as a state machine: suppliers push or are pulled,
    events reach the ring directly or through the local queue, and a worker thread sends
    them on, one outstanding request per proxy. Events are numbered as they arrive. */
module Pipeline {
  import opened EventQueues

  /** A ProxyPushSupplier: its client, its outstanding request, its place in the ring, the
      places in the ring's history of the events it has sent, how many were answered, and
      its place when it was made. */
  datatype Proxy = Proxy(target: bool, req: bool, pos: nat, sent: seq<nat>, answered: nat, start: nat)

  /** The manager's thread. It holds the lock while it scans. */
  datatype Worker = Ready | Scanning(todo: set<nat>, busy: bool, waiting: bool) | Timed | Asleep

  datatype Chan = Chan(
    arrived: nat,          // how many events have arrived
    local: seq<nat>,       // the suppliers' queue
    useLocal: bool,
    calls: seq<nat>,       // the events append was called with
    kept: seq<nat>,        // those the ring took
    proxies: map<nat, Proxy>,
    worker: Worker,
    late: bool)            // since the last scan began, a client has connected to a proxy with a backlog

  /** What does not change: the size of the ring, the filter, the build's push mode. */
  datatype Config = Config(size: nat, keep: nat -> bool, realTime: bool)

  predicate ConfigOk(g: Config) {
    g.size > 1
  }

  datatype Outcome = NotArrived | Returned | TimedOut | Raised

  datatype Act =
    | Push
    | Transfer(pulled: nat)             // collect and send, with that many events pulled
    | Incarnate(id: nat)
    | Etherealize(id: nat)
    | Connect(id: nat)
    | Disconnect(id: nat)
    | BeginScan
    | Trigger(id: nat, outcome: Outcome)
    | EndScan

  function Iota(from: nat, to: nat): (s: seq<nat>)
    requires from <= to
    ensures |s| == to - from && forall i :: 0 <= i < |s| ==> s[i] == from + i
  {
    seq(to - from, i => from + i)
  }

  function Filter(keep: nat -> bool, s: seq<nat>): seq<nat> {
    if s == [] then []
    else Filter(keep, s[..|s| - 1]) + if keep(s[|s| - 1]) then [s[|s| - 1]] else []
  }

  // ---------- steps ----------

  predicate Locked(c: Chan) {
    c.worker.Scanning?
  }

  function Signal(w: Worker): Worker {
    if w == Asleep || w == Timed then Ready else w
  }

  /** PauseThenWake around append. */
  function Send(g: Config, c: Chan, es: seq<nat>): Chan {
    c.(calls := c.calls + es, kept := c.kept + Filter(g.keep, es), worker := Signal(c.worker))
  }

  predicate HasMore(g: Config, c: Chan, p: Proxy)
    requires ConfigOk(g)
  {
    p.pos <= |c.kept| && Slot(|c.kept| - p.pos, g.size) != 0
  }

  /** ProxyPushSupplier_i::trigger; the flags say what it sets. */
  function TriggerProxy(size: nat, n: nat, p: Proxy, outcome: Outcome): (r: (Proxy, bool, bool))
    requires size > 1 && p.pos <= n
  {
    if p.req && outcome == Raised then
      // The connection is closed, and the request dropped if there was still a client.
      (if p.target then p.(target := false, req := false, answered := p.answered + 1) else p, false, false)
    else
      var got := p.req && outcome != NotArrived;
      var p1 := if got then p.(req := false, answered := p.answered + 1) else p;
      if !p1.req && p1.target && Slot(n - p1.pos, size) != 0 then
        var j := NextIndex(p1.pos, n, size);
        (p1.(req := true, pos := j + 1, sent := p1.sent + [j]), true, true)
      else (p1, got, p1.req)
  }

  predicate Enabled(g: Config, c: Chan, a: Act)
    requires ConfigOk(g)
  {
    match a
    case Push => g.realTime && !c.useLocal ==> !Locked(c)
    case Transfer(pulled) => c.local != [] || pulled > 0 ==> !Locked(c)
    case Incarnate(id) => id !in c.proxies && !Locked(c)
    case Etherealize(id) => id in c.proxies && !Locked(c)
    case Connect(id) => id in c.proxies && !c.proxies[id].target && !c.proxies[id].req
    case Disconnect(id) => id in c.proxies && c.proxies[id].target
    case BeginScan => c.worker == Ready || c.worker == Timed
    case Trigger(id, _) =>
      c.worker.Scanning? && id in c.worker.todo && id in c.proxies && c.proxies[id].pos <= |c.kept|
    case EndScan => c.worker.Scanning? && c.worker.todo == {}
  }

  function Do(g: Config, c: Chan, a: Act): Chan
    requires ConfigOk(g) && Enabled(g, c, a)
  {
    match a
    case Push =>
      var c1 := c.(arrived := c.arrived + 1);
      if g.realTime && !c.useLocal then Send(g, c1, [c.arrived]).(useLocal := true)
      else c1.(local := c.local + [c.arrived])
    case Transfer(pulled) =>
      var es := c.local + Iota(c.arrived, c.arrived + pulled);
      var c1 := c.(arrived := c.arrived + pulled, local := [], useLocal := false);
      if es == [] then c1 else Send(g, c1, es)
    case Incarnate(id) =>
      c.(proxies := c.proxies[id := Proxy(false, false, |c.kept|, [], 0, |c.kept|)], worker := Signal(c.worker))
    case Etherealize(id) => c.(proxies := c.proxies - {id})
    case Connect(id) =>
      var p := c.proxies[id];
      c.(proxies := c.proxies[id := p.(target := true)], late := c.late || HasMore(g, c, p))
    case Disconnect(id) => c.(proxies := c.proxies[id := c.proxies[id].(target := false)])
    case BeginScan => c.(worker := Scanning(c.proxies.Keys, false, false), late := false)
    case Trigger(id, outcome) =>
      var (p, busy, waiting) := TriggerProxy(g.size, |c.kept|, c.proxies[id], outcome);
      c.(proxies := c.proxies[id := p],
         worker := Scanning(c.worker.todo - {id}, c.worker.busy || busy, c.worker.waiting || waiting))
    case EndScan =>
      c.(worker := if c.worker.busy then Ready else if c.worker.waiting then Timed else Asleep)
  }

  const EMPTY_CHAN := Chan(0, [], false, [], [], map[], Ready, false)

  // ---------- no event is lost, doubled or overtaken on its way to the ring ----------

  /** The append calls, followed by the local queue, are the arrivals in order. */
  predicate Fifo(g: Config, c: Chan) {
    && c.calls + c.local == Iota(0, c.arrived)
    && c.kept == Filter(g.keep, c.calls)
    && (g.realTime && !c.useLocal ==> c.local == [])
  }

  lemma {:induction false} FilterConcat(keep: nat -> bool, a: seq<nat>, b: seq<nat>)
    ensures Filter(keep, a + b) == Filter(keep, a) + Filter(keep, b)
  {
    if b == [] {
      assert a + b == a;
    } else {
      assert (a + b)[..|a + b| - 1] == a + b[..|b| - 1];
      FilterConcat(keep, a, b[..|b| - 1]);
    }
  }

  lemma FilterNone(keep: nat -> bool)
    ensures Filter(keep, []) == []
  {
  }

  lemma IotaSum(a: nat, b: nat, c: nat)
    requires a <= b <= c
    ensures Iota(a, b) + Iota(b, c) == Iota(a, c)
  {
  }

  lemma PushKeepsFifo(g: Config, c: Chan)
    requires ConfigOk(g) && Enabled(g, c, Push) && Fifo(g, c)
    ensures Fifo(g, Do(g, c, Push))
  {
    hide Filter, Slot;
    FilterConcat(g.keep, c.calls, [c.arrived]);
    IotaSum(0, c.arrived, c.arrived + 1);
    assert Iota(c.arrived, c.arrived + 1) == [c.arrived];
    hide Iota;
    assert c.calls + (c.local + [c.arrived]) == (c.calls + c.local) + [c.arrived];
    if c.local == [] {
      assert c.calls + c.local == c.calls && (c.calls + [c.arrived]) + [] == c.calls + [c.arrived];
    }
  }

  lemma TransferKeepsFifo(g: Config, c: Chan, pulled: nat)
    requires ConfigOk(g) && Enabled(g, c, Transfer(pulled)) && Fifo(g, c)
    ensures Fifo(g, Do(g, c, Transfer(pulled)))
  {
    hide Filter, Slot, Iota;
    var more := Iota(c.arrived, c.arrived + pulled);
    var es := c.local + more;
    FilterConcat(g.keep, c.calls, es);
    IotaSum(0, c.arrived, c.arrived + pulled);
    assert c.calls + es == (c.calls + c.local) + more;
    assert (c.calls + es) + [] == c.calls + es;
    if es == [] {
      assert c.calls + [] == c.calls + es;
    }
  }

  lemma DoKeepsFifo(g: Config, c: Chan, a: Act)
    requires ConfigOk(g) && Enabled(g, c, a) && Fifo(g, c)
    ensures Fifo(g, Do(g, c, a))
  {
    hide Filter, Iota, Slot;
    match a
    case Push => PushKeepsFifo(g, c);
    case Transfer(pulled) => TransferKeepsFifo(g, c, pulled);
    case _ =>
  }

  // ---------- what a proxy sends ----------

  ghost predicate Ascending(s: seq<nat>) {
    forall i, j :: 0 <= i < j < |s| ==> s[i] < s[j]
  }

  lemma {:induction false} FilterOfIota(keep: nat -> bool, n: nat)
    ensures var k := Filter(keep, Iota(0, n));
      Ascending(k) && forall i :: 0 <= i < |k| ==> k[i] < n && keep(k[i])
  {
    if n > 0 {
      assert Iota(0, n)[..n - 1] == Iota(0, n - 1);
      FilterOfIota(keep, n - 1);
    }
  }

  /** The ring's history is the kept arrivals, in order. */
  lemma KeptAscending(g: Config, c: Chan)
    requires Fifo(g, c)
    ensures Ascending(c.kept) && forall i :: 0 <= i < |c.kept| ==> c.kept[i] < c.arrived && g.keep(c.kept[i])
  {
    var n := |c.calls|;
    assert c.calls == Iota(0, n) by {
      assert forall i :: 0 <= i < n ==> c.calls[i] == (c.calls + c.local)[i];
    }
    FilterOfIota(g.keep, n);
    assert n <= c.arrived by {
      assert |c.calls + c.local| == c.arrived;
    }
  }

  /** Everything sent was read from the ring, in the ring's order, and at most one request
      is unanswered. */
  ghost predicate ProxyOk(n: nat, p: Proxy) {
    && p.pos <= n
    && Ascending(p.sent) && (forall i :: 0 <= i < |p.sent| ==> p.sent[i] < p.pos)
    && |p.sent| == p.answered + if p.req then 1 else 0
  }

  ghost predicate ProxiesOk(c: Chan) {
    forall id :: id in c.proxies ==> ProxyOk(|c.kept|, c.proxies[id])
  }

  lemma TriggerKeepsProxyOk(size: nat, n: nat, p: Proxy, outcome: Outcome)
    requires size > 1 && ProxyOk(n, p)
    ensures var p' := TriggerProxy(size, n, p, outcome).0;
      && ProxyOk(n, p') && p.pos <= p'.pos
      && (p'.sent == p.sent || (p.target && p'.req && 0 < p'.pos && p'.sent == p.sent + [p'.pos - 1]))
  {
    hide Slot, NextIndex;
    if Slot(n - p.pos, size) != 0 {
      NextIndexInWindow(p.pos, n, size);
    }
  }

  lemma DoKeepsProxiesOk(g: Config, c: Chan, a: Act)
    requires ConfigOk(g) && Enabled(g, c, a) && ProxiesOk(c)
    ensures ProxiesOk(Do(g, c, a))
  {
    if a.Trigger? {
      TriggerKeepsProxyOk(g.size, |c.kept|, c.proxies[a.id], a.outcome);
    }
  }

  /** A proxy sends only while it has a client, and only what it then reads. */
  lemma SendsOnlyToClient(g: Config, c: Chan, a: Act, id: nat)
    requires ConfigOk(g) && Enabled(g, c, a) && ProxiesOk(c)
    requires id in c.proxies && id in Do(g, c, a).proxies && Do(g, c, a).proxies[id].sent != c.proxies[id].sent
    ensures a.Trigger? && a.id == id && c.proxies[id].target
    ensures Do(g, c, a).proxies[id].req && (c.proxies[id].req ==> a.outcome == Returned || a.outcome == TimedOut)
  {}

  // ---------- what a trigger does ----------

  /** The request that is open, if there is one, does not stand in the way. */
  predicate Free(p: Proxy, outcome: Outcome) {
    p.req ==> outcome == Returned || outcome == TimedOut
  }

  /** A trigger sends if and only if there is a client, no request is open once the answer is
      taken, and the backlog is not a number of whole rings. */
  lemma TriggerSendsIff(size: nat, n: nat, p: Proxy, outcome: Outcome)
    requires size > 1 && p.pos <= n
    ensures var p' := TriggerProxy(size, n, p, outcome).0;
      p'.sent != p.sent <==> p.target && Free(p, outcome) && Slot(n - p.pos, size) != 0
  {
    hide Slot, NextIndex;
    var p' := TriggerProxy(size, n, p, outcome).0;
    assert p'.sent != p.sent <==> |p'.sent| == |p.sent| + 1;
  }

  /** What it sends is the one event of the ring that is whole rings ahead, which is the next
      one if the backlog is less than a ring; and that is where the proxy is then. */
  lemma TriggerSendsNext(size: nat, n: nat, p: Proxy, outcome: Outcome)
    requires size > 1 && p.pos <= n && p.target && Free(p, outcome) && Slot(n - p.pos, size) != 0
    ensures var p' := TriggerProxy(size, n, p, outcome).0;
      && |p'.sent| == |p.sent| + 1 && p.sent <= p'.sent
      && var j := p'.sent[|p.sent|];
      && p'.pos == j + 1 && p.pos <= j < n < j + size && Slot(j - p.pos, size) == 0
      && (n - p.pos < size ==> j == p.pos)
      && p'.req && p'.target && p'.start == p.start
      && p'.answered == p.answered + if p.req then 1 else 0
  {
    hide Slot, NextIndex;
    NextIndexInWindow(p.pos, n, size);
  }

  /** Otherwise it moves on nothing: an answer closes the request, and a failure also the
      connection. */
  lemma TriggerElse(size: nat, n: nat, p: Proxy, outcome: Outcome)
    requires size > 1 && p.pos <= n && !(p.target && Free(p, outcome) && Slot(n - p.pos, size) != 0)
    ensures var p' := TriggerProxy(size, n, p, outcome).0;
      && p'.sent == p.sent && p'.pos == p.pos && p'.start == p.start
      && (p'.target <==> p.target && !(p.req && outcome == Raised))
      && (p'.req <==> p.req && (outcome == NotArrived || (outcome == Raised && !p.target)))
      && p'.answered == p.answered + if p.req && !p'.req then 1 else 0
  {
  }

  /** The flags: something has happened, or an answer is awaited. */
  lemma TriggerFlags(size: nat, n: nat, p: Proxy, outcome: Outcome)
    requires size > 1 && p.pos <= n
    ensures var r := TriggerProxy(size, n, p, outcome);
      && (r.1 <==> r.0.sent != p.sent || (p.req && (outcome == Returned || outcome == TimedOut)))
      && (r.2 <==> r.0.req && !(p.req && outcome == Raised))
  {
    hide Slot, NextIndex;
    var r := TriggerProxy(size, n, p, outcome);
    assert r.0.sent != p.sent <==> |r.0.sent| == |p.sent| + 1;
  }

  // ---------- every event is sent, but for whole rings ----------

  /** What has been sent leads from the start to the place, and what was passed between two
      events is whole rings. */
  ghost predicate Leads(size: nat, p: Proxy)
    requires size > 1
  {
    && InOrder(p.sent, size, p.start, p.pos)
    && p.pos == if p.sent == [] then p.start else p.sent[|p.sent| - 1] + 1
  }

  ghost predicate AllLead(g: Config, c: Chan)
    requires ConfigOk(g)
  {
    forall id :: id in c.proxies ==> Leads(g.size, c.proxies[id])
  }

  lemma InOrderSnoc(d: seq<nat>, size: nat, start: nat, pos: nat, j: nat)
    requires size > 1 && InOrder(d, size, start, pos) && pos == if d == [] then start else d[|d| - 1] + 1
    requires pos <= j && Slot(j - pos, size) == 0
    ensures InOrder(d + [j], size, start, j + 1)
  {
    hide Slot;
    var e := d + [j];
    forall i | 0 < i < |e| ensures SkipsLaps(e, i, size) {
      if i < |d| {
        assert SkipsLaps(d, i, size);
      }
    }
  }

  lemma TriggerLeads(size: nat, n: nat, p: Proxy, outcome: Outcome)
    requires size > 1 && p.pos <= n && Leads(size, p)
    ensures Leads(size, TriggerProxy(size, n, p, outcome).0)
  {
    hide TriggerProxy, Slot, InOrder;
    if p.target && Free(p, outcome) && Slot(n - p.pos, size) != 0 {
      TriggerSendsNext(size, n, p, outcome);
      var p' := TriggerProxy(size, n, p, outcome).0;
      var j := p'.sent[|p.sent|];
      assert p'.sent == p.sent + [j];
      InOrderSnoc(p.sent, size, p.start, p.pos, j);
    } else {
      TriggerElse(size, n, p, outcome);
    }
  }

  lemma DoLeads(g: Config, c: Chan, a: Act)
    requires ConfigOk(g) && Enabled(g, c, a) && AllLead(g, c)
    ensures AllLead(g, Do(g, c, a))
  {
    hide TriggerProxy, Slot, Filter, Iota;
    if a.Trigger? {
      TriggerLeads(g.size, |c.kept|, c.proxies[a.id], a.outcome);
    }
  }

  /** The proxy sends on, with less than a ring before it. */
  lemma StepSendsAll(g: Config, c: Chan, a: Act, id: nat)
    requires ConfigOk(g) && Enabled(g, c, a) && id in c.proxies && id in Do(g, c, a).proxies
    requires var p := c.proxies[id];
      p.start <= p.pos <= |c.kept| < p.pos + g.size && p.sent == Iota(p.start, p.pos)
    ensures var p' := Do(g, c, a).proxies[id];
      p'.start <= p'.pos && p'.sent == Iota(p'.start, p'.pos)
  {
    hide TriggerProxy, Slot, Filter;
    var p := c.proxies[id];
    if a.Trigger? && a.id == id {
      SmallSlot(|c.kept| - p.pos, g.size);
      if p.target && Free(p, a.outcome) && |c.kept| != p.pos {
        TriggerSendsNext(g.size, |c.kept|, p, a.outcome);
        var p' := TriggerProxy(g.size, |c.kept|, p, a.outcome).0;
        assert p'.sent == p.sent + [p.pos];
        IotaSum(p.start, p.pos, p.pos + 1);
      } else {
        TriggerElse(g.size, |c.kept|, p, a.outcome);
      }
    }
  }

  lemma SmallSlot(u: nat, size: nat)
    requires u < size
    ensures Slot(u, size) == u
  {
  }

  // ---------- what the other steps do ----------

  /** A push is the next arrival. In real-time mode the first one of a cycle goes to the ring
      at once; any other waits in the local queue. */
  lemma PushDoes(g: Config, c: Chan)
    requires ConfigOk(g) && Enabled(g, c, Push)
    ensures var c' := Do(g, c, Push);
      && c'.arrived == c.arrived + 1 && c'.proxies == c.proxies && c'.late == c.late
      && (c'.useLocal <==> c.useLocal || g.realTime)
      && if g.realTime && !c.useLocal then
           && c'.calls == c.calls + [c.arrived] && c'.local == c.local
           && c'.kept == (if g.keep(c.arrived) then c.kept + [c.arrived] else c.kept)
           && c'.worker != Asleep
         else c'.calls == c.calls && c'.kept == c.kept && c'.local == c.local + [c.arrived] && c'.worker == c.worker
  {
    assert [c.arrived][..0] == [];
    assert !g.keep(c.arrived) ==> c.kept + Filter(g.keep, [c.arrived]) == c.kept;
  }

  /** After a transfer the ring has been given the local queue and then what was pulled. */
  lemma TransferDoes(g: Config, c: Chan, pulled: nat)
    requires ConfigOk(g) && Enabled(g, c, Transfer(pulled))
    ensures var c' := Do(g, c, Transfer(pulled));
      && c'.arrived == c.arrived + pulled && c'.local == [] && !c'.useLocal && c'.proxies == c.proxies
      && c'.calls == c.calls + (c.local + Iota(c.arrived, c.arrived + pulled)) && c.kept <= c'.kept
      && (c'.calls != c.calls ==> c'.worker != Asleep)
  {
    hide Iota, Filter;
    var es := c.local + Iota(c.arrived, c.arrived + pulled);
    if es == [] {
      assert c.calls + es == c.calls;
    }
  }

  /** What becomes of the proxies in the steps that make, connect, disconnect and drop them. A
      new proxy starts at the next event, without a client. */
  lemma ProxyStepsDo(g: Config, c: Chan, a: Act)
    requires ConfigOk(g) && Enabled(g, c, a)
    ensures var c' := Do(g, c, a);
      && (a.Incarnate? ==> c'.proxies == c.proxies[a.id := Proxy(false, false, |c.kept|, [], 0, |c.kept|)])
      && (a.Etherealize? ==> a.id !in c'.proxies && c'.proxies == c.proxies - {a.id})
      && (a.Connect? || a.Disconnect? ==>
            && c'.proxies == c.proxies[a.id := c'.proxies[a.id]] && c'.kept == c.kept
            && var p, p' := c.proxies[a.id], c'.proxies[a.id];
            && (p'.target <==> a.Connect?) && p'.req == p.req && p'.pos == p.pos && p'.sent == p.sent)
  {
    hide Slot, Filter, Iota;
  }

  /** A scan looks at every proxy there is, and once it is over the worker goes on at once if
      something has happened, waits for a time if an answer is awaited, and sleeps otherwise. */
  lemma ScanStepsDo(g: Config, c: Chan, a: Act)
    requires ConfigOk(g) && Enabled(g, c, a)
    ensures var c' := Do(g, c, a);
      && (a.BeginScan? ==> c'.worker == Scanning(c.proxies.Keys, false, false) && c'.proxies == c.proxies)
      && (a.EndScan? ==>
            && c'.proxies == c.proxies
            && (c'.worker == Ready <==> c.worker.busy)
            && (c'.worker == Timed <==> !c.worker.busy && c.worker.waiting)
            && (c'.worker == Asleep <==> !c.worker.busy && !c.worker.waiting))
  {
    hide Slot, Filter, Iota;
  }

  // ---------- the worker never sleeps on work ----------

  /** Nothing to do for this proxy. */
  predicate Quiet(g: Config, c: Chan, p: Proxy)
    requires ConfigOk(g)
  {
    p.target ==> !p.req && !HasMore(g, c, p)
  }

  predicate AllQuiet(g: Config, c: Chan, except: set<nat>)
    requires ConfigOk(g)
  {
    forall id :: id in c.proxies && id !in except ==> Quiet(g, c, c.proxies[id])
  }

  predicate Awake(g: Config, c: Chan)
    requires ConfigOk(g)
  {
    && (c.worker == Asleep && !c.late ==> AllQuiet(g, c, {}))
    && (c.worker.Scanning? && !c.worker.busy && !c.worker.waiting && !c.late ==> AllQuiet(g, c, c.worker.todo))
  }

  lemma DoKeepsAwake(g: Config, c: Chan, a: Act)
    requires ConfigOk(g) && Enabled(g, c, a) && ProxiesOk(c) && Awake(g, c)
    ensures Awake(g, Do(g, c, a))
  {
    hide TriggerProxy, Slot, Filter, Iota;
    if a.Trigger? {
      TriggerQuiet(g.size, |c.kept|, c.proxies[a.id], a.outcome);
    }
  }

  /** A trigger that sets neither flag leaves nothing to do. */
  lemma TriggerQuiet(size: nat, n: nat, p: Proxy, outcome: Outcome)
    requires size > 1 && p.pos <= n
    ensures var r := TriggerProxy(size, n, p, outcome);
      !r.1 && !r.2 && r.0.target ==> !r.0.req && r.0.pos <= n && Slot(n - r.0.pos, size) == 0
  {
    hide Slot, NextIndex;
  }

  /** A client has connected to a proxy that was made earlier and has missed events. */
  predicate LateConnect(g: Config, c: Chan, a: Act)
    requires ConfigOk(g)
  {
    a.Connect? && a.id in c.proxies && HasMore(g, c, c.proxies[a.id])
  }

  /** From a worker asleep with nothing to do, every step leaves it so or wakes it, except
      one: connecting a client to a proxy with a backlog leaves it asleep on work. */
  lemma AsleepStaysRightIff(g: Config, c: Chan, a: Act)
    requires ConfigOk(g) && Enabled(g, c, a) && ProxiesOk(c)
    requires c.worker == Asleep && AllQuiet(g, c, {})
    ensures var c' := Do(g, c, a);
      (c'.worker != Asleep || AllQuiet(g, c', {})) <==> !LateConnect(g, c, a)
  {
    var c' := Do(g, c, a);
    if LateConnect(g, c, a) {
      assert !Quiet(g, c', c'.proxies[a.id]);
    }
  }

  // ---------- whole runs ----------

  ghost predicate Run(g: Config, cs: seq<Chan>, acts: seq<Act>)
    requires ConfigOk(g)
  {
    && |cs| == |acts| + 1 && cs[0] == EMPTY_CHAN
    && forall i :: 0 <= i < |acts| ==> Enabled(g, cs[i], acts[i]) && cs[i + 1] == Do(g, cs[i], acts[i])
  }

  lemma {:induction false} RunOk(g: Config, cs: seq<Chan>, acts: seq<Act>, i: nat)
    requires ConfigOk(g) && Run(g, cs, acts) && i <= |acts|
    ensures Fifo(g, cs[i]) && ProxiesOk(cs[i]) && Awake(g, cs[i])
  {
    if i == 0 {
      assert Iota(0, 0) == [];
    } else {
      RunOk(g, cs, acts, i - 1);
      DoKeepsFifo(g, cs[i - 1], acts[i - 1]);
      DoKeepsProxiesOk(g, cs[i - 1], acts[i - 1]);
      DoKeepsAwake(g, cs[i - 1], acts[i - 1]);
    }
  }

  /** The fast path refines a plain queue: at every moment, the events handed to the ring
      and then those in the local queue are all arrivals, each once, in order. */
  lemma PipelineIsFifo(g: Config, cs: seq<Chan>, acts: seq<Act>, i: nat)
    requires ConfigOk(g) && Run(g, cs, acts) && i <= |acts|
    ensures cs[i].calls + cs[i].local == Iota(0, cs[i].arrived)
    ensures g.realTime && !cs[i].useLocal ==> cs[i].local == []
  {
    RunOk(g, cs, acts, i);
  }

  /** The events that a proxy has sent. */
  ghost function Events(c: Chan, p: Proxy): seq<nat>
    requires forall i :: 0 <= i < |p.sent| ==> p.sent[i] < |c.kept|
  {
    seq(|p.sent|, i requires 0 <= i < |p.sent| => c.kept[p.sent[i]])
  }

  /** What any proxy has sent is an ordered selection of the arrivals, without repetition,
      of events that the filter keeps, with at most one request unanswered. */
  lemma SentInOrder(g: Config, cs: seq<Chan>, acts: seq<Act>, i: nat, id: nat)
    requires ConfigOk(g) && Run(g, cs, acts) && i <= |acts| && id in cs[i].proxies
    ensures var p := cs[i].proxies[id];
      && (forall k :: 0 <= k < |p.sent| ==> p.sent[k] < |cs[i].kept|)
      && Ascending(Events(cs[i], p))
      && (forall e :: e in Events(cs[i], p) ==> e < cs[i].arrived && g.keep(e))
      && p.answered <= |p.sent| <= p.answered + 1
  {
    RunOk(g, cs, acts, i);
    KeptAscending(g, cs[i]);
  }

  /** While the worker sleeps without a time limit, no connected proxy has a request or an
      event pending, unless a client has connected late since the last scan began. */
  lemma SleepsOnlyWhenQuiet(g: Config, cs: seq<Chan>, acts: seq<Act>, i: nat, id: nat)
    requires ConfigOk(g) && Run(g, cs, acts) && i <= |acts|
    requires cs[i].worker == Asleep && !cs[i].late && id in cs[i].proxies && cs[i].proxies[id].target
    ensures !cs[i].proxies[id].req && cs[i].proxies[id].pos <= |cs[i].kept|
    ensures Slot(|cs[i].kept| - cs[i].proxies[id].pos, g.size) == 0
  {
    RunOk(g, cs, acts, i);
  }

  lemma {:induction false} RunLeads(g: Config, cs: seq<Chan>, acts: seq<Act>, i: nat)
    requires ConfigOk(g) && Run(g, cs, acts) && i <= |acts|
    ensures AllLead(g, cs[i])
  {
    if i > 0 {
      RunLeads(g, cs, acts, i - 1);
      DoLeads(g, cs[i - 1], acts[i - 1]);
    }
  }

  /** In every state of every run, two events that a proxy has sent one after the other are
      next to each other in the ring's history, or whole rings apart in addition; so is the
      first from where the proxy was made. */
  lemma SentInLaps(g: Config, cs: seq<Chan>, acts: seq<Act>, i: nat, id: nat)
    requires ConfigOk(g) && Run(g, cs, acts) && i <= |acts| && id in cs[i].proxies
    ensures var p := cs[i].proxies[id];
      && (forall k :: 0 < k < |p.sent| ==> SkipsLaps(p.sent, k, g.size))
      && (p.sent == [] ==> p.pos == p.start)
      && (p.sent != [] ==> p.start <= p.sent[0] && Slot(p.sent[0] - p.start, g.size) == 0
                           && p.pos == p.sent[|p.sent| - 1] + 1)
  {
    RunLeads(g, cs, acts, i);
    assert Leads(g.size, cs[i].proxies[id]);
  }

  /** The proxy has never had a whole ring of events before it. */
  ghost predicate NeverBehind(g: Config, cs: seq<Chan>, i: nat, id: nat)
    requires i < |cs|
  {
    forall k :: 0 <= k <= i && id in cs[k].proxies ==> |cs[k].kept| < cs[k].proxies[id].pos + g.size
  }

  /** It has sent all that it has passed. */
  ghost predicate HasSentAll(c: Chan, id: nat) {
    id in c.proxies ==>
      var p := c.proxies[id];
      p.start <= p.pos <= |c.kept| && p.sent == Iota(p.start, p.pos)
  }

  lemma {:induction false} RunSendsAll(g: Config, cs: seq<Chan>, acts: seq<Act>, i: nat, id: nat)
    requires ConfigOk(g) && Run(g, cs, acts) && i <= |acts| && NeverBehind(g, cs, i, id)
    ensures HasSentAll(cs[i], id)
  {
    RunOk(g, cs, acts, i);
    assert id in cs[i].proxies ==> ProxyOk(|cs[i].kept|, cs[i].proxies[id]);
    if i > 0 {
      hide Do, Fifo, Awake, ProxyOk, Iota;
      RunSendsAll(g, cs, acts, i - 1, id);
      KeepsSentAll(g, cs[i - 1], acts[i - 1], id);
    }
  }

  lemma KeepsSentAll(g: Config, c: Chan, a: Act, id: nat)
    requires ConfigOk(g) && Enabled(g, c, a) && HasSentAll(c, id)
    requires id in c.proxies ==> |c.kept| < c.proxies[id].pos + g.size
    requires var c' := Do(g, c, a); id in c'.proxies ==> c'.proxies[id].pos <= |c'.kept|
    ensures HasSentAll(Do(g, c, a), id)
  {
    if id in Do(g, c, a).proxies {
      if id in c.proxies {
        hide Do;
        StepSendsAll(g, c, a, id);
      } else {
        hide TriggerProxy, Slot, Filter;
        assert Iota(|c.kept|, |c.kept|) == [];
      }
    }
  }

  /** A proxy that never falls a ring behind has sent every event that the ring has taken, from
      where it was made to where it is, in order. */
  lemma SendsAll(g: Config, cs: seq<Chan>, acts: seq<Act>, i: nat, id: nat)
    requires ConfigOk(g) && Run(g, cs, acts) && i <= |acts| && id in cs[i].proxies && NeverBehind(g, cs, i, id)
    ensures var p := cs[i].proxies[id];
      && p.start <= p.pos <= |cs[i].kept| && p.sent == Iota(p.start, p.pos)
      && (forall k :: 0 <= k < |p.sent| ==> p.sent[k] < |cs[i].kept|)
      && Events(cs[i], p) == cs[i].kept[p.start..p.pos]
  {
    RunSendsAll(g, cs, acts, i, id);
    EventsPassed(cs[i], cs[i].proxies[id]);
  }

  lemma EventsPassed(c: Chan, p: Proxy)
    requires p.start <= p.pos <= |c.kept| && p.sent == Iota(p.start, p.pos)
    ensures forall k :: 0 <= k < |p.sent| ==> p.sent[k] < |c.kept|
    ensures Events(c, p) == c.kept[p.start..p.pos]
  {
  }
}
