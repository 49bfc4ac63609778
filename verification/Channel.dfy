/** The objects of the pipeline, as the channel's threads change them. Their methods do
    what the steps of the state machine say: objects that agree with a state of the machine
    agree with the next state afterwards. As in the machine, an event is known by the number
    of its arrival. */
module Channel {
  import opened EventQueues
  import opened Pipeline
  import opened Wrappers

  class ConsumerAdmin {
    const queue: EventQueue<nat>
    ghost var calls: seq<nat>    // what append was called with

    ghost predicate Valid()
      reads this, queue, queue.queue
    {
      queue.Valid() && queue.kept == Filter(queue.keep, calls)
    }

    constructor (queue: EventQueue<nat>)
      requires queue.Valid() && queue.kept == []
      ensures Valid() && this.queue == queue && calls == []
    {
      this.queue := queue;
      calls := [];
    }

    /** send(CORBA::Any*): the real-time path. */
    method Send(event: nat)
      requires Valid()
      modifies this, queue, queue.queue
      ensures Valid() && calls == old(calls) + [event]
    {
      queue.Append(event);
      calls := calls + [event];
      assert calls[..|calls| - 1] == old(calls);
    }

    /** send(list<CORBA::Any*>&): the batch path, which empties the list. */
    method SendAll(events: seq<nat>) returns (left: seq<nat>)
      requires Valid()
      modifies this, queue, queue.queue
      ensures Valid() && calls == old(calls) + events && left == []
    {
      left := events;
      if events != [] {
        for i := 0 to |events|
          invariant Valid() && calls == old(calls) + events[..i]
        {
          Send(events[i]);
          assert events[..i + 1] == events[..i] + [events[i]];
        }
        assert events[..|events|] == events;
        left := [];
      }
    }
  }

  /** SupplierAdmin_i with its push consumer servant, which share the list of events. */
  class SupplierAdmin {
    const consumerAdmin: ConsumerAdmin
    const realTime: bool
    var queue: seq<nat>
    var useLocalQueue: bool

    ghost predicate Valid()
      reads this, consumerAdmin, consumerAdmin.queue, consumerAdmin.queue.queue
    {
      consumerAdmin.Valid() && (realTime && !useLocalQueue ==> queue == [])
    }

    /** The events that have arrived: those handed to the ring, then those waiting. */
    ghost function Arrivals(): seq<nat>
      reads this, consumerAdmin
    {
      consumerAdmin.calls + queue
    }

    ghost function Conf(): Config {
      Config(consumerAdmin.queue.size, consumerAdmin.queue.keep, realTime)
    }

    /** These objects are what the state says of the ring and the local queue. */
    ghost predicate Agrees(c: Chan)
      reads this, consumerAdmin, consumerAdmin.queue
    {
      && c.arrived == |Arrivals()| && c.local == queue && c.useLocal == useLocalQueue
      && c.calls == consumerAdmin.calls && c.kept == consumerAdmin.queue.kept
    }

    constructor (consumerAdmin: ConsumerAdmin, realTime: bool)
      requires consumerAdmin.Valid()
      ensures Valid() && this.consumerAdmin == consumerAdmin && this.realTime == realTime
      ensures Arrivals() == consumerAdmin.calls
    {
      this.consumerAdmin, this.realTime := consumerAdmin, realTime;
      queue, useLocalQueue := [], false;
    }

    /** ProxyPushConsumer_i::push: the first event of a cycle goes straight to the ring. */
    method Push(event: nat, ghost c: Chan)
      requires Valid() && Agrees(c) && event == c.arrived
      requires ConfigOk(Conf()) && Enabled(Conf(), c, Pipeline.Act.Push)
      modifies this, consumerAdmin, consumerAdmin.queue, consumerAdmin.queue.queue
      ensures Agrees(Do(Conf(), c, Pipeline.Act.Push))
      ensures Valid() && Arrivals() == old(Arrivals()) + [event]
      ensures realTime ==> useLocalQueue
      ensures realTime && !old(useLocalQueue) ==> queue == []
    {
      hide Iota, Filter, Slot;
      FilterConcat(consumerAdmin.queue.keep, consumerAdmin.calls, [event]);
      if realTime && !useLocalQueue {
        consumerAdmin.Send(event);
        useLocalQueue := true;
      } else {
        queue := queue + [event];
        assert Arrivals() == old(Arrivals()) + [event];
      }
    }

    /** collect: the pull proxies' events come last, and all of the list is handed over. */
    method Collect(pulled: seq<nat>) returns (events: seq<nat>)
      requires Valid()
      modifies this
      ensures Valid() && queue == [] && !useLocalQueue && events == old(queue) + pulled
    {
      queue := queue + pulled;
      useLocalQueue := false;
      events := queue;
      queue := [];
    }

    /** The transfer phase of EventChannel_i::mainLoop. Afterwards the ring has been given
        every arrival, in order. */
    method Transfer(pulled: seq<nat>, ghost c: Chan)
      requires Valid() && Agrees(c) && pulled == Iota(c.arrived, c.arrived + |pulled|)
      requires ConfigOk(Conf()) && Enabled(Conf(), c, Pipeline.Act.Transfer(|pulled|))
      modifies this, consumerAdmin, consumerAdmin.queue, consumerAdmin.queue.queue
      ensures Agrees(Do(Conf(), c, Pipeline.Act.Transfer(|pulled|)))
      ensures Valid() && queue == [] && !useLocalQueue
      ensures consumerAdmin.calls == old(Arrivals()) + pulled
      ensures consumerAdmin.queue.kept == Filter(consumerAdmin.queue.keep, old(Arrivals()) + pulled)
    {
      hide Do, Filter;
      FilterConcat(consumerAdmin.queue.keep, consumerAdmin.calls, queue + pulled);
      TransferGives(Conf(), c, queue + pulled, |pulled|);
      var events := Collect(pulled);
      events := consumerAdmin.SendAll(events);
      assert consumerAdmin.calls == old(Arrivals()) + pulled;
    }
  }

  lemma TransferGives(g: Config, c: Chan, es: seq<nat>, pulled: nat)
    requires ConfigOk(g) && Enabled(g, c, Pipeline.Act.Transfer(pulled))
    requires es == c.local + Iota(c.arrived, c.arrived + pulled)
    ensures var c' := Do(g, c, Pipeline.Act.Transfer(pulled));
      && c'.arrived == c.arrived + pulled && c'.local == [] && !c'.useLocal
      && c'.calls == c.calls + es && c'.kept == c.kept + Filter(g.keep, es)
  {
    hide Iota, Filter, Slot;
    if es == [] {
      FilterNone(g.keep);
      NothingMore(c.calls, es);
      NothingMore(c.kept, Filter(g.keep, es));
    }
  }

  lemma NothingMore(s: seq<nat>, more: seq<nat>)
    requires more == []
    ensures s + more == s
  {
  }

  class ProxyPushSupplier {
    const reader: Reader<nat>
    var target: bool
    var req: bool
    ghost var sent: seq<nat>       // the numbers, in the ring's history, of the events sent
    ghost var answered: nat
    ghost const start: nat         // where the reader was at first

    ghost predicate Valid()
      reads this, reader, reader.queue, reader.queue.queue
    {
      reader.Valid()
    }

    ghost function View(): Proxy
      reads this, reader
    {
      Proxy(target, req, reader.pos, sent, answered, start)
    }

    /** What a trigger makes of this proxy, events being numbered as they are kept. */
    ghost function AfterTrigger(outcome: Outcome): (Proxy, bool, bool)
      requires Valid()
      reads this, reader, reader.queue, reader.queue.queue
    {
      TriggerProxy(reader.queue.size, |reader.queue.kept|, View(), outcome)
    }

    /** No request outstanding and no event to read, unless there is no client. */
    ghost predicate Quiet()
      requires Valid()
      reads this, reader, reader.queue, reader.queue.queue
    {
      target ==> !req && Slot(reader.Unread(), reader.queue.size) == 0
    }

    constructor (reader: Reader<nat>)
      requires reader.Valid()
      ensures Valid() && this.reader == reader && View() == Proxy(false, false, reader.pos, [], 0, reader.pos)
    {
      this.reader, target, req, sent, answered, start := reader, false, false, [], 0, reader.pos;
    }

    lemma IsBehind()
      requires Valid()
      ensures View().pos <= |reader.queue.kept|
    {
    }

    lemma TriggerLaws(outcome: Outcome)
      requires Valid()
      ensures var p, p' := View(), AfterTrigger(outcome).0;
        && (p'.sent != p.sent <==> p.target && Free(p, outcome) && Slot(reader.Unread(), reader.queue.size) != 0)
        && (p'.sent != p.sent && reader.Unread() < reader.queue.size ==> p'.pos == p.pos + 1)
    {
      hide TriggerProxy, Slot;
      var size, n := reader.queue.size, |reader.queue.kept|;
      TriggerSendsIff(size, n, View(), outcome);
      if target && Free(View(), outcome) && Slot(n - reader.pos, size) != 0 {
        TriggerSendsNext(size, n, View(), outcome);
      }
    }

    lemma AfterIs(g: Config, c: Chan, outcome: Outcome)
      requires Valid() && ConfigOk(g) && g.size == reader.queue.size && |c.kept| == |reader.queue.kept|
      ensures reader.pos <= |c.kept| && AfterTrigger(outcome) == TriggerProxy(g.size, |c.kept|, View(), outcome)
    {
      hide TriggerProxy;
    }

    lemma QuietIs(g: Config, c: Chan)
      requires Valid() && ConfigOk(g) && g.size == reader.queue.size && |c.kept| == |reader.queue.kept|
      ensures Quiet() <==> Pipeline.Quiet(g, c, View())
    {
    }

    /** trigger(busy, waiting). `outcome` is what the outstanding request, if there is one,
        has come to. */
    method Trigger(outcome: Outcome, busy: bool, waiting: bool) returns (busy': bool, waiting': bool, event: Option<nat>)
      requires Valid()
      modifies this, reader`next, reader`pos
      ensures Valid()
      ensures var r := old(AfterTrigger(outcome));
        View() == r.0 && busy' == (busy || r.1) && waiting' == (waiting || r.2)
      ensures !busy' && !waiting' ==> Quiet()
      ensures event.Some? <==> sent != old(sent)
      ensures event.Some? <==>
        old(target) && (old(req) ==> outcome == Returned || outcome == TimedOut) && Slot(old(reader.Unread()), reader.queue.size) != 0
      ensures event.Some? ==> 0 < reader.pos && event.value == reader.queue.kept[reader.pos - 1]
      ensures event.Some? && old(reader.Unread()) < reader.queue.size ==> reader.pos == old(reader.pos) + 1
    {
      hide Slot, NextIndex;
      TriggerLaws(outcome);
      busy', waiting', event := busy, waiting, None;
      if req && outcome != NotArrived {
        if outcome == Raised {
          if target {
            req, answered := false, answered + 1;
          }
          target := false;
          return;
        }
        req, answered := false, answered + 1;
        busy' := true;
      }
      busy', waiting', event := SendNext(busy', waiting');
    }

    /** The rest of trigger: send the next event if nothing is outstanding. */
    method SendNext(busy: bool, waiting: bool) returns (busy': bool, waiting': bool, event: Option<nat>)
      requires Valid()
      modifies this`req, this`sent, reader`next, reader`pos
      ensures Valid()
      ensures var r := old(AfterTrigger(NotArrived));
        View() == r.0 && busy' == (busy || r.1) && waiting' == (waiting || r.2)
      ensures !busy' && !waiting' ==> Quiet()
      ensures event.Some? <==> sent != old(sent)
      ensures event.Some? ==> 0 < reader.pos && event.value == reader.queue.kept[reader.pos - 1]
    {
      hide Slot, Laps;
      busy', waiting', event := busy, waiting, None;
      var more := reader.MoreEvents();
      if !req && target && more {
        var e := reader.NextEvent();
        event, req, sent := Some(e), true, sent + [reader.pos - 1];
        busy' := true;
      }
      if req {
        waiting' := true;
      }
    }
  }

  ghost predicate Separate(ps: seq<ProxyPushSupplier>) {
    forall i, j :: 0 <= i < j < |ps| ==> ps[i] != ps[j] && ps[i].reader != ps[j].reader
  }

  /** The proxies are as the state says, and read the ring that it says. */
  ghost predicate AllAgree(g: Config, c: Chan, ids: seq<nat>, ps: seq<ProxyPushSupplier>)
    requires |ids| == |ps|
    reads ps, set i | 0 <= i < |ps| :: ps[i].reader, set i | 0 <= i < |ps| :: ps[i].reader.queue
  {
    && AllRead(g, c, ps) && forall i :: 0 <= i < |ps| ==> ids[i] in c.proxies && c.proxies[ids[i]] == ps[i].View()
  }

  ghost predicate AllRead(g: Config, c: Chan, ps: seq<ProxyPushSupplier>)
    reads ps, set i | 0 <= i < |ps| :: ps[i].reader, set i | 0 <= i < |ps| :: ps[i].reader.queue
  {
    forall i :: 0 <= i < |ps| ==> g.size == ps[i].reader.queue.size && |c.kept| == |ps[i].reader.queue.kept|
  }

  ghost predicate Shows(c: Chan, ids: seq<nat>, views: seq<Proxy>)
    requires |ids| == |views|
  {
    forall i :: 0 <= i < |ids| ==> ids[i] in c.proxies && c.proxies[ids[i]] == views[i]
  }

  /** The state when the first i proxies have been triggered, the scan having begun in c. */
  ghost function Scanned(g: Config, c: Chan, ids: seq<nat>, outcomes: seq<Outcome>, i: nat): Chan
    requires ConfigOk(g) && |outcomes| == |ids| && i <= |ids|
  {
    if i == 0 then c
    else
      var before := Scanned(g, c, ids, outcomes, i - 1);
      var a := Pipeline.Act.Trigger(ids[i - 1], outcomes[i - 1]);
      if Enabled(g, before, a) then Do(g, before, a) else before
  }

  lemma TriggerGives(g: Config, c: Chan, id: nat, outcome: Outcome)
    requires ConfigOk(g) && c.worker.Scanning? && id in c.worker.todo && id in c.proxies && c.proxies[id].pos <= |c.kept|
    ensures var a := Pipeline.Act.Trigger(id, outcome);
      var r := TriggerProxy(g.size, |c.kept|, c.proxies[id], outcome);
      && Enabled(g, c, a) && Do(g, c, a).proxies == c.proxies[id := r.0] && Do(g, c, a).kept == c.kept
      && Do(g, c, a).worker == Scanning(c.worker.todo - {id}, c.worker.busy || r.1, c.worker.waiting || r.2)
  {
    hide TriggerProxy;
  }

  ghost function Rest(ids: seq<nat>, i: nat): set<nat>
    requires i <= |ids|
  {
    set k | i <= k < |ids| :: ids[k]
  }

  ghost predicate Distinct(ids: seq<nat>) {
    forall i, j :: 0 <= i < j < |ids| ==> ids[i] != ids[j]
  }

  /** One step of the scan, on values. */
  lemma ScanStep(g: Config, c: Chan, ids: seq<nat>, outcomes: seq<Outcome>, i: nat, views: seq<Proxy>, busy: bool, waiting: bool)
    requires ConfigOk(g) && |views| == |outcomes| == |ids| && i < |ids| && Distinct(ids)
    requires var now := Scanned(g, c, ids, outcomes, i);
      Shows(now, ids, views) && views[i].pos <= |now.kept| && now.worker == Scanning(Rest(ids, i), busy, waiting)
    ensures var now, next := Scanned(g, c, ids, outcomes, i), Scanned(g, c, ids, outcomes, i + 1);
      var r := TriggerProxy(g.size, |now.kept|, views[i], outcomes[i]);
      && Shows(next, ids, views[i := r.0]) && next.kept == now.kept
      && next.worker == Scanning(Rest(ids, i + 1), busy || r.1, waiting || r.2)
  {
    hide Do, Enabled, TriggerProxy;
    var now := Scanned(g, c, ids, outcomes, i);
    TriggerGives(g, now, ids[i], outcomes[i]);
    assert ids[i] in Rest(ids, i) && Rest(ids, i) - {ids[i]} == Rest(ids, i + 1);
  }

  /** The scan of ProxyPushSupplierManager::run_undetached. It is the triggers of the state
      machine, one for each proxy; if it ends with neither flag set, no proxy that has a
      client has a request or an event pending. */
  method Scan(ps: seq<ProxyPushSupplier>, outcomes: seq<Outcome>, ghost g: Config, ghost c: Chan, ghost ids: seq<nat>)
    returns (busy: bool, waiting: bool)
    requires |outcomes| == |ps| == |ids| && Separate(ps) && ConfigOk(g) && Distinct(ids)
    requires forall i :: 0 <= i < |ps| ==> ps[i].Valid()
    requires c.worker == Scanning(Rest(ids, 0), false, false) && AllAgree(g, c, ids, ps)
    modifies set i | 0 <= i < |ps| :: ps[i], set i | 0 <= i < |ps| :: ps[i].reader
    ensures forall i :: 0 <= i < |ps| ==> ps[i].Valid()
    ensures AllAgree(g, Scanned(g, c, ids, outcomes, |ids|), ids, ps)
    ensures Scanned(g, c, ids, outcomes, |ids|).worker == Scanning({}, busy, waiting)
    ensures !busy && !waiting ==> forall i :: 0 <= i < |ps| ==> Pipeline.Quiet(g, c, ps[i].View())
  {
    hide TriggerProxy, Scanned, Shows, Rest, Distinct, Pipeline.Quiet, ProxyPushSupplier.Valid, ProxyPushSupplier.View;
    busy, waiting := false, false;
    ghost var views := seq(|ps|, i requires 0 <= i < |ps| reads ps, set i | 0 <= i < |ps| :: ps[i].reader => ps[i].View());
    ScanStarts(g, c, ids, outcomes, views);
    for i := 0 to |ps|
      invariant |views| == |ps| && AllShow(ps, views)
      invariant Shows(Scanned(g, c, ids, outcomes, i), ids, views) && Scanned(g, c, ids, outcomes, i).kept == c.kept
      invariant Scanned(g, c, ids, outcomes, i).worker == Scanning(Rest(ids, i), busy, waiting)
      invariant !busy && !waiting ==> forall k :: 0 <= k < i ==> Pipeline.Quiet(g, c, views[k])
    {
      ps[i].IsBehind();
      ScanStep(g, c, ids, outcomes, i, views, busy, waiting);
      busy, waiting := TriggerAt(ps, i, outcomes[i], busy, waiting, g, c, views);
      views := views[i := TriggerProxy(g.size, |c.kept|, views[i], outcomes[i]).0];
    }
    ScanEnds(g, Scanned(g, c, ids, outcomes, |ids|), ids, views);
  }

  ghost predicate AllShow(ps: seq<ProxyPushSupplier>, views: seq<Proxy>)
    requires |ps| == |views|
    reads ps, set i | 0 <= i < |ps| :: ps[i].reader, set i | 0 <= i < |ps| :: ps[i].reader.queue
    reads set i | 0 <= i < |ps| :: ps[i].reader.queue.queue
  {
    forall i :: 0 <= i < |ps| ==> ps[i].Valid() && ps[i].View() == views[i]
  }

  /** The body of the loop: one proxy is triggered, the others stay as they are. */
  method TriggerAt(ps: seq<ProxyPushSupplier>, i: nat, outcome: Outcome, busy: bool, waiting: bool,
                   ghost g: Config, ghost c: Chan, ghost views: seq<Proxy>)
    returns (busy': bool, waiting': bool)
    requires i < |ps| == |views| && Separate(ps) && ConfigOk(g) && AllShow(ps, views) && AllRead(g, c, ps)
    requires views[i].pos <= |c.kept|
    modifies ps[i], ps[i].reader
    ensures var r := TriggerProxy(g.size, |c.kept|, views[i], outcome);
      && AllShow(ps, views[i := r.0]) && busy' == (busy || r.1) && waiting' == (waiting || r.2)
      && (!busy' && !waiting' ==> Pipeline.Quiet(g, c, r.0))
  {
    hide TriggerProxy, Slot, Pipeline.Quiet;
    hide EventQueue.Valid, Reader.Valid, ProxyPushSupplier.AfterTrigger, ProxyPushSupplier.Quiet;
    var p := ps[i];
    assert forall k :: 0 <= k < |ps| && k != i ==> ps[k] != p && ps[k].reader != p.reader;
    p.AfterIs(g, c, outcome);
    var sent;
    busy', waiting', sent := p.Trigger(outcome, busy, waiting);
    p.QuietIs(g, c);
  }

  lemma ScanStarts(g: Config, c: Chan, ids: seq<nat>, outcomes: seq<Outcome>, views: seq<Proxy>)
    requires ConfigOk(g) && |views| == |ids| == |outcomes|
    requires forall i :: 0 <= i < |ids| ==> ids[i] in c.proxies && c.proxies[ids[i]] == views[i]
    ensures Scanned(g, c, ids, outcomes, 0) == c && Shows(c, ids, views)
  {
  }

  lemma ScanEnds(g: Config, c: Chan, ids: seq<nat>, views: seq<Proxy>)
    requires |ids| == |views| && Shows(c, ids, views)
    ensures Rest(ids, |ids|) == {}
    ensures forall i :: 0 <= i < |ids| ==> ids[i] in c.proxies && c.proxies[ids[i]] == views[i]
  {
  }
}
