/** A proxy that pulls its supplier: it asks with pull or try_pull, changes to the other
    when one fails, and gives the supplier up when nothing works. */
module PullConsumer {
  import opened Wrappers

  datatype Mode = Pull | TryPull

  /** What a request comes to. has_event is looked at only in the answer to try_pull. */
  datatype Response<T> = Raised | Returned(hasEvent: bool, event: T)

  datatype Got<T> = Got(op: Mode, response: Response<T>)

  /** The fields of the proxy, with its history: whether a supplier was ever connected, the
      requests sent, the answers picked up, and the events taken out of the queue. */
  datatype Proxy<T> = Proxy(
    target: bool,
    req: Option<Mode>,
    mode: Mode,
    exceptionCount: nat,
    queue: seq<T>,
    connected: bool,
    sent: seq<Mode>,
    got: seq<Got<T>>,
    taken: seq<T>)

  datatype Act<T> =
    | Connect
    | TriggerRequest
    | Collect(arrived: Option<Response<T>>)
    | Drain                                   // the supplier admin takes the queue

  function Other(m: Mode): Mode {
    if m == Pull then TryPull else Pull
  }

  function HasEvent<T>(g: Got<T>): bool {
    g.response.Returned? && (g.op == Pull || g.response.hasEvent)
  }

  /** A client connects once: when the proxy gives up, its object is deactivated. */
  predicate Enabled<T(==)>(p: Proxy<T>, a: Act<T>) {
    a.Connect? ==> !p.target && p.req.None? && !p.connected
  }

  function Do<T>(p: Proxy<T>, a: Act<T>): Proxy<T> {
    match a
    case Connect => p.(target := true, connected := true)
    case TriggerRequest =>
      if p.req.None? && p.target then p.(req := Some(p.mode), sent := p.sent + [p.mode]) else p
    case Collect(arrived) =>
      if p.req.None? || arrived.None? then p else Pick(p, Got(p.req.value, arrived.value)).(req := None)
    case Drain => p.(queue := [], taken := p.taken + p.queue)
  }

  function Pick<T>(p: Proxy<T>, g: Got<T>): Proxy<T> {
    if g.response.Raised? then
      p.(exceptionCount := p.exceptionCount + 1, mode := Other(p.mode), got := p.got + [g],
         target := p.target && p.exceptionCount + 1 < 4)
    else
      p.(exceptionCount := 0, got := p.got + [g], queue := if HasEvent(g) then p.queue + [g.response.event] else p.queue)
  }

  function Start<T>(): Proxy<T> {
    Proxy(false, None, Pull, 0, [], false, [], [], [])
  }

  // ---------- what the history says ----------

  /** How many of the last answers, with nothing else between, were exceptions. */
  function Trailing<T>(got: seq<Got<T>>): (n: nat)
    ensures n <= |got| && forall i :: |got| - n <= i < |got| ==> got[i].response.Raised?
    ensures n < |got| ==> !got[|got| - n - 1].response.Raised?
  {
    if got == [] || !got[|got| - 1].response.Raised? then 0 else Trailing(got[..|got| - 1]) + 1
  }

  /** Which request comes after these answers. */
  function ModeAfter<T>(got: seq<Got<T>>): Mode {
    if got == [] then Pull
    else if got[|got| - 1].response.Raised? then Other(ModeAfter(got[..|got| - 1]))
    else ModeAfter(got[..|got| - 1])
  }

  /** Every answer is to the request that was due. */
  predicate InTurn<T>(got: seq<Got<T>>) {
    got != [] ==> InTurn(got[..|got| - 1]) && got[|got| - 1].op == ModeAfter(got[..|got| - 1])
  }

  /** The events in the answers, in order. */
  function EventsOf<T>(got: seq<Got<T>>): seq<T> {
    if got == [] then []
    else EventsOf(got[..|got| - 1]) + if HasEvent(got[|got| - 1]) then [got[|got| - 1].response.event] else []
  }

  ghost predicate Inv<T>(p: Proxy<T>) {
    && p.exceptionCount == Trailing(p.got) <= 4
    && (!p.connected ==> p.got == [] && p.exceptionCount == 0)
    && p.target == (p.connected && p.exceptionCount < 4)
    && p.mode == ModeAfter(p.got)
    && (p.req.Some? ==> p.req.value == p.mode && p.target)
    && p.sent == (if p.req.Some? then Ops(p.got) + [p.req.value] else Ops(p.got))
    && InTurn(p.got)
    && p.taken + p.queue == EventsOf(p.got)
  }

  function Ops<T>(got: seq<Got<T>>): (ops: seq<Mode>)
    ensures |ops| == |got|
  {
    seq(|got|, i requires 0 <= i < |got| => got[i].op)
  }

  lemma HistorySnoc<T>(got: seq<Got<T>>, g: Got<T>)
    ensures Trailing(got + [g]) == if g.response.Raised? then Trailing(got) + 1 else 0
    ensures ModeAfter(got + [g]) == if g.response.Raised? then Other(ModeAfter(got)) else ModeAfter(got)
    ensures EventsOf(got + [g]) == EventsOf(got) + if HasEvent(g) then [g.response.event] else []
    ensures Ops(got + [g]) == Ops(got) + [g.op]
    ensures InTurn(got + [g]) <==> InTurn(got) && g.op == ModeAfter(got)
  {
    assert (got + [g])[..|got|] == got;
  }

  lemma PickKeepsInv<T>(p: Proxy<T>, r: Response<T>)
    requires Inv(p) && p.req.Some?
    ensures Inv(Pick(p, Got(p.req.value, r)).(req := None))
  {
    var g := Got(p.req.value, r);
    HistorySnoc(p.got, g);
    if r.Returned? {
      assert p.taken + (p.queue + [r.event]) == (p.taken + p.queue) + [r.event];
    }
  }

  lemma DoKeepsInv<T>(p: Proxy<T>, a: Act<T>)
    requires Inv(p) && Enabled(p, a)
    ensures Inv(Do(p, a))
  {
    if a.Collect? && p.req.Some? && a.arrived.Some? {
      PickKeepsInv(p, a.arrived.value);
    } else if a.Drain? {
      assert (p.taken + p.queue) + [] == p.taken + p.queue;
    }
  }

  // ---------- every run ----------

  ghost predicate Run<T(!new)>(ps: seq<Proxy<T>>, acts: seq<Act<T>>) {
    && |ps| == |acts| + 1 && ps[0] == Start()
    && forall i :: 0 <= i < |acts| ==> Enabled(ps[i], acts[i]) && ps[i + 1] == Do(ps[i], acts[i])
  }

  lemma {:induction false} RunKeepsInv<T(!new)>(ps: seq<Proxy<T>>, acts: seq<Act<T>>, n: nat)
    requires Run(ps, acts) && n <= |acts|
    ensures Inv(ps[n])
  {
    if n > 0 {
      RunKeepsInv(ps, acts, n - 1);
      DoKeepsInv(ps[n - 1], acts[n - 1]);
    }
  }

  ghost predicate LastFourRaised<T>(got: seq<Got<T>>) {
    |got| >= 4 && forall i :: |got| - 4 <= i < |got| ==> got[i].response.Raised?
  }

  /** A supplier that was connected has been given up if and only if its last four answers
      were exceptions; nothing is asked of it afterwards. */
  lemma GivesUpIff<T(!new)>(ps: seq<Proxy<T>>, acts: seq<Act<T>>, n: nat)
    requires Run(ps, acts) && n <= |acts| && ps[n].connected
    ensures !ps[n].target <==> LastFourRaised(ps[n].got)
    ensures !ps[n].target ==> ps[n].req.None? && Do(ps[n], TriggerRequest) == ps[n]
  {
    RunKeepsInv(ps, acts, n);
    var got := ps[n].got;
    assert Trailing(got) < |got| ==> !got[|got| - Trailing(got) - 1].response.Raised?;
  }

  /** Those four alternate: two were pulls, and two were try_pulls. */
  lemma BothWereTried<T(!new)>(ps: seq<Proxy<T>>, acts: seq<Act<T>>, n: nat)
    requires Run(ps, acts) && n <= |acts| && LastFourRaised(ps[n].got)
    ensures var g := ps[n].got; var k := |g| - 4;
      && g[k].op == g[k + 2].op && g[k + 1].op == g[k + 3].op && g[k].op == Other(g[k + 1].op)
  {
    RunKeepsInv(ps, acts, n);
    var got := ps[n].got;
    var got1, got2 := got[..|got| - 1], got[..|got| - 2];
    assert got1[..|got1| - 1] == got2;
    TurnsAlternate(got);
    TurnsAlternate(got1);
    TurnsAlternate(got2);
  }

  lemma TurnsAlternate<T>(got: seq<Got<T>>)
    requires InTurn(got) && |got| >= 2 && got[|got| - 2].response.Raised?
    ensures InTurn(got[..|got| - 1]) && got[|got| - 1].op == Other(got[|got| - 2].op)
  {
    var before := got[..|got| - 1];
    assert InTurn(before) && before[|before| - 1] == got[|got| - 2];
  }

  /** Every answer is to one request, at most one request is unanswered, and the events of
      the answers, each once and in order, are those taken and those in the queue. */
  lemma OneAtATime<T(!new)>(ps: seq<Proxy<T>>, acts: seq<Act<T>>, n: nat)
    requires Run(ps, acts) && n <= |acts|
    ensures |ps[n].got| <= |ps[n].sent| <= |ps[n].got| + 1
    ensures forall i :: 0 <= i < |ps[n].got| ==> ps[n].got[i].op == ps[n].sent[i]
    ensures ps[n].taken + ps[n].queue == EventsOf(ps[n].got)
  {
    RunKeepsInv(ps, acts, n);
  }

  // ---------- what each step does ----------

  /** An answer to the open request closes it, and its event goes to the end of the queue if and
      only if the request was a pull that returned, or a try_pull that returned with an event. */
  lemma CollectDoes<T>(p: Proxy<T>, arrived: Option<Response<T>>)
    ensures var p' := Do(p, Collect(arrived));
      if p.req.None? || arrived.None? then p' == p
      else
        && p'.req == None && p'.sent == p.sent && p'.taken == p.taken && p'.connected == p.connected
        && p'.got == p.got + [Got(p.req.value, arrived.value)]
        && match arrived.value
           case Raised => p'.queue == p.queue
           case Returned(hasEvent, event) =>
             p'.queue == if p.req.value == Pull || hasEvent then p.queue + [event] else p.queue
  {
  }

  /** A request is sent if and only if there is a supplier and none is open, and it is the one
      whose turn it is. */
  lemma TriggerDoes<T>(p: Proxy<T>)
    requires Inv(p)
    ensures var p' := Do(p, TriggerRequest);
      if p.target && p.req.None? then
        && p'.req == Some(ModeAfter(p.got)) && p'.sent == p.sent + [ModeAfter(p.got)]
        && p'.target && p'.queue == p.queue && p'.got == p.got
      else p' == p
  {
  }

  /** A client becomes the supplier, and the supplier admin takes all there is. */
  lemma OthersDo<T>(p: Proxy<T>)
    ensures var p' := Do(p, Connect);
      && p'.target && p'.connected && p'.req == p.req && p'.mode == p.mode && p'.queue == p.queue && p'.got == p.got
    ensures var p' := Do(p, Drain);
      && p'.queue == [] && p'.taken == p.taken + p.queue && p'.target == p.target && p'.req == p.req && p'.got == p.got
  {
  }

  /** Over whole runs: the events taken and queued are, in order, those of the answers to pull
      that returned and of the answers to try_pull that returned with an event. */
  lemma {:induction false} EventsAre<T(!new)>(ps: seq<Proxy<T>>, acts: seq<Act<T>>, n: nat)
    requires Run(ps, acts) && n < |acts|
    ensures var p, p' := ps[n], ps[n + 1];
      if acts[n].Collect? && p.req.Some? && acts[n].arrived.Some? && acts[n].arrived.value.Returned?
        && (p.req.value == Pull || acts[n].arrived.value.hasEvent)
      then p'.taken + p'.queue == p.taken + p.queue + [acts[n].arrived.value.event]
      else p'.taken + p'.queue == p.taken + p.queue
  {
    var p, p' := ps[n], ps[n + 1];
    match acts[n]
    case Collect(arrived) => CollectDoes(p, arrived);
    case Drain => assert (p.taken + p.queue) + [] == p.taken + p.queue;
    case _ =>
  }

  // ---------- the class ----------

  class ProxyPullConsumer<T(==)> {
    var target: bool
    var req: Option<Mode>
    var mode: Mode
    var exceptionCount: nat
    var queue: seq<T>
    ghost var connected: bool
    ghost var sent: seq<Mode>
    ghost var got: seq<Got<T>>
    ghost var taken: seq<T>

    ghost function View(): Proxy<T>
      reads this
    {
      Proxy(target, req, mode, exceptionCount, queue, connected, sent, got, taken)
    }

    constructor ()
      ensures View() == Start()
    {
      target, req, mode, exceptionCount, queue := false, None, Pull, 0, [];
      connected, sent, got, taken := false, [], [], [];
    }

    /** collect: `arrived` is the answer to the outstanding request, if poll_response says
        there is one. */
    method Pickup(arrived: Option<Response<T>>)
      modifies this
      ensures View() == Do(old(View()), Collect(arrived))
      ensures queue != old(queue) <==>
        old(req).Some? && arrived.Some? && arrived.value.Returned? && (old(req).value == Pull || arrived.value.hasEvent)
      ensures queue == old(queue) || queue == old(queue) + [arrived.value.event]
    {
      if req.Some? && arrived.Some? {
        got := got + [Got(req.value, arrived.value)];
        match arrived.value {
        case Raised =>
          exceptionCount := exceptionCount + 1;
          mode := if mode == Pull then TryPull else Pull;
          if exceptionCount >= 4 {
            target := false;
          }
        case Returned(has, event) =>
          var hasEvent := false;
          if req.value == Pull {
            hasEvent := true;
          } else if req.value == TryPull {
            hasEvent := has;
          }
          if hasEvent {
            queue := queue + [event];
          }
          exceptionCount := 0;
        }
        req := None;
      }
    }

    method Trigger()
      modifies this
      ensures View() == Do(old(View()), TriggerRequest)
    {
      if req.None? && target {
        match mode {
        case Pull => req := Some(Pull);
        case TryPull => req := Some(TryPull);
        }
        sent := sent + [mode];
      }
    }
  }
}
