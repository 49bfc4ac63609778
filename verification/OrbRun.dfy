/** Requests whose answers nobody waits for: they are put on a list, the main thread polls
    it, tells the callbacks, and at shutdown waits for what is left. */
module OrbRun {
  import opened Wrappers

  type Request = nat
  type Callback = nat

  datatype Deferred = Deferred(req: Request, callback: Option<Callback>)

  /** What a poll of a request finds. */
  datatype Outcome = NotArrived | Succeeded | Raised

  datatype Answer = Answer(entry: Deferred, ok: bool)

  /** The list, the callbacks whose references are still to be dropped, and the history:
      what was put on the list, answered and released, drained and released, and the
      references taken and dropped. */
  datatype World = World(
    deferred: seq<Deferred>,
    used: seq<Callback>,
    added: seq<Deferred>,
    answered: seq<Answer>,
    drained: seq<Deferred>,
    taken: seq<Callback>,
    dropped: seq<Callback>,
    shutdown: bool,
    finished: bool)

  datatype Act =
    | Add(req: Request, callback: Option<Callback>)
    | Poll(outcomes: seq<Outcome>)
    | DropUsed
    | Shutdown
    | Drain

  function Cbs(ds: seq<Deferred>): seq<Callback> {
    if ds == [] then []
    else
      var d := ds[|ds| - 1];
      Cbs(ds[..|ds| - 1]) + if d.callback.Some? then [d.callback.value] else []
  }

  /** The entries that were answered, in order. */
  function Entries(answers: seq<Answer>): (ds: seq<Deferred>)
    ensures |ds| == |answers|
  {
    if answers == [] then [] else Entries(answers[..|answers| - 1]) + [answers[|answers| - 1].entry]
  }

  /** The callbacks to be called, each with the request it is called for. */
  function Calls(answers: seq<Answer>): seq<(Request, Callback)> {
    if answers == [] then []
    else
      var a := answers[|answers| - 1];
      Calls(answers[..|answers| - 1])
      + if a.ok && a.entry.callback.Some? then [(a.entry.req, a.entry.callback.value)] else []
  }

  /** What stays on the list. */
  function Kept(ds: seq<Deferred>, os: seq<Outcome>): seq<Deferred>
    requires |ds| == |os|
  {
    if ds == [] then []
    else
      var n := |ds| - 1;
      Kept(ds[..n], os[..n]) + if os[n] == NotArrived then [ds[n]] else []
  }

  function Answered(ds: seq<Deferred>, os: seq<Outcome>): seq<Answer>
    requires |ds| == |os|
  {
    if ds == [] then []
    else
      var n := |ds| - 1;
      Answered(ds[..n], os[..n]) + if os[n] == NotArrived then [] else [Answer(ds[n], os[n] == Succeeded)]
  }

  /** The main thread polls until shutdown is requested, dropping references between polls,
      and drains the list once. */
  predicate Enabled(w: World, a: Act) {
    match a
    case Add(_, _) => true
    case Poll(os) => |os| == |w.deferred| && w.used == [] && !w.finished
    case DropUsed => true
    case Shutdown => true
    case Drain => w.shutdown && w.used == [] && !w.finished
  }

  function Do(w: World, a: Act): World
    requires Enabled(w, a)
  {
    match a
    case Add(req, callback) =>
      var cb := if w.shutdown then None else callback;
      w.(deferred := w.deferred + [Deferred(req, cb)], added := w.added + [Deferred(req, cb)],
         taken := if cb.Some? then w.taken + [cb.value] else w.taken)
    case Poll(os) =>
      var done := Answered(w.deferred, os);
      w.(deferred := Kept(w.deferred, os), answered := w.answered + done, used := w.used + Cbs(Entries(done)))
    case DropUsed => w.(used := [], dropped := w.dropped + w.used)
    case Shutdown => w.(shutdown := true)
    case Drain =>
      w.(deferred := [], drained := w.drained + w.deferred, dropped := w.dropped + Cbs(w.deferred), finished := true)
  }

  const EMPTY_WORLD := World([], [], [], [], [], [], [], false, false)

  // ---------- what is conserved ----------

  /** Every entry put on the list is there, or was answered, or drained; every reference
      taken is with an entry on the list, or about to be dropped, or dropped. */
  ghost predicate Inv(w: World) {
    && multiset(w.added) == multiset(w.deferred) + multiset(Entries(w.answered)) + multiset(w.drained)
    && multiset(w.taken) == multiset(Cbs(w.deferred)) + multiset(w.used) + multiset(w.dropped)
    && (w.finished ==> w.shutdown && w.used == [] && Cbs(w.deferred) == [])
  }

  lemma {:induction false} CbsConcat(a: seq<Deferred>, b: seq<Deferred>)
    ensures Cbs(a + b) == Cbs(a) + Cbs(b)
  {
    if b == [] {
      assert a + b == a;
    } else {
      assert (a + b)[..|a + b| - 1] == a + b[..|b| - 1];
      CbsConcat(a, b[..|b| - 1]);
    }
  }

  lemma {:induction false} EntriesConcat(a: seq<Answer>, b: seq<Answer>)
    ensures Entries(a + b) == Entries(a) + Entries(b)
  {
    if b == [] {
      assert a + b == a;
    } else {
      assert (a + b)[..|a + b| - 1] == a + b[..|b| - 1];
      EntriesConcat(a, b[..|b| - 1]);
    }
  }

  lemma {:induction false} CallsConcat(a: seq<Answer>, b: seq<Answer>)
    ensures Calls(a + b) == Calls(a) + Calls(b)
  {
    if b == [] {
      assert a + b == a;
    } else {
      assert (a + b)[..|a + b| - 1] == a + b[..|b| - 1];
      CallsConcat(a, b[..|b| - 1]);
    }
  }

  lemma OneMore(ds: seq<Deferred>, os: seq<Outcome>, i: nat)
    requires |ds| == |os| && i < |ds|
    ensures Kept(ds[..i + 1], os[..i + 1]) == Kept(ds[..i], os[..i]) + if os[i] == NotArrived then [ds[i]] else []
    ensures Answered(ds[..i + 1], os[..i + 1])
         == Answered(ds[..i], os[..i]) + if os[i] == NotArrived then [] else [Answer(ds[i], os[i] == Succeeded)]
  {
    assert ds[..i + 1][..i] == ds[..i] && os[..i + 1][..i] == os[..i];
  }

  /** At the place after what is kept there is the next entry, to be kept or erased. */
  lemma AtNext(kept: seq<Deferred>, ds: seq<Deferred>, i: nat)
    requires i < |ds|
    ensures var l := kept + ds[i..]; var k := |kept|;
      l[k] == ds[i] && l == (kept + [ds[i]]) + ds[i + 1..] && l[..k] + l[k + 1..] == kept + ds[i + 1..]
  {
  }

  lemma NothingYet()
    ensures Kept([], []) == [] && Answered([], []) == [] && Calls([]) == []
    ensures Entries([]) == [] && Cbs([]) == [] && Splits<Deferred>([], [], []) && Splits<Callback>([], [], [])
  {
  }

  lemma AnswerOne(done: seq<Answer>, a: Answer)
    ensures Entries(done + [a]) == Entries(done) + [a.entry]
    ensures Calls(done + [a])
         == Calls(done) + if a.ok && a.entry.callback.Some? then [(a.entry.req, a.entry.callback.value)] else []
    ensures Cbs(Entries(done + [a])) == Cbs(Entries(done)) + Cb(a.entry)
  {
    assert (done + [a])[..|done|] == done;
    CbsOne(Entries(done), a.entry);
  }

  function Cb(d: Deferred): seq<Callback> {
    if d.callback.Some? then [d.callback.value] else []
  }

  lemma CbsOne(ds: seq<Deferred>, d: Deferred)
    ensures Cbs(ds + [d]) == Cbs(ds) + Cb(d)
  {
    assert (ds + [d])[..|ds|] == ds;
  }

  ghost predicate Splits<T>(all: seq<T>, a: seq<T>, b: seq<T>) {
    multiset(all) == multiset(a) + multiset(b)
  }

  lemma SplitsLeft<T>(all: seq<T>, a: seq<T>, b: seq<T>, xs: seq<T>)
    requires Splits(all, a, b)
    ensures Splits(all + xs, a + xs, b)
  {
  }

  lemma SplitsRight<T>(all: seq<T>, a: seq<T>, b: seq<T>, xs: seq<T>)
    requires Splits(all, a, b)
    ensures Splits(all + xs, a, b + xs)
  {
  }

  /** A poll splits the list: what it keeps and what it answers are all of it. */
  lemma {:induction false} PollSplits(ds: seq<Deferred>, os: seq<Outcome>, n: nat)
    requires |ds| == |os| && n <= |ds|
    ensures var kept, done := Kept(ds[..n], os[..n]), Entries(Answered(ds[..n], os[..n]));
      Splits(ds[..n], kept, done) && Splits(Cbs(ds[..n]), Cbs(kept), Cbs(done))
  {
    hide Kept, Answered, Entries, Cbs, Cb, Splits;
    if n == 0 {
      assert ds[..0] == [] && os[..0] == [];
      NothingYet();
    } else {
      var i := n - 1;
      PollSplits(ds, os, i);
      OneMore(ds, os, i);
      var kept, answers := Kept(ds[..i], os[..i]), Answered(ds[..i], os[..i]);
      assert ds[..n] == ds[..i] + [ds[i]];
      CbsOne(ds[..i], ds[i]);
      if os[i] == NotArrived {
        assert Answered(ds[..n], os[..n]) == answers;
        CbsOne(kept, ds[i]);
        SplitsLeft(ds[..i], kept, Entries(answers), [ds[i]]);
        SplitsLeft(Cbs(ds[..i]), Cbs(kept), Cbs(Entries(answers)), Cb(ds[i]));
      } else {
        assert Kept(ds[..n], os[..n]) == kept;
        AnswerOne(answers, Answer(ds[i], os[i] == Succeeded));
        SplitsRight(ds[..i], kept, Entries(answers), [ds[i]]);
        SplitsRight(Cbs(ds[..i]), Cbs(kept), Cbs(Entries(answers)), Cb(ds[i]));
      }
    }
  }

  lemma AddKeepsInv(w: World, req: Request, callback: Option<Callback>)
    requires Inv(w)
    ensures Inv(Do(w, Add(req, callback)))
  {
    hide Cbs, Entries;
    CbsOne(w.deferred, Deferred(req, if w.shutdown then None else callback));
  }

  lemma PollKeepsInv(w: World, os: seq<Outcome>)
    requires Inv(w) && Enabled(w, Poll(os))
    ensures Inv(Do(w, Poll(os)))
  {
    hide Cbs, Entries, Kept, Answered;
    PollSplits(w.deferred, os, |os|);
    assert w.deferred[..|os|] == w.deferred && os[..|os|] == os;
    EntriesConcat(w.answered, Answered(w.deferred, os));
    assert w.used + Cbs(Entries(Answered(w.deferred, os))) == Cbs(Entries(Answered(w.deferred, os)));
  }

  lemma DoKeepsInv(w: World, a: Act)
    requires Inv(w) && Enabled(w, a)
    ensures Inv(Do(w, a))
  {
    hide Cbs, Entries, Kept, Answered;
    match a
    case Add(req, callback) => AddKeepsInv(w, req, callback);
    case Poll(os) => PollKeepsInv(w, os);
    case DropUsed => DropKeepsInv(w);
    case Shutdown =>
    case Drain => DrainKeepsInv(w);
  }

  lemma DropKeepsInv(w: World)
    requires Inv(w)
    ensures Inv(Do(w, DropUsed))
  {
    hide Cbs, Entries;
  }

  lemma DrainKeepsInv(w: World)
    requires Inv(w) && Enabled(w, Drain)
    ensures Inv(Do(w, Drain))
  {
    NothingYet();
    hide Cbs, Entries;
  }

  // ---------- every run ----------

  ghost predicate Run(ws: seq<World>, acts: seq<Act>) {
    && |ws| == |acts| + 1 && ws[0] == EMPTY_WORLD
    && forall i :: 0 <= i < |acts| ==> Enabled(ws[i], acts[i]) && ws[i + 1] == Do(ws[i], acts[i])
  }

  lemma {:induction false} RunKeepsInv(ws: seq<World>, acts: seq<Act>, n: nat)
    requires Run(ws, acts) && n <= |acts|
    ensures Inv(ws[n])
  {
    if n > 0 {
      RunKeepsInv(ws, acts, n - 1);
      DoKeepsInv(ws[n - 1], acts[n - 1]);
    }
  }

  /** Once run() has returned, every reference deferredRequest took has been dropped as
      often as it was taken, whatever is added later. */
  lemma ReferencesBalance(ws: seq<World>, acts: seq<Act>, n: nat)
    requires Run(ws, acts) && n <= |acts| && ws[n].finished
    ensures multiset(ws[n].taken) == multiset(ws[n].dropped)
  {
    RunKeepsInv(ws, acts, n);
  }

  /** Every request put on the list before run() returns is released once by then: answered
      or drained. */
  lemma ReleasedOnce(ws: seq<World>, acts: seq<Act>, n: nat)
    requires Run(ws, acts) && n < |acts| && acts[n].Drain?
    ensures multiset(ws[n + 1].added) == multiset(Entries(ws[n + 1].answered)) + multiset(ws[n + 1].drained)
    ensures ws[n + 1].added == ws[n].added
  {
    RunKeepsInv(ws, acts, n + 1);
  }

  /** Requests added after that stay on the list, and are never answered or drained. */
  lemma {:induction false} LateStayForever(ws: seq<World>, acts: seq<Act>, n: nat, m: nat)
    requires Run(ws, acts) && n <= m <= |acts| && ws[n].finished
    ensures ws[m].finished && ws[n].deferred <= ws[m].deferred
    ensures ws[m].answered == ws[n].answered && ws[m].drained == ws[n].drained
  {
    if n < m {
      LateStayForever(ws, acts, n, m - 1);
    }
  }

  /** A callback is called for a request as often as the request was answered with success. */
  lemma {:induction false} CalledOnSuccess(answers: seq<Answer>, req: Request, cb: Callback)
    ensures multiset(Calls(answers))[(req, cb)] == multiset(answers)[Answer(Deferred(req, Some(cb)), true)]
  {
    if answers != [] {
      var n := |answers| - 1;
      assert answers == answers[..n] + [answers[n]];
      CalledOnSuccess(answers[..n], req, cb);
    }
  }

  /** So if a request is put on the list once, its callback is called at most once. */
  lemma CalledAtMostOnce(ws: seq<World>, acts: seq<Act>, n: nat, req: Request, cb: Callback)
    requires Run(ws, acts) && n <= |acts| && multiset(ws[n].added)[Deferred(req, Some(cb))] <= 1
    ensures multiset(Calls(ws[n].answered))[(req, cb)] <= 1
  {
    RunKeepsInv(ws, acts, n);
    CalledOnSuccess(ws[n].answered, req, cb);
    AnswersAreEntries(ws[n].answered, Answer(Deferred(req, Some(cb)), true));
  }

  lemma {:induction false} AnswersAreEntries(answers: seq<Answer>, a: Answer)
    ensures multiset(answers)[a] <= multiset(Entries(answers))[a.entry]
  {
    if answers != [] {
      var n := |answers| - 1;
      assert answers == answers[..n] + [answers[n]];
      AnswersAreEntries(answers[..n], a);
    }
  }

  // ---------- what each step does ----------

  /** A request comes last. Before shutdown its callback comes with it, with a reference taken;
      after that it has none. */
  lemma AddDoes(w: World, req: Request, callback: Option<Callback>)
    ensures var w' := Do(w, Add(req, callback));
      && |w'.deferred| == |w.deferred| + 1 && w.deferred <= w'.deferred && w'.deferred[|w.deferred|].req == req
      && w'.deferred[|w.deferred|].callback == (if w.shutdown then None else callback)
      && w'.taken == (if w.shutdown || callback.None? then w.taken else w.taken + [callback.value])
      && w'.added == w.added + [w'.deferred[|w.deferred|]] && w'.answered == w.answered && w'.dropped == w.dropped
  {
  }

  /** One request: it stays if nothing has arrived, and else its answer is a success or a
      failure as it was; a callback is called for a success only. */
  lemma PollOne(d: Deferred)
    ensures Kept([d], [NotArrived]) == [d] && Answered([d], [NotArrived]) == []
    ensures Kept([d], [Succeeded]) == [] && Answered([d], [Succeeded]) == [Answer(d, true)]
    ensures Kept([d], [Raised]) == [] && Answered([d], [Raised]) == [Answer(d, false)]
    ensures Calls([Answer(d, false)]) == []
    ensures Calls([Answer(d, true)]) == if d.callback.Some? then [(d.req, d.callback.value)] else []
    ensures Cbs([d]) == if d.callback.Some? then [d.callback.value] else []
  {
    assert [d][..0] == [] && [NotArrived][..0] == [];
    assert [Answer(d, true)][..0] == [];
  }

  /** And so for each request of a list, in order. */
  lemma {:induction false} PollEach(a: seq<Deferred>, o: seq<Outcome>, b: seq<Deferred>, u: seq<Outcome>)
    requires |a| == |o| && |b| == |u|
    ensures Kept(a + b, o + u) == Kept(a, o) + Kept(b, u) && Answered(a + b, o + u) == Answered(a, o) + Answered(b, u)
  {
    if b == [] {
      assert a + b == a && o + u == o;
    } else {
      var n := |b| - 1;
      assert (a + b)[..|a| + n] == a + b[..n] && (o + u)[..|a| + n] == o + u[..n];
      PollEach(a, o, b[..n], u[..n]);
    }
  }

  /** The other steps: a poll hands over the callbacks it has used, they are dropped in order,
      and the drain releases what is left. */
  lemma OthersDo(w: World, a: Act)
    requires Enabled(w, a)
    ensures var w' := Do(w, a);
      && (a.Poll? ==> w'.deferred == Kept(w.deferred, a.outcomes) && w'.answered == w.answered + Answered(w.deferred, a.outcomes)
                      && w'.used == w.used + Cbs(Entries(Answered(w.deferred, a.outcomes))) && w'.dropped == w.dropped)
      && (a.DropUsed? ==> w'.used == [] && w'.dropped == w.dropped + w.used && w'.deferred == w.deferred)
      && (a.Shutdown? ==> w'.shutdown && w'.deferred == w.deferred && w'.answered == w.answered)
      && (a.Drain? ==> w'.finished && w'.deferred == [] && w'.drained == w.drained + w.deferred && w'.answered == w.answered)
  {
    hide Kept, Answered, Cbs, Entries;
  }

  // ---------- the class ----------

  /** What run() and deferredRequest() do to the list. `calls` are the callbacks called. */
  class Orb {
    var deferredRequests: seq<Deferred>
    var usedCallbacks: seq<Callback>
    var shutdownRequested: bool
    var calls: seq<(Request, Callback)>
    ghost var added: seq<Deferred>
    ghost var answered: seq<Answer>
    ghost var drained: seq<Deferred>
    ghost var taken: seq<Callback>
    ghost var dropped: seq<Callback>
    ghost var finished: bool

    ghost function View(): World
      reads this
    {
      World(deferredRequests, usedCallbacks, added, answered, drained, taken, dropped, shutdownRequested, finished)
    }

    constructor ()
      ensures View() == EMPTY_WORLD && calls == []
    {
      deferredRequests, usedCallbacks, shutdownRequested, calls := [], [], false, [];
      added, answered, drained, taken, dropped, finished := [], [], [], [], [], false;
    }

    method DeferredRequest(req: Request, callback: Option<Callback>)
      modifies this
      ensures View() == Do(old(View()), Add(req, callback)) && calls == old(calls)
    {
      var cb := if shutdownRequested then None else callback;
      if cb.Some? {
        taken := taken + [cb.value];
      }
      deferredRequests := deferredRequests + [Deferred(req, cb)];
      added := added + [Deferred(req, cb)];
    }

    /** The loop over the list in run(), which erases as it goes. */
    method PollAll(outcomes: seq<Outcome>)
      requires |outcomes| == |deferredRequests| && usedCallbacks == [] && !finished
      modifies this`deferredRequests, this`usedCallbacks, this`calls, this`answered
      ensures View() == Do(old(View()), Poll(outcomes))
      ensures calls == old(calls) + Calls(Answered(old(deferredRequests), outcomes))
    {
      hide Polled, Kept, Answered, Calls, Cbs, Entries;
      ghost var ds := deferredRequests;
      ghost var done: seq<Answer> := [];
      var next := 0;
      PollStarts(ds, outcomes);
      for i := 0 to |outcomes|
        invariant Polled(ds, outcomes, i, deferredRequests, next, done)
        invariant answered == old(answered) + done
        invariant usedCallbacks == Cbs(Entries(done)) && calls == old(calls) + Calls(done)
      {
        PollStep(ds, outcomes, i, deferredRequests, next, done);
        var curr := deferredRequests[next];
        if outcomes[i] == NotArrived {
          next := next + 1;
        } else {
          ghost var a := Answer(curr, outcomes[i] == Succeeded);
          AnswerOne(done, a);
          if outcomes[i] == Succeeded && curr.callback.Some? {
            calls := calls + [(curr.req, curr.callback.value)];
          }
          if curr.callback.Some? {
            usedCallbacks := usedCallbacks + [curr.callback.value];
          }
          deferredRequests := deferredRequests[..next] + deferredRequests[next + 1..];
          answered, done := answered + [a], done + [a];
        }
      }
      PollEnds(ds, outcomes, deferredRequests, next, done);
    }

    /** The loop that drops the references of used callbacks. */
    method DropUsedCallbacks()
      modifies this`usedCallbacks, this`dropped
      ensures View() == Do(old(View()), DropUsed)
    {
      while usedCallbacks != []
        invariant dropped + usedCallbacks == old(dropped) + old(usedCallbacks)
        decreases |usedCallbacks|
      {
        assert dropped + usedCallbacks == dropped + [usedCallbacks[0]] + usedCallbacks[1..];
        dropped := dropped + [usedCallbacks[0]];
        usedCallbacks := usedCallbacks[1..];
      }
    }

    /** What run() does when it has left its loop. No callback is called. */
    method DrainAll()
      requires shutdownRequested && usedCallbacks == [] && !finished
      modifies this`deferredRequests, this`drained, this`dropped, this`finished
      ensures View() == Do(old(View()), Drain)
    {
      ghost var ds := deferredRequests;
      ghost var k := 0;
      while deferredRequests != []
        invariant k <= |ds| && deferredRequests == ds[k..] && drained == old(drained) + ds[..k]
        invariant dropped == old(dropped) + Cbs(ds[..k])
        decreases |deferredRequests|
      {
        var front := deferredRequests[0];
        assert ds[..k + 1] == ds[..k] + [front];
        CbsConcat(ds[..k], [front]);
        if front.callback.Some? {
          dropped := dropped + [front.callback.value];
        }
        drained := drained + [front];
        deferredRequests := deferredRequests[1..];
        k := k + 1;
      }
      assert ds[..k] == ds;
      finished := true;
    }
  }

  /** The list, and the place in it, when i of its entries have been polled. */
  ghost predicate Polled(ds: seq<Deferred>, os: seq<Outcome>, i: nat, list: seq<Deferred>, next: nat, done: seq<Answer>) {
    && |ds| == |os| && i <= |ds| && next == |Kept(ds[..i], os[..i])|
    && list == Kept(ds[..i], os[..i]) + ds[i..] && done == Answered(ds[..i], os[..i])
  }

  lemma PollStarts(ds: seq<Deferred>, os: seq<Outcome>)
    requires |ds| == |os|
    ensures Polled(ds, os, 0, ds, 0, []) && Cbs(Entries([])) == [] && Calls([]) == []
  {
    assert ds[..0] == [] && os[..0] == [];
    NothingYet();
  }

  lemma PollStep(ds: seq<Deferred>, os: seq<Outcome>, i: nat, list: seq<Deferred>, next: nat, done: seq<Answer>)
    requires i < |os| && Polled(ds, os, i, list, next, done)
    ensures next < |list|
    ensures os[i] == NotArrived ==> Polled(ds, os, i + 1, list, next + 1, done)
    ensures os[i] != NotArrived ==>
      Polled(ds, os, i + 1, list[..next] + list[next + 1..], next, done + [Answer(list[next], os[i] == Succeeded)])
  {
    hide Kept, Answered;
    OneMore(ds, os, i);
    AtNext(Kept(ds[..i], os[..i]), ds, i);
  }

  lemma PollEnds(ds: seq<Deferred>, os: seq<Outcome>, list: seq<Deferred>, next: nat, done: seq<Answer>)
    requires Polled(ds, os, |os|, list, next, done)
    ensures list == Kept(ds, os) && done == Answered(ds, os)
  {
    hide Kept, Answered;
    assert ds[..|os|] == ds && os[..|os|] == os && ds[|os|..] == [];
  }
}
