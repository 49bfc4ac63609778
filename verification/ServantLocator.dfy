/** The servant locator of the iterators: it holds a reference to every servant it tracks,
    and drops those not used for longer than their time to live. */
module ServantLocator {
  import opened Wrappers

  type Servant = nat

  datatype ServantEntry = ServantEntry(servant: Servant, ttl: int, destroy: string, lastAccess: int)

  /** The active map, with what the counting is about: each servant's reference count, the
      references its creators hold, the invocations that are open, and the servants whose
      count has reached zero, in that order. */
  datatype World = World(
    active: map<string, ServantEntry>,
    refs: map<Servant, int>,
    creators: multiset<Servant>,
    open: multiset<Servant>,
    deleted: seq<Servant>)

  datatype Act =
    | Create(servant: Servant)
    | Release(servant: Servant)
    | Register(oid: string, servant: Servant, ttl: int, destroy: string, now: int)
    | Preinvoke(oid: string, operation: string, now: int)
    | Postinvoke(servant: Servant)
    | Expire(oid: string, now: int)     // one step of a sweep
    | Untrack(oid: string)              // one step of the destructor

  function AddRef(refs: map<Servant, int>, s: Servant): map<Servant, int> {
    if s in refs then refs[s := refs[s] + 1] else refs
  }

  function RemoveRef(refs: map<Servant, int>, s: Servant): map<Servant, int> {
    if s in refs then refs[s := refs[s] - 1] else refs
  }

  /** The servant is deleted when its count comes to zero. */
  function Deleting(w: World, s: Servant): seq<Servant> {
    if s in w.refs && w.refs[s] == 1 then w.deleted + [s] else w.deleted
  }

  predicate Expired(e: ServantEntry, now: int) {
    now - e.lastAccess > e.ttl
  }

  /** What callers may do: only the holder of a reference passes it on or drops it. */
  ghost predicate Enabled(w: World, a: Act) {
    match a
    case Create(s) => s !in w.refs
    case Release(s) => s in w.creators
    case Register(_, s, _, _, _) => s in w.creators
    case Preinvoke(_, _, _) => true
    case Postinvoke(s) => s in w.open
    case Expire(oid, now) => oid in w.active && Expired(w.active[oid], now)
    case Untrack(oid) => oid in w.active
  }

  ghost function Do(w: World, a: Act): World
    requires Enabled(w, a)
  {
    match a
    case Create(s) => w.(refs := w.refs[s := 1], creators := w.creators + multiset{s})
    case Release(s) =>
      w.(refs := RemoveRef(w.refs, s), deleted := Deleting(w, s), creators := w.creators - multiset{s})
    case Register(oid, s, ttl, destroy, now) =>
      if oid in w.active then w
      else w.(refs := AddRef(w.refs, s), active := w.active[oid := ServantEntry(s, ttl, destroy, now)])
    case Preinvoke(oid, operation, now) =>
      if oid !in w.active then w
      else
        var e := w.active[oid];
        if e.destroy == operation then w.(active := w.active - {oid}, open := w.open + multiset{e.servant})
        else w.(refs := AddRef(w.refs, e.servant), active := w.active[oid := e.(lastAccess := now)],
                open := w.open + multiset{e.servant})
    case Postinvoke(s) => w.(refs := RemoveRef(w.refs, s), deleted := Deleting(w, s), open := w.open - multiset{s})
    case Expire(oid, _) => Drop(w, oid)
    case Untrack(oid) => Drop(w, oid)
  }

  /** An entry goes, with its reference. */
  function Drop(w: World, oid: string): World
    requires oid in w.active
  {
    var s := w.active[oid].servant;
    w.(active := w.active - {oid}, refs := RemoveRef(w.refs, s), deleted := Deleting(w, s))
  }

  // ---------- the counts ----------

  ghost function Holding(active: map<string, ServantEntry>, s: Servant): set<string> {
    set oid | oid in active && active[oid].servant == s
  }

  ghost function Holders(w: World, s: Servant): nat {
    w.creators[s] + |Holding(w.active, s)| + w.open[s]
  }

  /** The servants deleted are those whose count is zero, each deleted once. */
  ghost predicate DeletedOnce(refs: map<Servant, int>, deleted: seq<Servant>) {
    && (forall s :: s in deleted <==> s in refs && refs[s] == 0)
    && (forall i, j :: 0 <= i < j < |deleted| ==> deleted[i] != deleted[j])
  }

  /** Whatever is held is known. */
  ghost predicate HeldExist(w: World) {
    && (forall s :: s in w.creators || s in w.open ==> s in w.refs)
    && (forall oid :: oid in w.active ==> w.active[oid].servant in w.refs)
  }

  ghost predicate Inv(w: World) {
    && (forall s :: s in w.refs ==> w.refs[s] == Holders(w, s))
    && HeldExist(w)
    && DeletedOnce(w.refs, w.deleted)
  }

  lemma HoldingPut(active: map<string, ServantEntry>, oid: string, e: ServantEntry, s: Servant)
    requires oid !in active
    ensures |Holding(active[oid := e], s)| == |Holding(active, s)| + if e.servant == s then 1 else 0
  {
    assert Holding(active[oid := e], s) == Holding(active, s) + if e.servant == s then {oid} else {};
  }

  lemma HoldingDrop(active: map<string, ServantEntry>, oid: string, s: Servant)
    requires oid in active
    ensures |Holding(active - {oid}, s)| + (if active[oid].servant == s then 1 else 0) == |Holding(active, s)|
  {
    HoldingPut(active - {oid}, oid, active[oid], s);
    assert (active - {oid})[oid := active[oid]] == active;
  }

  lemma HoldingTouch(active: map<string, ServantEntry>, oid: string, now: int, s: Servant)
    requires oid in active
    ensures Holding(active[oid := active[oid].(lastAccess := now)], s) == Holding(active, s)
  {
  }

  /** Whoever has a reference has a servant that is not deleted. */
  lemma HolderIsPositive(w: World, s: Servant)
    requires Inv(w) && (s in w.creators || s in w.open || exists oid :: oid in w.active && w.active[oid].servant == s)
    ensures s in w.refs && w.refs[s] > 0 && s !in w.deleted
  {
    if oid :| oid in w.active && w.active[oid].servant == s {
      assert oid in Holding(w.active, s);
    }
  }

  lemma RegisterKeepsCount(w: World, a: Act, s: Servant)
    requires Inv(w) && Enabled(w, a) && a.Register? && s in w.refs
    ensures Do(w, a).refs[s] == Holders(Do(w, a), s)
  {
    hide Holding, DeletedOnce;
    if a.oid !in w.active {
      HoldingPut(w.active, a.oid, ServantEntry(a.servant, a.ttl, a.destroy, a.now), s);
    }
  }

  lemma PreinvokeKeepsCount(w: World, a: Act, s: Servant)
    requires Inv(w) && Enabled(w, a) && a.Preinvoke? && s in w.refs
    ensures Do(w, a).refs[s] == Holders(Do(w, a), s)
  {
    hide Holding, DeletedOnce;
    if a.oid in w.active {
      HoldingDrop(w.active, a.oid, s);
      HoldingTouch(w.active, a.oid, a.now, s);
    }
  }

  lemma DropKeepsCount(w: World, a: Act, s: Servant)
    requires Inv(w) && Enabled(w, a) && (a.Expire? || a.Untrack?) && s in w.refs
    ensures Do(w, a).refs[s] == Holders(Do(w, a), s)
  {
    hide Holding, DeletedOnce;
    HoldingDrop(w.active, a.oid, s);
  }

  lemma ReleaseKeepsCount(w: World, a: Act, s: Servant)
    requires Inv(w) && Enabled(w, a) && (a.Release? || a.Postinvoke?) && s in w.refs
    ensures Do(w, a).refs[s] == Holders(Do(w, a), s)
  {
    hide Holding, DeletedOnce;
  }

  lemma CreateKeepsCount(w: World, a: Act, s: Servant)
    requires Inv(w) && Enabled(w, a) && a.Create? && s in Do(w, a).refs
    ensures Do(w, a).refs[s] == Holders(Do(w, a), s)
  {
    hide Holding, DeletedOnce;
    NewIsNotHeld(w, a.servant);
  }

  lemma DoKeepsCount(w: World, a: Act, s: Servant)
    requires Inv(w) && Enabled(w, a) && s in Do(w, a).refs
    ensures Do(w, a).refs[s] == Holders(Do(w, a), s)
  {
    hide Do, Holders, DeletedOnce;
    match a
    case Create(_) => CreateKeepsCount(w, a, s);
    case Release(_) =>
      SameServants(w, a);
      ReleaseKeepsCount(w, a, s);
    case Register(_, _, _, _, _) =>
      SameServants(w, a);
      RegisterKeepsCount(w, a, s);
    case Preinvoke(_, _, _) =>
      SameServants(w, a);
      PreinvokeKeepsCount(w, a, s);
    case Postinvoke(_) =>
      SameServants(w, a);
      ReleaseKeepsCount(w, a, s);
    case Expire(_, _) =>
      SameServants(w, a);
      DropKeepsCount(w, a, s);
    case Untrack(_) =>
      SameServants(w, a);
      DropKeepsCount(w, a, s);
  }

  lemma SameServants(w: World, a: Act)
    requires Enabled(w, a) && !a.Create?
    ensures Do(w, a).refs.Keys == w.refs.Keys
  {
  }

  lemma NewIsNotHeld(w: World, s: Servant)
    requires Inv(w) && s !in w.refs
    ensures Holders(w, s) == 0 && |Holding(w.active, s)| == 0
  {
    assert Holding(w.active, s) == {};
  }

  lemma AddRefDeletes(w: World, s: Servant)
    requires DeletedOnce(w.refs, w.deleted) && s in w.refs && w.refs[s] > 0
    ensures DeletedOnce(AddRef(w.refs, s), w.deleted)
  {
  }

  lemma RemoveRefDeletes(w: World, s: Servant)
    requires DeletedOnce(w.refs, w.deleted) && s in w.refs && w.refs[s] > 0
    ensures DeletedOnce(RemoveRef(w.refs, s), Deleting(w, s)) && w.deleted <= Deleting(w, s)
  {
    var d := Deleting(w, s);
    if w.refs[s] == 1 {
      assert d[|w.deleted|] == s && s !in w.deleted;
    }
  }

  lemma CreateDeletes(w: World, s: Servant)
    requires DeletedOnce(w.refs, w.deleted) && s !in w.refs
    ensures DeletedOnce(w.refs[s := 1], w.deleted)
  {
  }

  /** A count reaches zero once and stays there. */
  lemma DoKeepsDeleted(w: World, a: Act)
    requires Inv(w) && Enabled(w, a)
    ensures DeletedOnce(Do(w, a).refs, Do(w, a).deleted) && w.deleted <= Do(w, a).deleted
  {
    hide Holding, Holders, DeletedOnce, AddRef, RemoveRef, Deleting;
    match a
    case Create(s) => CreateDeletes(w, s);
    case Release(s) =>
      HolderIsPositive(w, s);
      RemoveRefDeletes(w, s);
    case Register(_, s, _, _, _) =>
      HolderIsPositive(w, s);
      AddRefDeletes(w, s);
    case Preinvoke(oid, _, _) =>
      if oid in w.active {
        HolderIsPositive(w, w.active[oid].servant);
        AddRefDeletes(w, w.active[oid].servant);
      }
    case Postinvoke(s) =>
      HolderIsPositive(w, s);
      RemoveRefDeletes(w, s);
    case Expire(oid, _) =>
      HolderIsPositive(w, w.active[oid].servant);
      RemoveRefDeletes(w, w.active[oid].servant);
    case Untrack(oid) =>
      HolderIsPositive(w, w.active[oid].servant);
      RemoveRefDeletes(w, w.active[oid].servant);
  }

  lemma HolderExists(w: World, a: Act, s: Servant)
    requires HeldExist(w) && Enabled(w, a) && (s in Do(w, a).creators || s in Do(w, a).open)
    ensures s in Do(w, a).refs
  {
    if !a.Create? {
      SameServants(w, a);
    }
    hide Deleting, AddRef, RemoveRef;
  }

  lemma EntryExists(w: World, a: Act, oid: string)
    requires HeldExist(w) && Enabled(w, a) && oid in Do(w, a).active
    ensures Do(w, a).active[oid].servant in Do(w, a).refs
  {
    if !a.Create? {
      SameServants(w, a);
    }
    hide Deleting, AddRef, RemoveRef;
  }

  lemma DoKeepsHolders(w: World, a: Act)
    requires HeldExist(w) && Enabled(w, a)
    ensures HeldExist(Do(w, a))
  {
    hide Do;
    forall s | s in Do(w, a).creators || s in Do(w, a).open ensures s in Do(w, a).refs {
      HolderExists(w, a, s);
    }
    forall oid | oid in Do(w, a).active ensures Do(w, a).active[oid].servant in Do(w, a).refs {
      EntryExists(w, a, oid);
    }
  }

  lemma DoKeepsInv(w: World, a: Act)
    requires Inv(w) && Enabled(w, a)
    ensures Inv(Do(w, a)) && w.deleted <= Do(w, a).deleted
  {
    hide Do, Holders, DeletedOnce;
    forall s | s in Do(w, a).refs ensures Do(w, a).refs[s] == Holders(Do(w, a), s) {
      DoKeepsCount(w, a, s);
    }
    DoKeepsDeleted(w, a);
    DoKeepsHolders(w, a);
  }

  // ---------- every interleaving ----------

  const EMPTY_WORLD := World(map[], map[], multiset{}, multiset{}, [])

  ghost predicate Run(ws: seq<World>, acts: seq<Act>) {
    && |ws| == |acts| + 1 && ws[0] == EMPTY_WORLD
    && forall i :: 0 <= i < |acts| ==> Enabled(ws[i], acts[i]) && ws[i + 1] == Do(ws[i], acts[i])
  }

  lemma {:induction false} RunKeepsInv(ws: seq<World>, acts: seq<Act>, n: nat)
    requires Run(ws, acts) && n <= |acts|
    ensures Inv(ws[n])
  {
    if n > 0 {
      RunKeepsInv(ws, acts, n - 1);
      DoKeepsInv(ws[n - 1], acts[n - 1]);
    }
  }

  /** Whatever the interleaving, what is handed out is not deleted; a servant is deleted
      when its last holder is gone, and only once. */
  lemma NeverUsedAfterDeletion(ws: seq<World>, acts: seq<Act>, n: nat, s: Servant)
    requires Run(ws, acts) && n <= |acts| && s in ws[n].refs
    ensures s in ws[n].deleted <==>
      s !in ws[n].creators && s !in ws[n].open && forall oid :: oid in ws[n].active ==> ws[n].active[oid].servant != s
    ensures multiset(ws[n].deleted)[s] <= 1
  {
    RunKeepsInv(ws, acts, n);
    var w := ws[n];
    if s !in w.creators && s !in w.open && forall oid :: oid in w.active ==> w.active[oid].servant != s {
      assert Holding(w.active, s) == {};
    } else {
      HolderIsPositive(w, s);
    }
    OnceInSeq(w.deleted, s);
  }

  lemma {:induction false} OnceInSeq(d: seq<Servant>, s: Servant)
    requires forall i, j :: 0 <= i < j < |d| ==> d[i] != d[j]
    ensures multiset(d)[s] <= 1
  {
    if d != [] {
      var n := |d| - 1;
      assert d == d[..n] + [d[n]];
      OnceInSeq(d[..n], s);
    }
  }

  // ---------- what each step does ----------

  /** A registered object has the entry that was asked for, unless it was active before. */
  lemma RegisterDoes(w: World, oid: string, s: Servant, ttl: int, destroy: string, now: int)
    requires Enabled(w, Register(oid, s, ttl, destroy, now)) && Inv(w)
    ensures var w' := Do(w, Register(oid, s, ttl, destroy, now));
      if oid in w.active then w' == w
      else
        && oid in w'.active && w'.active - {oid} == w.active
        && var e := w'.active[oid];
        && e.servant == s && e.ttl == ttl && e.destroy == destroy && e.lastAccess == now
        && w'.refs[s] == w.refs[s] + 1 && w'.open == w.open && w'.creators == w.creators
  {
  }

  /** An invocation touches the entry, or, if it is the one that destroys, ends it; either way
      the servant is held by the invocation. */
  lemma PreinvokeDoes(w: World, oid: string, operation: string, now: int)
    requires Inv(w)
    ensures var w' := Do(w, Preinvoke(oid, operation, now));
      if oid !in w.active then w' == w
      else
        var e := w.active[oid];
        && w'.open == w.open + multiset{e.servant} && w'.creators == w.creators && w'.deleted == w.deleted
        && w'.active - {oid} == w.active - {oid}
        && (oid in w'.active <==> operation != e.destroy)
        && (oid in w'.active ==> w'.active[oid] == ServantEntry(e.servant, e.ttl, e.destroy, now))
  {
  }

  /** The other steps give up one reference of one holder. */
  lemma OthersDo(w: World, a: Act)
    requires Enabled(w, a) && !a.Register? && !a.Preinvoke?
    ensures var w' := Do(w, a);
      && (a.Create? ==> w'.creators == w.creators + multiset{a.servant} && w'.open == w.open && w'.active == w.active)
      && (a.Release? ==> w'.creators == w.creators - multiset{a.servant} && w'.open == w.open && w'.active == w.active)
      && (a.Postinvoke? ==> w'.open == w.open - multiset{a.servant} && w'.creators == w.creators && w'.active == w.active)
      && (a.Expire? || a.Untrack? ==> w'.active == w.active - {a.oid} && w'.open == w.open && w'.creators == w.creators)
  {
    hide RemoveRef, AddRef, Deleting;
  }

  // ---------- the class ----------

  /** What is left when all but the entries in todo have been looked at. */
  function Swept(active: map<string, ServantEntry>, clock: string -> int, todo: set<string>): map<string, ServantEntry> {
    map oid | oid in active && (oid in todo || !Expired(active[oid], clock(oid))) :: active[oid]
  }

  lemma SweptNone(active: map<string, ServantEntry>, clock: string -> int)
    ensures Swept(active, clock, active.Keys) == active
  {
  }

  lemma SweptAll(active: map<string, ServantEntry>, clock: string -> int)
    ensures forall oid :: oid in Swept(active, clock, {}) <==>
      oid in active && clock(oid) - active[oid].lastAccess <= active[oid].ttl
  {
  }

  lemma SweptOne(active: map<string, ServantEntry>, clock: string -> int, todo: set<string>, oid: string)
    requires oid in todo && todo <= active.Keys
    ensures var m := Swept(active, clock, todo);
      && oid in m && m[oid] == active[oid]
      && Swept(active, clock, todo - {oid}) == if Expired(m[oid], clock(oid)) then m - {oid} else m
  {
  }

  /** GCServantLocator. The servants' own counts are the field refs; `now` is the system
      time a method reads. */
  class GCServantLocator {
    var activeMap: map<string, ServantEntry>
    var refs: map<Servant, int>
    var deleted: seq<Servant>
    ghost var creators: multiset<Servant>
    ghost var open: multiset<Servant>

    ghost function View(): World
      reads this
    {
      World(activeMap, refs, creators, open, deleted)
    }

    constructor ()
      ensures View() == EMPTY_WORLD
    {
      activeMap, refs, deleted, creators, open := map[], map[], [], multiset{}, multiset{};
    }

    method RemoveReference(s: Servant)
      requires s in refs
      modifies this`refs, this`deleted
      ensures refs == RemoveRef(old(refs), s) && deleted == Deleting(old(View()), s)
    {
      refs := refs[s := refs[s] - 1];
      if refs[s] == 0 {
        deleted := deleted + [s];
      }
    }

    /** False if the object is already active. */
    method RegisterServant(oid: string, servant: Servant, ttl: int, destroy: string, now: int) returns (ok: bool)
      requires Inv(View()) && servant in creators
      modifies this
      ensures ok <==> oid !in old(activeMap)
      ensures Inv(View()) && View() == Do(old(View()), Register(oid, servant, ttl, destroy, now))
    {
      hide Inv;
      DoKeepsInv(View(), Register(oid, servant, ttl, destroy, now));
      HolderIsPositive(View(), servant);
      if oid in activeMap {
        return false;
      }
      activeMap, refs := activeMap[oid := ServantEntry(servant, ttl, destroy, now)], refs[servant := refs[servant] + 1];
      return true;
    }

    /** None if the object does not exist. What is handed out is alive, and has a reference
        for this invocation. */
    method PreInvoke(oid: string, operation: string, now: int) returns (servant: Option<Servant>)
      requires Inv(View())
      modifies this
      ensures servant == if oid in old(activeMap) then Some(old(activeMap)[oid].servant) else None
      ensures Inv(View()) && View() == Do(old(View()), Preinvoke(oid, operation, now))
      ensures servant.Some? ==> servant.value in open && servant.value !in deleted
    {
      hide Inv;
      DoKeepsInv(View(), Preinvoke(oid, operation, now));
      if oid !in activeMap {
        return None;
      }
      var e := activeMap[oid];
      HolderIsPositive(View(), e.servant);
      if e.destroy == operation {
        activeMap := activeMap - {oid};
      } else {
        refs := refs[e.servant := refs[e.servant] + 1];
        activeMap := activeMap[oid := e.(lastAccess := now)];
      }
      open := open + multiset{e.servant};
      HolderIsPositive(View(), e.servant);
      return Some(e.servant);
    }

    method PostInvoke(servant: Servant)
      requires Inv(View()) && servant in open
      modifies this
      ensures Inv(View()) && View() == Do(old(View()), Postinvoke(servant))
    {
      hide Inv;
      DoKeepsInv(View(), Postinvoke(servant));
      HolderIsPositive(View(), servant);
      RemoveReference(servant);
      open := open - multiset{servant};
    }

    method Untracked(oid: string)
      requires Inv(View()) && oid in activeMap
      modifies this
      ensures Inv(View()) && View() == Drop(old(View()), oid)
      ensures old(deleted) <= deleted && activeMap == old(activeMap) - {oid}
      ensures creators == old(creators) && open == old(open)
    {
      hide Inv;
      DoKeepsInv(View(), Untrack(oid));
      HolderIsPositive(View(), activeMap[oid].servant);
      RemoveReference(activeMap[oid].servant);
      activeMap := activeMap - {oid};
    }

    /** gc_sweep: exactly the entries whose age is more than their time to live are dropped.
        The clock is read for each entry. */
    method GcSweep(clock: string -> int)
      requires Inv(View())
      modifies this
      ensures Inv(View()) && creators == old(creators) && open == old(open) && old(deleted) <= deleted
      ensures activeMap == Swept(old(activeMap), clock, {})
      ensures forall oid :: oid in activeMap <==>
        oid in old(activeMap) && clock(oid) - old(activeMap)[oid].lastAccess <= old(activeMap)[oid].ttl
    {
      hide Inv, Swept, Drop;
      var todo := activeMap.Keys;
      SweptNone(activeMap, clock);
      while todo != {}
        invariant Inv(View()) && creators == old(creators) && open == old(open) && old(deleted) <= deleted
        invariant activeMap == Swept(old(activeMap), clock, todo) && todo <= old(activeMap).Keys
        decreases todo
      {
        var oid :| oid in todo;
        SweptOne(old(activeMap), clock, todo, oid);
        var age := clock(oid) - activeMap[oid].lastAccess;
        if age > activeMap[oid].ttl {
          Untracked(oid);
        }
        todo := todo - {oid};
      }
      SweptAll(old(activeMap), clock);
    }

    /** The destructor: when no invocation is open and no creator holds a reference, every
        servant there ever was is deleted afterwards. */
    method Destructor()
      requires Inv(View())
      modifies this
      ensures Inv(View()) && activeMap == map[] && creators == old(creators) && open == old(open)
      ensures creators == open == multiset{} ==> forall s :: s in refs ==> s in deleted
    {
      hide Drop;
      while activeMap != map[]
        invariant Inv(View()) && creators == old(creators) && open == old(open)
        decreases |activeMap|
      {
        var oid :| oid in activeMap;
        Untracked(oid);
      }
      if creators == open == multiset{} {
        forall s | s in refs ensures s in deleted {
          assert Holding(activeMap, s) == {};
        }
      }
    }
  }
}
