/** The dependency generator of the build: which files a source file includes, directly or
    through others. */
module MakeDeps {

  /** What one #include line comes to: it matches the exclude pattern, or is found in the
      search path, or is not, and is then taken for a generated file. */
  datatype Include = Excluded | Resolved(path: string) | Missing(name: string)

  /** The files that can be opened, with their #include lines. */
  type Graph = map<string, seq<Include>>

  /** found and visited are used as sets; the value is the file with the #include. */
  datatype State = State(found: map<string, string>, visited: map<string, string>)

  function ReadLine(s: State, inc: Include, fname: string): State {
    match inc
    case Excluded => s
    case Resolved(path) => if path in s.visited then s else s.(found := s.found[path := fname])
    case Missing(name) => s.(visited := s.visited[name := fname])
  }

  function ReadLines(s: State, incs: seq<Include>, fname: string): State {
    if incs == [] then s else ReadLine(ReadLines(s, incs[..|incs| - 1], fname), incs[|incs| - 1], fname)
  }

  /** The state when f is taken and not yet read. */
  function Taken(s: State, f: string): State
    requires f in s.found
  {
    State(s.found - {f}, s.visited[f := s.found[f]])
  }

  /** One round: a file that was found is visited and read. */
  function Visit(g: Graph, s: State, f: string): State
    requires f in s.found && f in g
  {
    ReadLines(Taken(s, f), g[f], f)
  }

  function Start(g: Graph, src: string): State
    requires src in g
  {
    ReadLines(State(map[], map[]), g[src], src)
  }

  // ---------- what should be visited ----------

  /** f is the source, or found by n includes in a row from it. */
  ghost predicate FoundIn(g: Graph, src: string, f: string, n: nat)
    decreases n
  {
    if n == 0 then f == src else exists m :: FoundIn(g, src, m, n - 1) && m in g && Resolved(f) in g[m]
  }

  ghost predicate IsFile(g: Graph, src: string, f: string) {
    exists n: nat :: FoundIn(g, src, f, n)
  }

  ghost predicate Edge(g: Graph, a: string, b: string) {
    a in g && (Resolved(b) in g[a] || Missing(b) in g[a])
  }

  /** f is included by the source, or by a file that is found from it. */
  ghost predicate Reach(g: Graph, src: string, f: string) {
    exists m :: IsFile(g, src, m) && Edge(g, m, f)
  }

  /** A file met from the source includes x, and x is not found from there. */
  ghost predicate NotFound(g: Graph, src: string, x: string) {
    exists a :: IsFile(g, src, a) && a in g && Missing(x) in g[a]
  }

  /** A file met from the source includes something that is found as x. */
  ghost predicate IsFound(g: Graph, src: string, x: string) {
    exists a :: IsFile(g, src, a) && a in g && Resolved(x) in g[a]
  }

  ghost predicate Disjoint(g: Graph, src: string) {
    forall x :: NotFound(g, src, x) ==> !IsFound(g, src, x)
  }

  lemma FoundNext(g: Graph, src: string, m: string, f: string)
    requires IsFile(g, src, m) && m in g && Resolved(f) in g[m]
    ensures IsFile(g, src, f)
  {
    var n: nat :| FoundIn(g, src, m, n);
    assert FoundIn(g, src, f, n + 1);
  }

  lemma SourceIsFile(g: Graph, src: string)
    ensures IsFile(g, src, src)
  {
    assert FoundIn(g, src, src, 0);
  }

  // ---------- one file's lines ----------

  ghost predicate Seen(s: State, f: string) {
    f in s.found || f in s.visited
  }

  ghost predicate AllSeen(s: State, incs: seq<Include>) {
    && (forall f :: Resolved(f) in incs ==> Seen(s, f))
    && (forall f :: Missing(f) in incs ==> Seen(s, f))
  }

  ghost predicate Grows(s: State, s': State) {
    && (forall f :: Seen(s, f) ==> Seen(s', f))
    && (forall f :: f in s.visited ==> f in s'.visited)
    && (forall f :: f in s'.found && f !in s.found ==> f !in s.visited)
  }

  /** Only what the lines say is added, noted with the file that they are in. */
  ghost predicate AddsOnly(s: State, s': State, incs: seq<Include>, fname: string) {
    && (forall f :: f in s'.found ==>
          (f in s.found && s'.found[f] == s.found[f]) || (Resolved(f) in incs && s'.found[f] == fname))
    && (forall f :: f in s'.visited ==>
          (f in s.visited && s'.visited[f] == s.visited[f]) || (Missing(f) in incs && s'.visited[f] == fname))
  }

  lemma ReadLineSees(s: State, inc: Include, fname: string)
    ensures Grows(s, ReadLine(s, inc, fname)) && AllSeen(ReadLine(s, inc, fname), [inc])
    ensures AddsOnly(s, ReadLine(s, inc, fname), [inc], fname)
  {
  }

  lemma {:induction false} ReadLinesSees(s: State, incs: seq<Include>, fname: string)
    ensures Grows(s, ReadLines(s, incs, fname)) && AllSeen(ReadLines(s, incs, fname), incs)
  {
    if incs != [] {
      hide ReadLine;
      var before, inc := incs[..|incs| - 1], incs[|incs| - 1];
      ReadLinesSees(s, before, fname);
      ReadLineSees(ReadLines(s, before, fname), inc, fname);
      assert incs == before + [inc];
    }
  }

  lemma {:induction false} ReadLinesAdds(s: State, incs: seq<Include>, fname: string)
    ensures AddsOnly(s, ReadLines(s, incs, fname), incs, fname)
  {
    if incs != [] {
      hide ReadLine;
      var before, inc := incs[..|incs| - 1], incs[|incs| - 1];
      ReadLinesAdds(s, before, fname);
      ReadLineSees(ReadLines(s, before, fname), inc, fname);
      assert incs == before + [inc];
    }
  }

  // ---------- the invariant ----------

  /** The files in `read` have been read: all they include is noted, and nothing else. */
  ghost predicate Inv(g: Graph, src: string, read: set<string>, s: State) {
    && src in read && AllRead(g, src, read, s) && FoundOk(g, read, s) && VisitedOk(g, read, s)
  }

  ghost predicate AllRead(g: Graph, src: string, read: set<string>, s: State) {
    forall r :: r in read ==> r in g && IsFile(g, src, r) && AllSeen(s, g[r])
  }

  ghost predicate FoundOk(g: Graph, read: set<string>, s: State) {
    forall f :: f in s.found ==> s.found[f] in read && s.found[f] in g && Resolved(f) in g[s.found[f]]
  }

  ghost predicate VisitedOk(g: Graph, read: set<string>, s: State) {
    forall f :: f in s.visited ==> s.visited[f] in read && Edge(g, s.visited[f], f) && (f in read || Unfound(g, read, f))
  }

  ghost predicate Unfound(g: Graph, read: set<string>, f: string) {
    exists r :: r in read && r in g && Missing(f) in g[r]
  }

  lemma StartIsOk(g: Graph, src: string)
    requires src in g
    ensures Inv(g, src, {src}, Start(g, src))
  {
    ReadLinesSees(State(map[], map[]), g[src], src);
    ReadLinesAdds(State(map[], map[]), g[src], src);
    SourceIsFile(g, src);
  }

  lemma AllSeenLater(s: State, s': State, incs: seq<Include>)
    requires AllSeen(s, incs) && forall f :: Seen(s, f) ==> Seen(s', f)
    ensures AllSeen(s', incs)
  {
  }

  lemma VisitIsOk(g: Graph, src: string, read: set<string>, s: State, f: string)
    requires Inv(g, src, read, s) && f in s.found && f in g
    ensures Inv(g, src, read + {f}, Visit(g, s, f))
  {
    VisitReads(g, src, read, s, f);
    VisitFinds(g, read, s, f);
    VisitVisits(g, read, s, f);
  }

  lemma VisitReads(g: Graph, src: string, read: set<string>, s: State, f: string)
    requires AllRead(g, src, read, s) && FoundOk(g, read, s) && f in s.found && f in g
    ensures AllRead(g, src, read + {f}, Visit(g, s, f))
  {
    hide ReadLines, AllSeen;
    ReadLinesSees(Taken(s, f), g[f], f);
    FoundNext(g, src, s.found[f], f);
    forall r | r in read ensures AllSeen(Visit(g, s, f), g[r]) {
      AllSeenLater(s, Visit(g, s, f), g[r]);
    }
  }

  lemma VisitFinds(g: Graph, read: set<string>, s: State, f: string)
    requires FoundOk(g, read, s) && f in s.found && f in g
    ensures FoundOk(g, read + {f}, Visit(g, s, f))
  {
    hide ReadLines;
    ReadLinesAdds(Taken(s, f), g[f], f);
  }

  lemma VisitVisits(g: Graph, read: set<string>, s: State, f: string)
    requires FoundOk(g, read, s) && VisitedOk(g, read, s) && f in s.found && f in g
    ensures VisitedOk(g, read + {f}, Visit(g, s, f))
  {
    hide ReadLines, Unfound;
    ReadLinesAdds(Taken(s, f), g[f], f);
    forall h ensures Unfound(g, read, h) || Missing(h) in g[f] ==> Unfound(g, read + {f}, h) {
      UnfoundNow(g, read, f, h);
    }
  }

  lemma UnfoundNow(g: Graph, read: set<string>, f: string, h: string)
    requires f in g
    ensures Unfound(g, read, h) || Missing(h) in g[f] ==> Unfound(g, read + {f}, h)
  {
    if r :| r in read && r in g && Missing(h) in g[r] {
      assert r in read + {f};
    } else if Missing(h) in g[f] {
      assert f in read + {f};
    }
  }

  // ---------- what is missed ----------

  /** v is taken for visited though it was never read, and includes something unseen. */
  ghost predicate Skipped(g: Graph, src: string, read: set<string>, s: State, v: string) {
    v in s.visited && v !in read && v in g && IsFile(g, src, v) && exists f :: Edge(g, v, f) && f !in s.visited
  }

  /** If nothing is skipped, then all that any file includes is visited. */
  lemma {:induction false} FilesCovered(g: Graph, src: string, read: set<string>, s: State, m: string, n: nat, f: string)
    requires Inv(g, src, read, s) && s.found == map[] && forall v :: !Skipped(g, src, read, s, v)
    requires FoundIn(g, src, m, n) && Edge(g, m, f)
    ensures f in s.visited
    decreases n
  {
    if m in read {
      assert Seen(s, f);
    } else {
      var m' :| FoundIn(g, src, m', n - 1) && m' in g && Resolved(m) in g[m'];
      FilesCovered(g, src, read, s, m', n - 1, m);
      assert IsFile(g, src, m);
      assert !Skipped(g, src, read, s, m);
    }
  }

  /** When it is over, something is missed if and only if a file was skipped. */
  lemma MissesIffSkipped(g: Graph, src: string, read: set<string>, s: State)
    requires Inv(g, src, read, s) && s.found == map[]
    ensures (exists f :: Reach(g, src, f) && f !in s.visited) <==> exists v :: Skipped(g, src, read, s, v)
  {
    if v :| Skipped(g, src, read, s, v) {
      var f :| Edge(g, v, f) && f !in s.visited;
      assert Reach(g, src, f);
    } else if f :| Reach(g, src, f) && f !in s.visited {
      var m :| IsFile(g, src, m) && Edge(g, m, f);
      var n: nat :| FoundIn(g, src, m, n);
      FilesCovered(g, src, read, s, m, n, f);
    }
  }

  lemma NoneSkipped(g: Graph, src: string, read: set<string>, s: State, v: string)
    requires Inv(g, src, read, s) && Disjoint(g, src)
    ensures !Skipped(g, src, read, s, v)
  {
    if v in s.visited && v !in read && IsFile(g, src, v) {
      UnfoundIsNotFound(g, src, read, s, v);
      FileIsFound(g, src, v);
      assert false;
    }
  }

  lemma UnfoundIsNotFound(g: Graph, src: string, read: set<string>, s: State, v: string)
    requires Inv(g, src, read, s) && v in s.visited && v !in read
    ensures NotFound(g, src, v)
  {
    var r :| r in read && r in g && Missing(v) in g[r];
    assert IsFile(g, src, r);
  }

  lemma FileIsFound(g: Graph, src: string, v: string)
    requires IsFile(g, src, v) && v != src
    ensures IsFound(g, src, v)
  {
    var n: nat :| FoundIn(g, src, v, n);
    var m :| FoundIn(g, src, m, n - 1) && m in g && Resolved(v) in g[m];
    assert IsFile(g, src, m);
  }

  lemma VisitedIsReach(g: Graph, src: string, read: set<string>, s: State)
    requires Inv(g, src, read, s)
    ensures forall f :: f in s.visited ==> Reach(g, src, f) && Edge(g, s.visited[f], f)
  {
    forall f | f in s.visited ensures Reach(g, src, f) {
      assert IsFile(g, src, s.visited[f]);
    }
  }

  // ---------- any order of visiting ----------

  ghost predicate Run(g: Graph, src: string, ss: seq<State>, picks: seq<string>) {
    && src in g && |ss| == |picks| + 1 && ss[0] == Start(g, src)
    && forall i :: 0 <= i < |picks| ==> picks[i] in ss[i].found && picks[i] in g && ss[i + 1] == Visit(g, ss[i], picks[i])
  }

  function ReadBy(src: string, picks: seq<string>): set<string> {
    {src} + set f | f in picks
  }

  lemma {:induction false} RunIsOk(g: Graph, src: string, ss: seq<State>, picks: seq<string>, n: nat)
    requires Run(g, src, ss, picks) && n <= |picks|
    ensures Inv(g, src, ReadBy(src, picks[..n]), ss[n])
  {
    hide Inv;
    if n == 0 {
      StartIsOk(g, src);
      assert ReadBy(src, picks[..0]) == {src};
    } else {
      RunIsOk(g, src, ss, picks, n - 1);
      VisitIsOk(g, src, ReadBy(src, picks[..n - 1]), ss[n - 1], picks[n - 1]);
      assert picks[..n] == picks[..n - 1] + [picks[n - 1]];
      assert ReadBy(src, picks[..n]) == ReadBy(src, picks[..n - 1]) + {picks[n - 1]};
    }
  }

  /** In whatever order the files are taken, what is visited in the end is included, and is
      noted with a file that includes it. */
  lemma VisitsOnlyIncluded(g: Graph, src: string, ss: seq<State>, picks: seq<string>, f: string)
    requires Run(g, src, ss, picks) && f in ss[|picks|].visited
    ensures Reach(g, src, f) && Edge(g, ss[|picks|].visited[f], f)
  {
    RunIsOk(g, src, ss, picks, |picks|);
    assert picks[..|picks|] == picks;
    VisitedIsReach(g, src, ReadBy(src, picks), ss[|picks|]);
  }

  /** A finished run misses something that is included if and only if it took a file for
      visited without reading it, and that file includes something unseen. */
  lemma RunMissesIff(g: Graph, src: string, ss: seq<State>, picks: seq<string>)
    requires Run(g, src, ss, picks) && ss[|picks|].found == map[]
    ensures (exists f :: Reach(g, src, f) && f !in ss[|picks|].visited)
       <==> exists v :: Skipped(g, src, ReadBy(src, picks), ss[|picks|], v)
  {
    RunIsOk(g, src, ss, picks, |picks|);
    assert picks[..|picks|] == picks;
    MissesIffSkipped(g, src, ReadBy(src, picks), ss[|picks|]);
  }

  /** If the names that are not found are no paths of files, what is visited is exactly what
      is included, cycles or not. */
  lemma VisitsWhatIsIncluded(g: Graph, src: string, ss: seq<State>, picks: seq<string>, f: string)
    requires Run(g, src, ss, picks) && ss[|picks|].found == map[] && Disjoint(g, src)
    ensures f in ss[|picks|].visited <==> Reach(g, src, f)
  {
    RunIsOk(g, src, ss, picks, |picks|);
    assert picks[..|picks|] == picks;
    if f in ss[|picks|].visited {
      VisitsOnlyIncluded(g, src, ss, picks, f);
    }
    forall v ensures !Skipped(g, src, ReadBy(src, picks), ss[|picks|], v) {
      NoneSkipped(g, src, ReadBy(src, picks), ss[|picks|], v);
    }
    RunMissesIff(g, src, ss, picks);
  }

  /** A file that is noted as missing before it is found is never read from then on: that is
      how files come to be skipped. */
  lemma {:induction false} NotedFirstIsNeverRead(g: Graph, src: string, ss: seq<State>, picks: seq<string>, i: nat, j: nat, f: string)
    requires Run(g, src, ss, picks) && i <= j <= |picks| && f in ss[i].visited && f !in ss[i].found
    ensures f in ss[j].visited && f !in ss[j].found && (j < |picks| ==> picks[j] != f)
  {
    if i < j {
      NotedFirstIsNeverRead(g, src, ss, picks, i, j - 1, f);
      var s, p := ss[j - 1], picks[j - 1];
      ReadLinesSees(Taken(s, p), g[p], p);
    }
  }

  /** Such a run: a name that is not found from the source's directory is the path of a file
      found from another one. */
  function Example(): Graph {
    map["a/m.c" := [Missing("s/x.h"), Resolved("y.h")], "y.h" := [Resolved("s/x.h")],
        "s/x.h" := [Resolved("z.h")], "z.h" := []]
  }

  const EXAMPLE_FIRST := State(map["y.h" := "a/m.c"], map["s/x.h" := "a/m.c"])
  const EXAMPLE_LAST := State(map[], map["s/x.h" := "a/m.c", "y.h" := "a/m.c"])

  lemma ExampleRuns()
    ensures Run(Example(), "a/m.c", [EXAMPLE_FIRST, EXAMPLE_LAST], ["y.h"])
  {
    var g := Example();
    var top, y := g["a/m.c"], g["y.h"];
    assert Start(g, "a/m.c") == EXAMPLE_FIRST by {
      assert top[..1] == [Missing("s/x.h")] && top[..1][..0] == [];
      assert ReadLines(State(map[], map[]), top[..1], "a/m.c") == State(map[], map["s/x.h" := "a/m.c"]);
    }
    assert Visit(g, EXAMPLE_FIRST, "y.h") == EXAMPLE_LAST by {
      assert y[..0] == [];
      assert EXAMPLE_FIRST.found - {"y.h"} == map[];
    }
  }

  lemma ExampleReaches()
    ensures Reach(Example(), "a/m.c", "z.h")
  {
    var g := Example();
    SourceIsFile(g, "a/m.c");
    assert Resolved("y.h") == g["a/m.c"][1] && Resolved("s/x.h") == g["y.h"][0] && Resolved("z.h") == g["s/x.h"][0];
    FoundNext(g, "a/m.c", "a/m.c", "y.h");
    FoundNext(g, "a/m.c", "y.h", "s/x.h");
    assert Edge(g, "s/x.h", "z.h");
  }

  /** The run is over, and has missed f. */
  ghost predicate Loses(g: Graph, src: string, ss: seq<State>, picks: seq<string>, f: string) {
    Run(g, src, ss, picks) && ss[|picks|].found == map[] && Reach(g, src, f) && f !in ss[|picks|].visited
  }

  lemma OverlapLoses()
    ensures exists g: Graph, ss: seq<State>, picks: seq<string> :: Loses(g, "a/m.c", ss, picks, "z.h")
  {
    hide Run, Reach, Example;
    ExampleRuns();
    ExampleReaches();
    assert Loses(Example(), "a/m.c", [EXAMPLE_FIRST, EXAMPLE_LAST], ["y.h"], "z.h");
  }

  // ---------- termination ----------

  ghost function Paths(g: Graph): set<string> {
    set f, i | f in g && 0 <= i < |g[f]| && g[f][i].Resolved? :: g[f][i].path
  }

  /** Visited, and not to be visited again. */
  function Settled(s: State): set<string> {
    s.visited.Keys - s.found.Keys
  }

  lemma {:induction false} ReadLinesFinds(g: Graph, s: State, fname: string, n: nat)
    requires fname in g && n <= |g[fname]| && s.found.Keys <= Paths(g)
    ensures ReadLines(s, g[fname][..n], fname).found.Keys <= Paths(g)
  {
    if n > 0 {
      assert g[fname][..n][..n - 1] == g[fname][..n - 1];
      ReadLinesFinds(g, s, fname, n - 1);
      assert g[fname][n - 1].Resolved? ==> g[fname][n - 1].path in Paths(g);
    }
  }

  /** Each round settles one more of the paths there are. */
  lemma VisitSettles(g: Graph, s: State, f: string)
    requires f in s.found && f in g && s.found.Keys <= Paths(g)
    ensures Visit(g, s, f).found.Keys <= Paths(g)
    ensures Paths(g) - Settled(Visit(g, s, f)) < Paths(g) - Settled(s)
  {
    var s0 := Taken(s, f);
    assert g[f][..|g[f]|] == g[f];
    ReadLinesFinds(g, s0, f, |g[f]|);
    ReadLinesSees(s0, g[f], f);
    assert f in Settled(Visit(g, s, f)) && f !in Settled(s);
    assert Settled(s) <= Settled(Visit(g, s, f));
  }

  // ---------- the class ----------

  /** The dictionaries of MakeDep. */
  class MakeDep {
    const g: Graph
    var found: map<string, string>
    var visited: map<string, string>

    ghost function View(): State
      reads this
    {
      State(found, visited)
    }

    constructor (g: Graph)
      ensures this.g == g
    {
      this.g := g;
    }

    /** False where the program exits because a file cannot be opened. */
    method ReadFile(fname: string) returns (ok: bool)
      modifies this
      ensures ok <==> fname in g
      ensures ok ==> View() == ReadLines(old(View()), g[fname], fname)
    {
      if fname !in g {
        return false;
      }
      var incs := g[fname];
      for i := 0 to |incs|
        invariant View() == ReadLines(old(View()), incs[..i], fname)
      {
        assert incs[..i + 1][..i] == incs[..i];
        match incs[i] {
        case Excluded =>
        case Resolved(incfile) =>
          if incfile !in visited {
            found := found[incfile := fname];
          }
        case Missing(name) =>
          visited := visited[name := fname];
        }
      }
      assert incs[..|incs|] == incs;
      return true;
    }

    /** process: afterwards only included files are visited, and all of them unless one was
        skipped; it fails only if the source file or one found from it cannot be opened. */
    method Process(src: string) returns (ok: bool, ghost read: set<string>)
      modifies this
      ensures ok ==> forall f :: f in visited ==> Reach(g, src, f) && Edge(g, visited[f], f)
      ensures ok ==>
        ((exists f :: Reach(g, src, f) && f !in visited) <==> exists v :: Skipped(g, src, read, View(), v))
      ensures ok && Disjoint(g, src) ==> forall f :: Reach(g, src, f) ==> f in visited
      ensures !ok ==> exists f :: IsFile(g, src, f) && f !in g
    {
      hide Inv, Reach, Skipped, Visit, Paths, Disjoint;
      found, visited, read := map[], map[], {src};
      ok := ReadFile(src);
      if !ok {
        SourceIsFile(g, src);
        return;
      }
      StartIsOk(g, src);
      StartFinds(g, src);
      while found != map[]
        invariant Inv(g, src, read, View()) && found.Keys <= Paths(g)
        decreases Paths(g) - Settled(View())
      {
        ghost var before := View();
        var fname :| fname in found;
        FoundIsFile(g, src, read, before, fname);
        visited := visited[fname := found[fname]];
        found := found - {fname};
        ok := ReadFile(fname);
        if !ok {
          return;
        }
        VisitIs(g, before, fname);
        VisitSettles(g, before, fname);
        VisitIsOk(g, src, read, before, fname);
        read := read + {fname};
      }
      Finished(g, src, read, View());
    }
  }

  lemma StartFinds(g: Graph, src: string)
    requires src in g
    ensures Start(g, src).found.Keys <= Paths(g)
  {
    assert g[src][..|g[src]|] == g[src];
    ReadLinesFinds(g, State(map[], map[]), src, |g[src]|);
  }

  lemma VisitIs(g: Graph, s: State, f: string)
    requires f in s.found && f in g
    ensures Visit(g, s, f) == ReadLines(Taken(s, f), g[f], f)
  {
  }

  lemma FoundIsFile(g: Graph, src: string, read: set<string>, s: State, f: string)
    requires Inv(g, src, read, s) && f in s.found
    ensures IsFile(g, src, f)
  {
    FoundNext(g, src, s.found[f], f);
  }

  lemma Finished(g: Graph, src: string, read: set<string>, s: State)
    requires Inv(g, src, read, s) && s.found == map[]
    ensures forall f :: f in s.visited ==> Reach(g, src, f) && Edge(g, s.visited[f], f)
    ensures (exists f :: Reach(g, src, f) && f !in s.visited) <==> exists v :: Skipped(g, src, read, s, v)
    ensures Disjoint(g, src) ==> forall f :: Reach(g, src, f) ==> f in s.visited
  {
    hide Inv, Skipped, Reach, Disjoint;
    VisitedIsReach(g, src, read, s);
    MissesIffSkipped(g, src, read, s);
    if Disjoint(g, src) {
      forall v ensures !Skipped(g, src, read, s, v) {
        NoneSkipped(g, src, read, s, v);
      }
    }
  }
}
