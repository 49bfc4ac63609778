/** The checkpoint of the log: the files, the two-phase swap of names, and what a crash
    at any step leaves behind. */
module Checkpoint {
  import opened PersistTree
  import opened PersistFormat
  import opened EventLog
  import opened ServerRuns
  import opened Wrappers

  datatype FileName = Active | Backup | Ckp

  /** A directory of hard links, and what each file holds. */
  datatype Disk = Disk(names: map<FileName, nat>, data: map<nat, string>)

  /** The steps of one pass through the checkpoint loop, named by what was done last. */
  datatype Phase =
    | Idle
    | Writing        // the checkpoint file is open, holding a part of the snapshot
    | Written        // it holds the whole snapshot and is closed
    | StreamClosed
    | BackupGone
    | BackupLinked
    | ActiveGone
    | ActiveLinked
    | CkpGone
    | Stopped        // exit(1)

  datatype Srv = Srv(live: Live, disk: Disk, out: nat, phase: Phase, needed: bool, goal: string)

  datatype Act =
    | Log(e: Event)            // one change and its records, under the lock
    | OpenFails                // the checkpoint file cannot be opened, and its name is removed
    | Begin(plan: Plan, ino: nat)
    | Write(n: nat)            // n characters of the snapshot are in the file
    | Abandon                  // an I/O error while preparing
    | Next                     // the next system call succeeds
    | Fail                     // the next system call fails
    | Reboot(plan: Plan)       // the server died here and is started again

  ghost function Snapshot(live: Live, plan: Plan): string
    requires Walks(plan, live)
  {
    LogText(SnapshotLog(live, plan)) + "\n"
  }

  function Unlink(d: Disk, f: FileName): Disk {
    d.(names := d.names - {f})
  }

  function Link(d: Disk, from: FileName, to: FileName): Disk
    requires from in d.names
  {
    d.(names := d.names[to := d.names[from]])
  }

  /** Opening the checkpoint file with truncation: whatever file has the name loses its
      contents, and a file is made if none has it. */
  function OpenCkp(d: Disk, ino: nat): Disk {
    if Ckp in d.names then d.(data := d.data[d.names[Ckp] := ""])
    else Disk(d.names[Ckp := ino], d.data[ino := ""])
  }

  /** Is the step possible here? */
  ghost predicate Enabled(s: Srv, a: Act) {
    match a
    case Log(e) => s.phase == Idle && s.out in s.disk.data && SafeEvent(e) && !e.Checkpoint? && !e.Restart?
    case OpenFails => s.phase == Idle && s.needed
    case Begin(plan, ino) => s.phase == Idle && s.needed && Fits(plan, s.live) && ino !in s.disk.data
    case Write(n) => s.phase == Writing && Ckp in s.disk.names && n <= |s.goal|
    case Abandon => s.phase == Writing
    case Next =>
      (match s.phase
       case Writing => Ckp in s.disk.names && s.disk.names[Ckp] in s.disk.data && s.disk.data[s.disk.names[Ckp]] == s.goal
       case BackupGone => Backup !in s.disk.names && Active in s.disk.names
       case ActiveGone => Active !in s.disk.names && Ckp in s.disk.names
       case CkpGone => Active in s.disk.names
       case Idle => false
       case Stopped => false
       case _ => true)
    case Fail => s.phase in {StreamClosed, BackupGone, BackupLinked, ActiveGone, ActiveLinked, CkpGone}
    case Reboot(plan) =>
      && Active in s.disk.names && s.disk.names[Active] in s.disk.data && !Aliased(s.disk)
      && Fits(plan, Recover(Parse(s.disk.data[s.disk.names[Active]])))
  }

  ghost function Do(s: Srv, a: Act): Srv
    requires Enabled(s, a)
  {
    var d := s.disk;
    match a
    case Log(e) =>
      var r := Step(Server(s.live, d.data[s.out]), e);
      s.(live := r.live, disk := d.(data := d.data[s.out := r.text]), needed := s.needed || r.text != d.data[s.out])
    case OpenFails => s.(disk := Unlink(d, Ckp))
    case Begin(plan, ino) => s.(disk := OpenCkp(d, ino), phase := Writing, goal := Snapshot(s.live, plan))
    case Write(n) => s.(disk := d.(data := d.data[d.names[Ckp] := s.goal[..n]]))
    case Abandon => s.(disk := Unlink(d, Ckp), phase := Idle)
    case Next =>
      (match s.phase
       case Writing => s.(phase := Written)
       case Written => s.(phase := StreamClosed)
       case StreamClosed => s.(disk := Unlink(d, Backup), phase := BackupGone)
       case BackupGone => s.(disk := Link(d, Active, Backup), phase := BackupLinked)
       case BackupLinked => s.(disk := Unlink(d, Active), phase := ActiveGone)
       case ActiveGone => s.(disk := Link(d, Ckp, Active), phase := ActiveLinked)
       case ActiveLinked => s.(disk := Unlink(d, Ckp), phase := CkpGone)
       case CkpGone => s.(out := d.names[Active], phase := Idle, needed := false)
       case _ => s)
    case Fail =>
      // The result of unlink(backup) is not looked at; every other failure exits.
      if s.phase == StreamClosed then s.(phase := BackupGone) else s.(phase := Stopped)
    case Reboot(plan) => Rebooted(s.live, d, plan)
  }

  /** The server started again on these files. */
  ghost function Rebooted(live: Live, d: Disk, plan: Plan): Srv
    requires Active in d.names && d.names[Active] in d.data
  {
    var out := d.names[Active];
    var r := Step(Server(live, d.data[out]), Restart(plan));
    Srv(r.live, d.(data := d.data[out := r.text]), out, Idle, true, "")
  }

  // ---------- what is safe ----------

  /** The checkpoint name is a second name of the active file. */
  predicate Aliased(d: Disk) {
    Active in d.names && Ckp in d.names && d.names[Active] == d.names[Ckp]
  }

  ghost predicate Holds(d: Disk, f: FileName, live: Live) {
    f in d.names && d.names[f] in d.data && Inv(Server(live, d.data[d.names[f]]))
  }

  /** The state survives: in the active file, or in the backup while there is no active file. */
  ghost predicate Safe(d: Disk, live: Live) {
    if Active in d.names then Holds(d, Active, live) else Holds(d, Backup, live)
  }

  /** What main does with the files it finds. */
  datatype Start = Recovered(live: Live) | Invalid | Refused | Bootstrapped

  function StartUp(d: Disk): Start {
    if Active in d.names && d.names[Active] in d.data then
      var t := Parse(d.data[d.names[Active]]);
      if "ecf" !in t.child || AttrLong(t.child["ecf"].attr, "port", -1) <= 0 then Invalid
      else Recovered(Recover(t))
    else if Backup in d.names then Refused
    else Bootstrapped
  }

  /** A server that has parsed its file and opened it for appending. */
  ghost predicate Started(s: Srv) {
    && s.phase == Idle && s.needed
    && Holds(s.disk, Active, s.live) && s.out == s.disk.names[Active]
    && (forall f :: f in s.disk.names ==> s.disk.names[f] in s.disk.data)
  }

  // ---------- the invariant ----------

  ghost predicate CkpHolds(s: Srv) {
    && Ckp in s.disk.names && s.disk.names[Ckp] in s.disk.data && s.disk.data[s.disk.names[Ckp]] == s.goal && Inv(Server(s.live, s.goal))
  }

  ghost predicate Good(s: Srv) {
    && (forall f :: f in s.disk.names ==> s.disk.names[f] in s.disk.data)
    && Safe(s.disk, s.live)
    && (s.phase !in {ActiveLinked, Stopped} ==> !Aliased(s.disk))
    && (s.phase == Idle ==>
          Active in s.disk.names && s.out == s.disk.names[Active] && (!s.needed ==> s.disk.data[s.out] == s.goal))
    && (s.phase == Writing ==>
          s.needed && Active in s.disk.names && s.out == s.disk.names[Active] && Ckp in s.disk.names && s.disk.data[s.disk.names[Ckp]] <= s.goal && Inv(Server(s.live, s.goal)))
    && (s.phase in {Written, StreamClosed, BackupGone, BackupLinked} ==> Active in s.disk.names && CkpHolds(s))
    && (s.phase == BackupLinked ==> Backup in s.disk.names && s.disk.names[Backup] == s.disk.names[Active])
    && (s.phase == ActiveGone ==> Active !in s.disk.names && CkpHolds(s))
    && (s.phase in {ActiveLinked, CkpGone} ==>
          Active in s.disk.names && s.disk.data[s.disk.names[Active]] == s.goal)
  }

  lemma StartedGood(s: Srv)
    requires Started(s) && !Aliased(s.disk)
    ensures Good(s)
  {}

  lemma LogKeepsGood(s: Srv, e: Event)
    requires Good(s) && Enabled(s, Log(e))
    ensures Good(Do(s, Log(e)))
  {
    StepKeepsInv(Server(s.live, s.disk.data[s.out]), e);
  }

  lemma RebootKeepsGood(s: Srv, plan: Plan)
    requires Good(s) && Enabled(s, Reboot(plan))
    ensures Good(Do(s, Reboot(plan)))
  {
    StepKeepsInv(Server(s.live, s.disk.data[s.disk.names[Active]]), Restart(plan));
  }

  lemma BeginKeepsGood(s: Srv, plan: Plan, ino: nat)
    requires Good(s) && Enabled(s, Begin(plan, ino))
    ensures Good(Do(s, Begin(plan, ino)))
  {
    hide Represents, Replays, SafeLog;
    CheckpointStarts(s.live, plan);
  }

  lemma DoKeepsGood(s: Srv, a: Act)
    requires Good(s) && Enabled(s, a)
    ensures Good(Do(s, a))
  {
    match a
    case Log(e) => LogKeepsGood(s, e);
    case Begin(plan, ino) => BeginKeepsGood(s, plan, ino);
    case Reboot(plan) => RebootKeepsGood(s, plan);
    case Next => NextKeepsGood(s);
    case _ =>
  }

  lemma NextKeepsGood(s: Srv)
    requires Good(s) && Enabled(s, Next)
    ensures Good(Do(s, Next))
  {}

  // ---------- runs ----------

  ghost predicate Run(ss: seq<Srv>, acts: seq<Act>) {
    && |ss| == |acts| + 1
    && forall i :: 0 <= i < |acts| ==> Enabled(ss[i], acts[i]) && ss[i + 1] == Do(ss[i], acts[i])
  }

  lemma {:induction false} RunGood(ss: seq<Srv>, acts: seq<Act>, i: nat)
    requires Run(ss, acts) && Good(ss[0]) && i <= |acts|
    ensures Good(ss[i])
  {
    if i != 0 {
      RunGood(ss, acts, i - 1);
      DoKeepsGood(ss[i - 1], acts[i - 1]);
    }
  }

  /** Wherever a run is cut off, the state is in the active file or, while there is none,
      in the backup. Starting the server then recovers all that was printed of it, or
      refuses to start. It never takes a broken file and never starts from nothing. */
  lemma CrashIsSafe(ss: seq<Srv>, acts: seq<Act>, i: nat)
    requires Run(ss, acts) && Started(ss[0]) && !Aliased(ss[0].disk) && i <= |acts|
    ensures Safe(ss[i].disk, ss[i].live)
    ensures StartUp(ss[i].disk) == (if Active in ss[i].disk.names then Recovered(Reloaded(ss[i].live)) else Refused)
  {
    StartedGood(ss[0]);
    RunGood(ss, acts, i);
    if Active in ss[i].disk.names {
      var t := Parse(ss[i].disk.data[ss[i].disk.names[Active]]);
      RecoverExact(t, ss[i].live);
      RecoverEcf(t, ss[i].live);
      SubAt(t, ECF);
      assert ECF[1..] == [];
    }
  }

  /** When no checkpoint is needed, the file is still the last snapshot: nothing was
      appended to it. */
  lemma NotNeededMeansUnchanged(ss: seq<Srv>, acts: seq<Act>, i: nat)
    requires Run(ss, acts) && Started(ss[0]) && !Aliased(ss[0].disk) && i <= |acts|
    requires ss[i].phase == Idle && !ss[i].needed
    ensures Holds(ss[i].disk, Active, ss[i].live) && ss[i].disk.data[ss[i].disk.names[Active]] == ss[i].goal
  {
    StartedGood(ss[0]);
    RunGood(ss, acts, i);
  }

  /** The checkpoint name can only be left on the active file by dying, or failing,
      between the last two calls of the swap. */
  lemma AliasOnlyWhileLinked(ss: seq<Srv>, acts: seq<Act>, i: nat)
    requires Run(ss, acts) && Started(ss[0]) && !Aliased(ss[0].disk) && i <= |acts|
    requires Aliased(ss[i].disk)
    ensures ss[i].phase == ActiveLinked || ss[i].phase == Stopped
  {
    StartedGood(ss[0]);
    RunGood(ss, acts, i);
  }

  /** And dying there does leave it: whenever the swap has linked the new file, the name is
      on the active file, and a server started again on these files has it too. */
  lemma DyingLeavesAlias(s: Srv, plan: Plan)
    requires Good(s) && s.phase == ActiveGone && Enabled(s, Next)
    requires Fits(plan, Recover(Parse(s.goal)))
    ensures var d := Do(s, Next).disk;
      && Active in d.names && d.names[Active] in d.data && Aliased(d)
      && Started(Rebooted(s.live, d, plan)) && Aliased(Rebooted(s.live, d, plan).disk)
  {
    DoKeepsGood(s, Next);
    StepKeepsInv(Server(s.live, s.goal), Restart(plan));
  }

  /** One more call succeeds. */
  lemma OneCall(ss: seq<Srv>, acts: seq<Act>) returns (ss': seq<Srv>, acts': seq<Act>)
    requires Run(ss, acts) && Good(ss[|acts|]) && Enabled(ss[|acts|], Next)
    ensures Run(ss', acts') && ss'[0] == ss[0] && Good(ss'[|acts'|]) && ss'[|acts'|] == Do(ss[|acts|], Next)
  {
    RunSnoc(ss, acts, Next);
    ss', acts' := ss + [Do(ss[|acts|], Next)], acts + [Next];
  }

  /** A started server can write its checkpoint file. */
  lemma WritesCkp(s: Srv) returns (ss: seq<Srv>, acts: seq<Act>)
    requires Started(s) && !Aliased(s.disk)
    ensures Run(ss, acts) && ss[0] == s && Good(ss[|acts|]) && ss[|acts|].phase == Writing
    ensures Enabled(ss[|acts|], Next)
  {
    StartedGood(s);
    PlanExists(s.live);
    var plan: Plan :| Fits(plan, s.live);
    FreshInode(s.disk.data.Keys);
    var ino :| Above(ino, s.disk.data.Keys);
    var a := Begin(plan, ino);
    RunSnoc([s], [], a);
    var s1 := Do(s, a);
    RunSnoc([s] + [s1], [] + [a], Write(|s1.goal|));
    ss, acts := [s] + [s1] + [Do(s1, Write(|s1.goal|))], [] + [a] + [Write(|s1.goal|)];
    assert s1.goal[..|s1.goal|] == s1.goal;
  }

  lemma ClosesFiles(s: Srv) returns (ss: seq<Srv>, acts: seq<Act>)
    requires Started(s) && !Aliased(s.disk)
    ensures Run(ss, acts) && ss[0] == s && Good(ss[|acts|]) && ss[|acts|].phase == StreamClosed
  {
    ss, acts := WritesCkp(s);
    ss, acts := OneCall(ss, acts);
    ss, acts := OneCall(ss, acts);
  }

  lemma MovesActive(s: Srv) returns (ss: seq<Srv>, acts: seq<Act>)
    requires Started(s) && !Aliased(s.disk)
    ensures Run(ss, acts) && ss[0] == s && Good(ss[|acts|]) && ss[|acts|].phase == ActiveGone
  {
    ss, acts := ClosesFiles(s);
    ss, acts := OneCall(ss, acts);
    ss, acts := OneCall(ss, acts);
    ss, acts := OneCall(ss, acts);
  }

  /** From every safe start there is a run at whose end dying leaves the alias. */
  lemma AliasArises(s: Srv)
    requires Started(s) && !Aliased(s.disk)
    ensures exists ss: seq<Srv>, acts: seq<Act> :: Run(ss, acts) && ss[0] == s && Aliased(ss[|acts|].disk)
  {
    var ss, acts := MovesActive(s);
    ss, acts := OneCall(ss, acts);
  }

  // ---------- what a swap leaves ----------

  /** The checkpoint that began in s0 has come as far as s: the file with number c holds a
      part of the snapshot or all of it, no other file has changed, and the names are as the
      calls so far have left them. */
  ghost predicate Underway(s0: Srv, c: nat, s: Srv) {
    && Active in s0.disk.names && c != s0.disk.names[Active] && s.live == s0.live
    && s.disk.data.Keys == s0.disk.data.Keys + {c}
    && (forall f :: f in s0.disk.data && f != c ==> s.disk.data[f] == s0.disk.data[f])
    && (s.phase != Writing ==> s.disk.data[c] == s.goal)
    && NamesAt(s0.disk.names, c, s.phase, s.disk.names)
  }

  /** These files have the names, and no other. */
  predicate Named(names: map<FileName, nat>, active: Option<nat>, backup: Option<nat>, ckp: Option<nat>) {
    File(names, Active) == active && File(names, Backup) == backup && File(names, Ckp) == ckp
  }

  function File(names: map<FileName, nat>, f: FileName): Option<nat> {
    if f in names then Some(names[f]) else None
  }

  predicate NamesAt(was: map<FileName, nat>, c: nat, phase: Phase, names: map<FileName, nat>)
    requires Active in was
  {
    var a := Some(was[Active]);
    match phase
    case Writing => Named(names, a, File(was, Backup), Some(c))
    case Written => Named(names, a, File(was, Backup), Some(c))
    case StreamClosed => Named(names, a, File(was, Backup), Some(c))
    case BackupGone => Named(names, a, File(was, Backup), Some(c)) || Named(names, a, None, Some(c))
    case BackupLinked => Named(names, a, a, Some(c))
    case ActiveGone => Named(names, None, a, Some(c))
    case ActiveLinked => Named(names, Some(c), a, Some(c))
    case CkpGone => Named(names, Some(c), a, None)
    case Idle => Named(names, Some(c), a, None)
    case Stopped => true
  }

  /** The file that the checkpoint is written to. */
  function CkpFile(d: Disk, ino: nat): nat {
    if Ckp in d.names then d.names[Ckp] else ino
  }

  lemma BeginsUnderway(s: Srv, plan: Plan, ino: nat)
    requires Good(s) && Enabled(s, Begin(plan, ino))
    ensures Underway(s, CkpFile(s.disk, ino), Do(s, Begin(plan, ino)))
    ensures Do(s, Begin(plan, ino)).goal == LogText(SnapshotLog(s.live, plan)) + "\n"
  {
  }

  lemma CallStaysUnderway(s0: Srv, c: nat, s: Srv, a: Act)
    requires Underway(s0, c, s) && Enabled(s, a)
    requires s.phase != Idle && s.phase != Stopped && (s.phase == Writing || a == Next || a == Fail)
    requires a.Write? || a == Next || a == Fail
    ensures Do(s, a).phase != Stopped ==> Underway(s0, c, Do(s, a)) && Do(s, a).goal == s.goal
    ensures Do(s, a).phase == Idle ==> s.phase == CkpGone && !Do(s, a).needed && Do(s, a).out == c
  {
  }

  /** From the start of a checkpoint on, the acts are calls that do not stop the server. */
  ghost predicate Calls(ss: seq<Srv>, acts: seq<Act>, j: nat, i: nat)
    requires |ss| == |acts| + 1 && j < i <= |acts|
  {
    && acts[j].Begin? && forall k :: j < k < i ==>
      (acts[k].Write? || acts[k] == Next || acts[k] == Fail) && ss[k].phase != Idle && ss[k].phase != Stopped
  }

  lemma {:induction false} RunUnderway(ss: seq<Srv>, acts: seq<Act>, j: nat, i: nat)
    requires Run(ss, acts) && Started(ss[0]) && !Aliased(ss[0].disk) && j < i <= |acts|
    requires Calls(ss, acts, j, i) && ss[i].phase != Stopped
    ensures Underway(ss[j], CkpFile(ss[j].disk, acts[j].ino), ss[i])
    ensures ss[i].goal == LogText(SnapshotLog(ss[j].live, acts[j].plan)) + "\n"
  {
    hide Started, Underway, Aliased, Do, Enabled, Good, CkpFile, SnapshotLog, LogText;
    if i == j + 1 {
      StartedGood(ss[0]);
      RunGood(ss, acts, j);
      OneBegins(ss, acts, j);
    } else {
      RunUnderway(ss, acts, j, i - 1);
      OneCallMore(ss, acts, j, i);
    }
  }

  lemma OneBegins(ss: seq<Srv>, acts: seq<Act>, j: nat)
    requires Run(ss, acts) && j < |acts| && acts[j].Begin? && Good(ss[j])
    ensures Underway(ss[j], CkpFile(ss[j].disk, acts[j].ino), ss[j + 1])
    ensures Walks(acts[j].plan, ss[j].live) && ss[j + 1].goal == LogText(SnapshotLog(ss[j].live, acts[j].plan)) + "\n"
  {
    hide Underway, Do, Good;
    BeginsUnderway(ss[j], acts[j].plan, acts[j].ino);
  }

  lemma OneCallMore(ss: seq<Srv>, acts: seq<Act>, j: nat, i: nat)
    requires Run(ss, acts) && j + 1 < i <= |acts| && Calls(ss, acts, j, i) && ss[i].phase != Stopped
    requires Underway(ss[j], CkpFile(ss[j].disk, acts[j].ino), ss[i - 1])
    ensures Underway(ss[j], CkpFile(ss[j].disk, acts[j].ino), ss[i]) && ss[i].goal == ss[i - 1].goal
  {
    hide Underway, Do, CkpFile;
    CallStaysUnderway(ss[j], CkpFile(ss[j].disk, acts[j].ino), ss[i - 1], acts[i - 1]);
  }

  /** After every completed checkpoint the backup is the log as it stood when that checkpoint
      began, the active file holds the snapshot of that moment, there is no third name, and no
      other file has changed. */
  lemma SwapLeaves(ss: seq<Srv>, acts: seq<Act>, j: nat, i: nat)
    requires Run(ss, acts) && Started(ss[0]) && !Aliased(ss[0].disk) && j < i <= |acts|
    requires Calls(ss, acts, j, i) && ss[i].phase == Idle
    ensures var was, d, c := ss[j].disk, ss[i].disk, CkpFile(ss[j].disk, acts[j].ino);
      && Active in was.names && was.names[Active] in was.data && was.names[Active] in d.data && c in d.data
      && Named(d.names, Some(c), Some(was.names[Active]), None) && c != was.names[Active]
      && d.data[d.names[Backup]] == was.data[was.names[Active]]
      && d.data[d.names[Active]] == LogText(SnapshotLog(ss[j].live, acts[j].plan)) + "\n"
      && (forall f :: f in was.data && f != c ==> f in d.data && d.data[f] == was.data[f])
    ensures ss[i].live == ss[j].live && ss[i].out == ss[i].disk.names[Active] && !ss[i].needed
  {
    StartedGood(ss[0]);
    RunGood(ss, acts, j);
    RunGood(ss, acts, i);
    RunUnderway(ss, acts, j, i);
    CompletedLast(ss, acts, j, i);
  }

  lemma CompletedLast(ss: seq<Srv>, acts: seq<Act>, j: nat, i: nat)
    requires Run(ss, acts) && Started(ss[0]) && !Aliased(ss[0].disk) && j < i <= |acts|
    requires Calls(ss, acts, j, i) && ss[i].phase == Idle
    ensures !ss[i].needed
  {
    hide Started, Underway, Aliased, Good, Do, Enabled, CkpFile, SnapshotLog, LogText;
    if i > j + 1 {
      RunUnderway(ss, acts, j, i - 1);
      LastCall(ss, acts, j, i);
    } else {
      BeginIsBusy(ss, acts, j);
    }
  }

  lemma BeginIsBusy(ss: seq<Srv>, acts: seq<Act>, j: nat)
    requires Run(ss, acts) && j < |acts| && acts[j].Begin?
    ensures ss[j + 1].phase != Idle
  {
    assert Enabled(ss[j], acts[j]);
    hide SnapshotLog, LogText;
  }

  lemma LastCall(ss: seq<Srv>, acts: seq<Act>, j: nat, i: nat)
    requires Run(ss, acts) && j + 1 < i <= |acts| && Calls(ss, acts, j, i) && ss[i].phase == Idle
    requires Underway(ss[j], CkpFile(ss[j].disk, acts[j].ino), ss[i - 1])
    ensures !ss[i].needed
  {
    hide Underway, Do, CkpFile;
    CallStaysUnderway(ss[j], CkpFile(ss[j].disk, acts[j].ino), ss[i - 1], acts[i - 1]);
  }

  /** Preparing that fails takes the checkpoint name away, and leaves everything else as it was:
      the next pass tries again. */
  lemma PreparingFails(s: Srv, a: Act)
    requires Enabled(s, a) && (a == Abandon || a == OpenFails)
    ensures var s' := Do(s, a);
      && Named(s'.disk.names, File(s.disk.names, Active), File(s.disk.names, Backup), None)
      && s'.disk.data == s.disk.data && s'.live == s.live && s'.out == s.out && s'.needed == s.needed && s'.phase == Idle
  {
  }

  /** A failing call of the swap ends the process with the files as they are, but for the
      removal of the backup, which may fail. */
  lemma SwapFails(s: Srv)
    requires Enabled(s, Fail)
    ensures var s' := Do(s, Fail);
      && s'.disk == s.disk && s'.live == s.live
      && s'.phase == if s.phase == StreamClosed then BackupGone else Stopped
  {
  }

  /** An event is logged to the file that is open for it and to no other, and asks for a
      checkpoint if it has written anything. */
  lemma LogDoes(s: Srv, e: Event)
    requires Enabled(s, Log(e))
    ensures var s', r := Do(s, Log(e)), Step(Server(s.live, s.disk.data[s.out]), e);
      && s'.live == r.live && s'.disk.names == s.disk.names && s'.disk.data == s.disk.data[s.out := r.text]
      && (s'.needed <==> s.needed || r.text != s.disk.data[s.out]) && s'.phase == s.phase && s'.out == s.out
  {
    hide Step;
  }

  /** What start-up does, case by case: it takes the active file if it is a log of a factory
      with a port, it refuses to start from a backup alone, and it makes a new state if and
      only if there is neither. */
  lemma StartUpIs(d: Disk)
    requires forall f :: f in d.names ==> d.names[f] in d.data
    ensures StartUp(d) == Bootstrapped <==> Active !in d.names && Backup !in d.names
    ensures StartUp(d) == Refused <==> Active !in d.names && Backup in d.names
    ensures Active in d.names ==>
      var port := Lookup(Parse(d.data[d.names[Active]]), ["ecf"]);
      if port.Some? && "port" in port.value && Atol(port.value["port"]) > 0
      then StartUp(d) == Recovered(Recover(Parse(d.data[d.names[Active]])))
      else StartUp(d) == Invalid
  {
    if Active in d.names {
      LookupChild(Parse(d.data[d.names[Active]]), "ecf", []);
      assert ["ecf"] + [] == ["ecf"];
    }
  }

  // ---------- exactly when it is safe ----------

  ghost predicate Lists(ks: seq<Key>, s: set<Key>) {
    forall k :: k in ks <==> k in s
  }

  lemma {:induction false} KeysListed(s: set<Key>)
    ensures exists ks :: Lists(ks, s)
    decreases |s|
  {
    if s == {} {
      assert Lists([], s);
    } else {
      var k :| k in s;
      KeysListed(s - {k});
      var ks :| Lists(ks, s - {k});
      assert Lists(ks + [k], s);
    }
  }

  lemma {:induction false} PlanListed(live: Live, chs: set<string>)
    requires chs <= live.channels.Keys
    ensures exists plan: Plan :: Walks(plan, live) && forall ch :: ch in chs ==> Visits(plan, ch)
    decreases |chs|
  {
    if chs == {} {
      var plan: Plan := [];
      assert Walks(plan, live) && forall ch :: ch in chs ==> Visits(plan, ch);
    } else {
      var ch :| ch in chs;
      PlanListed(live, chs - {ch});
      var plan: Plan :| Walks(plan, live) && forall c :: c in chs - {ch} ==> Visits(plan, c);
      KeysListed(live.channels[ch].conns.Keys);
      var ks :| Lists(ks, live.channels[ch].conns.Keys);
      var plan' := plan + [(ch, ks)];
      forall c | c in chs ensures Visits(plan', c) {
        if c == ch {
          assert plan'[|plan|].0 == c;
        } else {
          assert Visits(plan, c);
          var i :| 0 <= i < |plan| && plan[i].0 == c;
          assert plan'[i].0 == c;
        }
      }
      assert Walks(plan', live);
    }
  }

  ghost predicate Visits(plan: Plan, ch: string) {
    exists i :: 0 <= i < |plan| && plan[i].0 == ch
  }

  lemma PlanExists(live: Live)
    ensures exists plan: Plan :: Fits(plan, live)
  {
    PlanListed(live, live.channels.Keys);
    var plan: Plan :| Walks(plan, live) && forall ch :: ch in live.channels.Keys ==> Visits(plan, ch);
    forall ch | ch in live.channels ensures exists i :: 0 <= i < |plan| && plan[i].0 == ch {
      assert Visits(plan, ch);
    }
    assert Fits(plan, live);
  }

  /** If the checkpoint name is a second name of the active file, opening the checkpoint
      file empties the log. */
  lemma AliasedBeginLoses(s: Srv, plan: Plan, ino: nat)
    requires Started(s) && Aliased(s.disk) && Enabled(s, Begin(plan, ino))
    ensures !Safe(Do(s, Begin(plan, ino)).disk, s.live)
    ensures StartUp(Do(s, Begin(plan, ino)).disk) == Invalid
  {
    assert Parse("") == EMPTY;
    assert !Agrees(EMPTY, s.live, ECF);
  }

  ghost predicate Above(b: nat, d: set<nat>) {
    forall x :: x in d ==> x < b
  }

  lemma {:induction false} FreshInode(d: set<nat>)
    ensures exists b :: Above(b, d)
    decreases |d|
  {
    if d == {} {
      assert Above(0, d);
    } else {
      var x :| x in d;
      FreshInode(d - {x});
      var b :| Above(b, d - {x});
      var c: nat := if x < b then b else x + 1;
      forall y | y in d ensures y < c {
        assert y == x || y in d - {x};
      }
      assert Above(c, d);
    }
  }

  /** A run that loses the state, from any start with the alias. */
  lemma AliasedRunLoses(s: Srv)
    requires Started(s) && Aliased(s.disk)
    ensures exists ss: seq<Srv>, acts :: Run(ss, acts) && ss[0] == s && !Safe(ss[|acts|].disk, ss[|acts|].live)
  {
    hide Fits, Safe;
    PlanExists(s.live);
    var plan: Plan :| Fits(plan, s.live);
    FreshInode(s.disk.data.Keys);
    var ino :| Above(ino, s.disk.data.Keys);
    var a := Begin(plan, ino);
    AliasedBeginLoses(s, plan, ino);
    var ss, acts := [s, Do(s, a)], [a];
    assert Run(ss, acts) && ss[0] == s && ss[|acts|] == Do(s, a);
  }

  /** All runs of a started server are safe at every step if and only if the checkpoint
      name does not alias the active file at the start. */
  lemma SafeIffNotAliased(s: Srv)
    requires Started(s)
    ensures (forall ss: seq<Srv>, acts :: Run(ss, acts) && ss[0] == s ==> Safe(ss[|acts|].disk, ss[|acts|].live))
       <==> !Aliased(s.disk)
  {
    if Aliased(s.disk) {
      AliasedRunLoses(s);
    } else {
      forall ss: seq<Srv>, acts | Run(ss, acts) && ss[0] == s
        ensures Safe(ss[|acts|].disk, ss[|acts|].live)
      {
        CrashIsSafe(ss, acts, |acts|);
      }
    }
  }

  // ---------- the loop body ----------

  lemma RunSnoc(ss: seq<Srv>, acts: seq<Act>, a: Act)
    requires Run(ss, acts) && Good(ss[|acts|]) && Enabled(ss[|acts|], a)
    ensures Run(ss + [Do(ss[|acts|], a)], acts + [a]) && Good(Do(ss[|acts|], a))
  {
    DoKeepsGood(ss[|acts|], a);
  }

  /** The checkpoint file is the active file now, the active file is the backup. */
  predicate Swapped(was: map<FileName, nat>, names: map<FileName, nat>) {
    Active in was && Ckp in was && Named(names, Some(was[Ckp]), Some(was[Active]), None)
  }

  /** What goes wrong in preparing: nothing, opening the file, or writing or closing it when
      it holds that many characters. */
  datatype Trouble = NoTrouble | CannotOpen | CannotWrite(at: nat)

  /** omniEventsLog, as far as checkpoint() changes it. The methods make the system calls
      in the order of the code; what they leave in the trace is a run of the steps above. */
  class EventsLog {
    const live: Live
    var disk: Disk
    var out: nat
    var needed: bool
    ghost var phase: Phase
    ghost var goal: string
    ghost var states: seq<Srv>
    ghost var acts: seq<Act>

    ghost function View(): Srv
      reads this
    {
      Srv(live, disk, out, phase, needed, goal)
    }

    ghost predicate Traced()
      reads this
    {
      Run(states, acts) && states[|acts|] == View() && Good(View())
    }

    /** The last change of the fields was the step a. */
    ghost method Took(a: Act)
      requires Run(states, acts) && Good(states[|acts|]) && Enabled(states[|acts|], a)
      requires View() == Do(states[|acts|], a)
      modifies this`states, this`acts
      ensures Traced() && acts == old(acts) + [a] && states == old(states) + [View()]
    {
      RunSnoc(states, acts, a);
      states, acts := states + [View()], acts + [a];
    }

    constructor (live: Live, disk: Disk, out: nat)
      requires Started(Srv(live, disk, out, Idle, true, "")) && !Aliased(disk)
      ensures Traced() && View() == Srv(live, disk, out, Idle, true, "") && states == [View()]
    {
      this.live, this.disk, this.out, this.needed := live, disk, out, true;
      phase, goal := Idle, "";
      states, acts := [Srv(live, disk, out, Idle, true, "")], [];
    }

    /** One pass of the loop. `trouble` says what goes wrong in preparing, `fails` which call
        of the swap, and `text` is what output() writes. The result says whether the process
        goes on. */
    method Pass(ghost plan: Plan, ino: nat, text: string, trouble: Trouble, fails: Phase) returns (running: bool)
      requires Traced() && phase == Idle
      requires Fits(plan, live) && text == Snapshot(live, plan) && ino !in disk.data
      requires trouble.CannotWrite? ==> trouble.at <= |text|
      modifies this
      ensures Traced() && old(states) <= states
      ensures running <==> phase == Idle
      ensures !old(needed) ==> running && View() == old(View())
      ensures running && old(needed) ==> Ckp !in disk.names && (needed <==> trouble != NoTrouble)
      ensures running && old(needed) && !needed ==>
        var c := CkpFile(old(disk), ino);
        Named(disk.names, Some(c), File(old(disk.names), Active), None) && disk.data == old(disk.data)[c := text] && out == c
      ensures running && old(needed) && needed ==>
        && Named(disk.names, File(old(disk.names), Active), File(old(disk.names), Backup), None) && out == old(out)
        && forall f :: f != CkpFile(old(disk), ino) ==>
          (f in disk.data <==> f in old(disk.data)) && (f in disk.data ==> disk.data[f] == old(disk.data)[f])
    {
      hide Run, Good, SnapshotLog, LogText, Walks, Fits;
      if !needed {
        return true;
      }
      Prepare(plan, ino, text, trouble);
      if trouble != NoTrouble {
        return true;
      }
      CloseFiles();
      running := Commit(fails);
    }

    /** Phase 2. */
    method Commit(fails: Phase) returns (running: bool)
      requires Traced() && phase == StreamClosed
      modifies this`disk, this`out, this`needed, this`phase, this`states, this`acts
      ensures Traced() && old(states) <= states
      ensures running <==> phase == Idle
      ensures disk.data == old(disk.data)
      ensures running ==> !needed && Swapped(old(disk.names), disk.names) && Active in disk.names && out == disk.names[Active]
    {
      hide Run, Good;
      UnlinkBackup(fails != StreamClosed);
      running := LinkBackup(fails != BackupGone);
      if running {
        running := UnlinkActive(fails != BackupLinked);
      }
      if running {
        running := SwapIn(fails);
      }
    }

    method SwapIn(fails: Phase) returns (running: bool)
      requires Traced() && phase == ActiveGone
      modifies this`disk, this`out, this`needed, this`phase, this`states, this`acts
      ensures Traced() && old(states) <= states
      ensures running <==> phase == Idle
      ensures disk.data == old(disk.data)
      ensures running ==> !needed && Ckp in old(disk.names) && Active in disk.names && out == disk.names[Active]
      ensures running ==> disk.names == old(disk.names)[Active := old(disk.names)[Ckp]] - {Ckp}
    {
      hide Run, Good;
      running := LinkActive(fails != ActiveGone);
      if running {
        running := UnlinkCkp(fails != ActiveLinked);
      }
      if running {
        running := Reopen(fails != CkpGone);
      }
    }

    /** Phase 1. */
    method Prepare(ghost plan: Plan, ino: nat, text: string, trouble: Trouble)
      requires Traced() && phase == Idle && needed
      requires Fits(plan, live) && text == Snapshot(live, plan) && ino !in disk.data
      requires trouble.CannotWrite? ==> trouble.at <= |text|
      modifies this`disk, this`phase, this`goal, this`states, this`acts
      ensures Traced() && old(states) <= states
      ensures if trouble != NoTrouble then phase == Idle && disk.names == old(disk.names) - {Ckp}
              else phase == Writing && goal == text && disk.names == old(disk.names)[Ckp := CkpFile(old(disk), ino)]
      ensures var c := CkpFile(old(disk), ino);
        disk.data ==
          match trouble
          case CannotOpen => old(disk.data)
          case CannotWrite(at) => old(disk.data)[c := text[..at]]
          case NoTrouble => old(disk.data)[c := text]
    {
      hide Run, Good, SnapshotLog, LogText, Walks, Fits;
      if trouble == CannotOpen {
        NotOpened();
        return;
      }
      OpenFile(plan, ino, text);
      assert text[..|text|] == text;
      WriteAll(text, if trouble.CannotWrite? then trouble.at else |text|);
      if trouble.CannotWrite? {
        GiveUp();
      }
    }

    method NotOpened()
      requires Traced() && phase == Idle && needed
      modifies this`disk, this`states, this`acts
      ensures Traced() && old(states) <= states && disk == Unlink(old(disk), Ckp)
    {
      disk := Unlink(disk, Ckp);
      Took(OpenFails);
    }

    /** output(): the first `end` characters are written. */
    method WriteAll(text: string, end: nat)
      requires Traced() && phase == Writing && goal == text && end <= |text|
      requires Ckp in disk.names && disk.names[Ckp] in disk.data && disk.data[disk.names[Ckp]] == text[..0]
      modifies this`disk, this`states, this`acts
      ensures Traced() && old(states) <= states
      ensures Ckp in disk.names && disk.names == old(disk.names) && disk.data == old(disk.data)[disk.names[Ckp] := text[..end]]
    {
      var n := 0;
      while n < end
        invariant n <= end && Traced() && old(states) <= states
        invariant Ckp in disk.names && disk.names == old(disk.names) && disk.names[Ckp] in disk.data
        invariant disk.data == old(disk.data)[disk.names[Ckp] := text[..n]]
      {
        n := n + 1;
        WriteOut(text, n);
      }
    }

    method OpenFile(ghost plan: Plan, ino: nat, text: string)
      requires Traced() && phase == Idle && needed
      requires Fits(plan, live) && text == Snapshot(live, plan) && ino !in disk.data
      modifies this`disk, this`phase, this`goal, this`states, this`acts
      ensures Traced() && old(states) <= states && phase == Writing && goal == text
      ensures var c := CkpFile(old(disk), ino);
        disk.names == old(disk.names)[Ckp := c] && disk.data == old(disk.data)[c := text[..0]]
    {
      hide Run, Good, SnapshotLog, LogText, Walks;
      disk, phase, goal := OpenCkp(disk, ino), Writing, text;
      Took(Begin(plan, ino));
    }

    method GiveUp()
      requires Traced() && phase == Writing
      modifies this`disk, this`phase, this`states, this`acts
      ensures Traced() && old(states) <= states && phase == Idle && disk == Unlink(old(disk), Ckp)
    {
      disk, phase := Unlink(disk, Ckp), Idle;
      Took(Abandon);
    }

    method WriteOut(text: string, n: nat)
      requires Traced() && phase == Writing && goal == text && n <= |text|
      modifies this`disk, this`states, this`acts
      ensures Traced() && states == old(states) + [View()]
      ensures Ckp in disk.names && disk == old(disk).(data := old(disk).data[disk.names[Ckp] := text[..n]])
    {
      disk := disk.(data := disk.data[disk.names[Ckp] := text[..n]]);
      Took(Write(n));
    }

    /** ckpf.close(), then _logstream.close(). */
    method CloseFiles()
      requires Traced() && phase == Writing && Ckp in disk.names
      requires disk.names[Ckp] in disk.data && disk.data[disk.names[Ckp]] == goal
      modifies this`phase, this`states, this`acts
      ensures Traced() && phase == StreamClosed && old(states) <= states
    {
      phase := Written;
      Took(Next);
      phase := StreamClosed;
      Took(Next);
    }

    method UnlinkBackup(ok: bool)
      requires Traced() && phase == StreamClosed
      modifies this`disk, this`phase, this`states, this`acts
      ensures Traced() && phase == BackupGone && old(states) <= states
      ensures disk == if ok then Unlink(old(disk), Backup) else old(disk)
    {
      if ok {
        disk := Unlink(disk, Backup);
      }
      phase := BackupGone;
      Took(if ok then Next else Fail);
    }

    method LinkBackup(ok: bool) returns (running: bool)
      requires Traced() && phase == BackupGone
      modifies this`disk, this`phase, this`states, this`acts
      ensures Traced() && phase == (if running then BackupLinked else Stopped) && old(states) <= states
      ensures running <==> ok && Backup !in old(disk).names
      ensures if running then Active in old(disk).names && disk == Link(old(disk), Active, Backup) else disk == old(disk)
    {
      running := ok && Backup !in disk.names;
      if running {
        disk := Link(disk, Active, Backup);
      }
      phase := if running then BackupLinked else Stopped;
      Took(if running then Next else Fail);
    }

    method UnlinkActive(ok: bool) returns (running: bool)
      requires Traced() && phase == BackupLinked
      modifies this`disk, this`phase, this`states, this`acts
      ensures Traced() && phase == (if running then ActiveGone else Stopped) && old(states) <= states
      ensures running == ok && disk == if ok then Unlink(old(disk), Active) else old(disk)
    {
      running := ok;
      if running {
        disk := Unlink(disk, Active);
      }
      phase := if running then ActiveGone else Stopped;
      Took(if running then Next else Fail);
    }

    method LinkActive(ok: bool) returns (running: bool)
      requires Traced() && phase == ActiveGone
      modifies this`disk, this`phase, this`states, this`acts
      ensures Traced() && phase == (if running then ActiveLinked else Stopped) && old(states) <= states
      ensures running == ok
      ensures if ok then Ckp in old(disk).names && disk == Link(old(disk), Ckp, Active) else disk == old(disk)
    {
      running := ok;
      if running {
        disk := Link(disk, Ckp, Active);
      }
      phase := if running then ActiveLinked else Stopped;
      Took(if running then Next else Fail);
    }

    method UnlinkCkp(ok: bool) returns (running: bool)
      requires Traced() && phase == ActiveLinked
      modifies this`disk, this`phase, this`states, this`acts
      ensures Traced() && phase == (if running then CkpGone else Stopped) && old(states) <= states
      ensures running == ok && disk == if ok then Unlink(old(disk), Ckp) else old(disk)
    {
      running := ok;
      if running {
        disk := Unlink(disk, Ckp);
      }
      phase := if running then CkpGone else Stopped;
      Took(if running then Next else Fail);
    }

    method Reopen(ok: bool) returns (running: bool)
      requires Traced() && phase == CkpGone
      modifies this`out, this`needed, this`phase, this`states, this`acts
      ensures Traced() && phase == (if running then Idle else Stopped) && old(states) <= states
      ensures running == ok && (ok ==> !needed && Active in disk.names && out == disk.names[Active])
    {
      running := ok;
      if running {
        out, needed := disk.names[Active], false;
      }
      phase := if running then Idle else Stopped;
      Took(if running then Next else Fail);
    }
  }
}
