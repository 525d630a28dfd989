/**
 * Servers of many paths in one directory (framework/ipc/ipc_server.cpp). The
 * lock file of a path is a file like any other: a server whose own path is the
 * name of another's lock file unlinks it.
 *
 * A name leads to a file, and flock holds the file, not the name. A step is one
 * system call; listen, O_NONBLOCK and the commit, which nobody else sees, are
 * one. Crash and initial leftovers are as in SingleInstance.
 */
module SharedDirectory {
  import opened Basics
  import SingleInstance

  type ServerId = nat

  type FileId = nat

  type Path = string

  datatype Stage =
    | LockOpened
    | Locked
    | Cleared
    | HasSocket
    | Bound(file: FileId)
    | Running(file: FileId)
    | Undoing(file: FileId)
    | Stopping(file: FileId)
    | Unlocking

  datatype Pc = Idle | Active(path: Path, lockFile: FileId, stage: Stage)

  datatype World = World(
    files: map<Path, FileId>, sockets: set<FileId>, nextFile: FileId,
    locks: map<FileId, ServerId>, pcs: map<ServerId, Pc>)

  datatype Event =
    | OpensLock(s: ServerId, path: Path, ok: bool)
    | TriesLock(s: ServerId, ok: bool)
    | UnlinksStale(s: ServerId)
    | MakesSocket(s: ServerId, ok: bool)
    | Binds(s: ServerId, ok: bool)
    | Commits(s: ServerId, ok: bool)
    | Undoes(s: ServerId)
    | StopCalled(s: ServerId)
    | StopUnlinks(s: ServerId)
    | Unlocks(s: ServerId)
    | Crashes(s: ServerId)

  function LockPath(path: Path): Path {
    path + ".lock"
  }

  function At(w: World, s: ServerId): Pc {
    if s in w.pcs then w.pcs[s] else Idle
  }

  predicate IsAt(w: World, s: ServerId, stage: Stage) {
    At(w, s).Active? && At(w, s).stage == stage
  }

  ghost predicate Init(w: World) {
    w.locks == map[] && w.pcs == map[] && forall p | p in w.files :: w.files[p] < w.nextFile
  }

  /** `ok` is what the kernel may answer: a socket cannot be opened, a lock or a name that is taken not be had. */
  ghost predicate Enabled(w: World, e: Event) {
    match e
    case OpensLock(s, path, ok) =>
      At(w, s) == Idle && path != ""
      && (ok && LockPath(path) in w.files ==> w.files[LockPath(path)] !in w.sockets)
    case TriesLock(s, ok) => IsAt(w, s, LockOpened) && (ok ==> At(w, s).lockFile !in w.locks)
    case UnlinksStale(s) => IsAt(w, s, Locked)
    case MakesSocket(s, ok) => IsAt(w, s, Cleared)
    case Binds(s, ok) => IsAt(w, s, HasSocket) && (ok ==> SingleInstance.BoundName(At(w, s).path) !in w.files)
    case Commits(s, ok) => At(w, s).Active? && At(w, s).stage.Bound?
    case Undoes(s) => At(w, s).Active? && At(w, s).stage.Undoing?
    case StopCalled(s) => At(w, s).Active? && At(w, s).stage.Running?
    case StopUnlinks(s) => At(w, s).Active? && At(w, s).stage.Stopping?
    case Unlocks(s) => IsAt(w, s, Unlocking)
    case Crashes(s) => true
  }

  function Goto(w: World, s: ServerId, stage: Stage): World
    requires At(w, s).Active?
  {
    w.(pcs := w.pcs[s := At(w, s).(stage := stage)])
  }

  /** unlink(path): the name is gone; whoever has the file open or locked keeps it. */
  function Unlinked(w: World, s: ServerId): World
    requires At(w, s).Active?
  {
    w.(files := w.files - {At(w, s).path})
  }

  /** The server lets go of what it has locked, if anything. */
  function Gone(w: World, s: ServerId): World {
    w.(pcs := w.pcs[s := Idle],
       locks := if At(w, s).Active? && At(w, s).lockFile in w.locks && w.locks[At(w, s).lockFile] == s
                then w.locks - {At(w, s).lockFile} else w.locks)
  }

  function Opened(w: World, s: ServerId, path: Path): World {
    if LockPath(path) in w.files then w.(pcs := w.pcs[s := Active(path, w.files[LockPath(path)], LockOpened)])
    else
      w.(files := w.files[LockPath(path) := w.nextFile], nextFile := w.nextFile + 1,
         pcs := w.pcs[s := Active(path, w.nextFile, LockOpened)])
  }

  function BoundTo(w: World, s: ServerId): World
    requires At(w, s).Active?
  {
    Goto(w.(files := w.files[SingleInstance.BoundName(At(w, s).path) := w.nextFile], nextFile := w.nextFile + 1,
            sockets := w.sockets + {w.nextFile}),
         s, Bound(w.nextFile))
  }

  ghost function Step(w: World, e: Event): World
    requires Enabled(w, e)
  {
    match e
    case OpensLock(s, path, ok) => if ok then Opened(w, s, path) else w
    case TriesLock(s, ok) =>
      if ok then Goto(w, s, Locked).(locks := w.locks[At(w, s).lockFile := s]) else w.(pcs := w.pcs[s := Idle])
    case UnlinksStale(s) => Goto(Unlinked(w, s), s, Cleared)
    case MakesSocket(s, ok) => Goto(w, s, if ok then HasSocket else Unlocking)
    case Binds(s, ok) => if ok then BoundTo(w, s) else Goto(w, s, Unlocking)
    case Commits(s, ok) =>
      Goto(w, s, if ok then Running(At(w, s).stage.file) else Undoing(At(w, s).stage.file))
    case Undoes(s) => Goto(Unlinked(w, s), s, Unlocking)
    case StopCalled(s) => Goto(w, s, Stopping(At(w, s).stage.file))
    case StopUnlinks(s) => Goto(Unlinked(w, s), s, Unlocking)
    case Unlocks(s) => Gone(w, s)
    case Crashes(s) => Gone(w, s)
  }

  ghost predicate IsRun(ws: seq<World>, es: seq<Event>) {
    && |ws| == |es| + 1
    && Init(ws[0])
    && forall i | 0 <= i < |es| :: Enabled(ws[i], es[i]) && ws[i + 1] == Step(ws[i], es[i])
  }

  /** Every server of the run is started on one of these paths. */
  ghost predicate Uses(es: seq<Event>, paths: iset<Path>) {
    forall i | 0 <= i < |es| && es[i].OpensLock? :: es[i].path in paths
  }

  lemma RunSteps(ws: seq<World>, es: seq<Event>, i: nat)
    requires IsRun(ws, es) && i + 1 < |ws|
    ensures i < |es| && Enabled(ws[i], es[i]) && ws[i + 1] == Step(ws[i], es[i])
  {
  }

  /** Server `s` is at `stage` now, on the path and lock file it had, and no other server has moved. */
  ghost predicate Moves(w: World, w': World, s: ServerId, stage: Stage) {
    && At(w, s).Active? && At(w', s) == Active(At(w, s).path, At(w, s).lockFile, stage)
    && forall t: ServerId | t != s :: At(w', t) == At(w, t)
  }

  ghost predicate Leaves(w: World, w': World, s: ServerId) {
    At(w', s) == Idle && forall t: ServerId | t != s :: At(w', t) == At(w, t)
  }

  /**
   * Every system call of every run: what it does to the names and to the locks,
   * and where it leaves the server.
   */
  lemma StepsAreExact(ws: seq<World>, es: seq<Event>, i: nat)
    requires IsRun(ws, es) && i < |es|
    ensures var w, w', e, pc := ws[i], ws[i + 1], es[i], At(ws[i], es[i].s);
      && (e.UnlinksStale? || e.Undoes? || e.StopUnlinks? ==> pc.Active? && w'.files == w.files - {pc.path})
      && (e.Binds? && e.ok ==>
            pc.Active? && w'.files == w.files[SingleInstance.BoundName(pc.path) := w.nextFile])
      && (e.OpensLock? && e.ok && e.path + ".lock" !in w.files ==> w'.files == w.files[e.path + ".lock" := w.nextFile])
      && (e.OpensLock? && (!e.ok || e.path + ".lock" in w.files) ==> w'.files == w.files)
      && (e.TriesLock? && e.ok ==> pc.Active? && w'.locks == w.locks[pc.lockFile := e.s])
      && (!(e.TriesLock? && e.ok) && !e.Unlocks? && !e.Crashes? ==> w'.locks == w.locks)
      && ((e.Unlocks? || e.Crashes?) && Holds(pc) && pc.lockFile in w.locks && w.locks[pc.lockFile] == e.s ==>
            w'.locks == w.locks - {pc.lockFile})
    ensures var w, w', s := ws[i], ws[i + 1], es[i].s;
      match es[i]
      case OpensLock(_, path, ok) =>
        if ok
        then
          && path + ".lock" in w'.files && At(w', s) == Active(path, w'.files[path + ".lock"], LockOpened)
          && forall t: ServerId | t != s :: At(w', t) == At(w, t)
        else w' == w
      case TriesLock(_, ok) => if ok then Moves(w, w', s, Locked) else Leaves(w, w', s)
      case UnlinksStale(_) => Moves(w, w', s, Cleared)
      case MakesSocket(_, ok) => Moves(w, w', s, if ok then HasSocket else Unlocking)
      case Binds(_, ok) => Moves(w, w', s, if ok then Bound(w.nextFile) else Unlocking)
      case Commits(_, ok) =>
        && At(w, s).Active? && At(w, s).stage.Bound?
        && Moves(w, w', s, if ok then Running(At(w, s).stage.file) else Undoing(At(w, s).stage.file))
      case Undoes(_) => Moves(w, w', s, Unlocking)
      case StopCalled(_) =>
        At(w, s).Active? && At(w, s).stage.Running? && Moves(w, w', s, Stopping(At(w, s).stage.file))
      case StopUnlinks(_) => Moves(w, w', s, Unlocking)
      case Unlocks(_) => Leaves(w, w', s)
      case Crashes(_) => Leaves(w, w', s)
  {
    RunSteps(ws, es, i);
    hide IsRun, SingleInstance.BoundName;
  }

  // ---------------------------------------------------------------------------
  // The invariant
  // ---------------------------------------------------------------------------

  predicate Holds(pc: Pc) {
    pc.Active? && pc.stage != LockOpened
  }

  predicate HasFile(pc: Pc) {
    pc.Active? && (pc.stage.Bound? || pc.stage.Running? || pc.stage.Undoing? || pc.stage.Stopping?)
  }

  /** A server past its flock has the lock on the file it opened, whatever has become of the name. */
  ghost predicate LockInv(w: World, s: ServerId) {
    Holds(At(w, s)) ==> At(w, s).lockFile in w.locks && w.locks[At(w, s).lockFile] == s
  }

  /** Of a server on path `p`: the lock file it opened is still the one of that name, and its socket its own. */
  ghost predicate PathInv(w: World, p: Path, s: ServerId) {
    At(w, s).Active? && At(w, s).path == p ==>
      && LockPath(p) in w.files && w.files[LockPath(p)] == At(w, s).lockFile
      && (HasFile(At(w, s)) && |p| <= SingleInstance.SUN_PATH ==>
            p in w.files && w.files[p] == At(w, s).stage.file)
  }

  ghost predicate Inv(w: World, paths: iset<Path>, p: Path) {
    forall s: ServerId :: LockInv(w, s) && PathInv(w, p, s) && (At(w, s).Active? ==> At(w, s).path in paths)
  }

  lemma StepKeepsLocks(w: World, e: Event, s: ServerId)
    requires LockInv(w, s) && LockInv(w, e.s) && Enabled(w, e)
    ensures LockInv(Step(w, e), s)
  {
    hide SingleInstance.BoundName;
  }

  lemma OneHolder(w: World, paths: iset<Path>, p: Path, s: ServerId, t: ServerId)
    requires Inv(w, paths, p) && Holds(At(w, s)) && Holds(At(w, t)) && At(w, s).path == At(w, t).path == p
    ensures s == t
  {
    assert LockInv(w, s) && LockInv(w, t) && PathInv(w, p, s) && PathInv(w, p, t);
  }

  /** What may happen to a name: it is unlinked by a server of that path, or taken when it was free. */
  lemma StepOnName(w: World, e: Event, name: Path)
    requires Enabled(w, e) && name in w.files
    ensures name in Step(w, e).files ==> Step(w, e).files[name] == w.files[name]
    ensures name !in Step(w, e).files ==> Holds(At(w, e.s)) && At(w, e.s).path == name
  {
  }

  lemma StepKeepsPath(w: World, e: Event, paths: iset<Path>, p: Path, s: ServerId)
    requires Inv(w, paths, p) && LockPath(p) !in paths && Enabled(w, e)
    ensures PathInv(Step(w, e), p, s)
  {
    assert PathInv(w, p, s) && (At(w, e.s).Active? ==> At(w, e.s).path in paths);
    if At(w, s).Active? && At(w, s).path == p {
      StepOnName(w, e, LockPath(p));
      if HasFile(At(w, s)) && |p| <= SingleInstance.SUN_PATH {
        StepOnName(w, e, p);
        if p !in Step(w, e).files {
          OneHolder(w, paths, p, s, e.s);
        }
      }
    }
    NamesDecidePath(w, e, p, s);
  }

  /** Whether its names lead where they should is all that `PathInv` asks of a step. */
  lemma NamesDecidePath(w: World, e: Event, p: Path, s: ServerId)
    requires Enabled(w, e) && PathInv(w, p, s)
    requires At(w, s).Active? && At(w, s).path == p ==>
      LockPath(p) in Step(w, e).files && Step(w, e).files[LockPath(p)] == w.files[LockPath(p)]
    requires HasFile(At(w, s)) && At(w, s).path == p && |p| <= SingleInstance.SUN_PATH ==>
      e.s == s || (p in Step(w, e).files && Step(w, e).files[p] == w.files[p])
    ensures PathInv(Step(w, e), p, s)
  {
  }

  lemma StepKeepsInv(w: World, e: Event, paths: iset<Path>, p: Path)
    requires Inv(w, paths, p) && LockPath(p) !in paths && Enabled(w, e)
    requires e.OpensLock? ==> e.path in paths
    ensures Inv(Step(w, e), paths, p)
  {
    hide PathInv, LockInv;
    forall s: ServerId
      ensures LockInv(Step(w, e), s) && PathInv(Step(w, e), p, s)
      ensures At(Step(w, e), s).Active? ==> At(Step(w, e), s).path in paths
    {
      assert LockInv(w, s) && LockInv(w, e.s) && (At(w, s).Active? ==> At(w, s).path in paths);
      StepKeepsLocks(w, e, s);
      StepKeepsPath(w, e, paths, p, s);
    }
  }

  lemma {:induction false} RunKeepsInv(ws: seq<World>, es: seq<Event>, paths: iset<Path>, p: Path, i: nat)
    requires IsRun(ws, es) && Uses(es, paths) && LockPath(p) !in paths && i < |ws|
    ensures Inv(ws[i], paths, p)
  {
    hide Inv, Init, Enabled, Step;
    if i == 0 {
      StartInv(ws[0], paths, p);
    } else {
      RunKeepsInv(ws, es, paths, p, i - 1);
      RunSteps(ws, es, i - 1);
      StepKeepsInv(ws[i - 1], es[i - 1], paths, p);
    }
  }

  lemma StartInv(w: World, paths: iset<Path>, p: Path)
    requires Init(w)
    ensures Inv(w, paths, p)
  {
  }

  // ---------------------------------------------------------------------------
  // When a path is safe
  // ---------------------------------------------------------------------------

  /** In every run over these paths, at most one server at a time is past the flock on path `p`. */
  ghost predicate Exclusive(paths: iset<Path>, p: Path) {
    forall ws, es, s: ServerId, t: ServerId | IsRun(ws, es) && Uses(es, paths) && BothHold(ws[|es|], p, s, t) :: s == t
  }

  ghost predicate BothHold(w: World, p: Path, s: ServerId, t: ServerId) {
    Holds(At(w, s)) && Holds(At(w, t)) && At(w, s).path == At(w, t).path == p
  }

  /**
   * A path is served by one instance at a time, whatever servers of the other
   * paths do, if and only if none of those paths is the name of its lock file.
   */
  lemma ExclusiveUnlessTheLockFileIsAPath(paths: iset<Path>, p: Path)
    requires p in paths && p != ""
    ensures Exclusive(paths, p) <==> LockPath(p) !in paths
  {
    if LockPath(p) !in paths {
      forall ws, es, s: ServerId, t: ServerId | IsRun(ws, es) && Uses(es, paths) && BothHold(ws[|es|], p, s, t)
        ensures s == t
      {
        RunKeepsInv(ws, es, paths, p, |es|);
        OneHolder(ws[|es|], paths, p, s, t);
      }
    } else {
      var ws, es := TwoInstances(p);
      assert Uses(es, paths) && BothHold(ws[|es|], p, 0, 2);
    }
  }

  /** And then the socket file at a path that fits is that of the server running on it. */
  lemma TheFileIsItsOwn(ws: seq<World>, es: seq<Event>, paths: iset<Path>, p: Path, s: ServerId, i: nat)
    requires IsRun(ws, es) && Uses(es, paths) && LockPath(p) !in paths && i < |ws|
    requires At(ws[i], s).Active? && At(ws[i], s).path == p && At(ws[i], s).stage.Running?
    requires |p| <= SingleInstance.SUN_PATH
    ensures p in ws[i].files && ws[i].files[p] == At(ws[i], s).stage.file
  {
    hide IsRun;
    RunKeepsInv(ws, es, paths, p, i);
    assert PathInv(ws[i], p, s);
  }

  lemma Extend(ws: seq<World>, es: seq<Event>, e: Event) returns (ws': seq<World>, es': seq<Event>)
    requires IsRun(ws, es) && Enabled(ws[|es|], e)
    ensures IsRun(ws', es') && es' == es + [e] && ws'[|es'|] == Step(ws[|es|], e)
  {
    hide Enabled, Step;
    es' := es + [e];
    ws' := ws + [Step(ws[|es|], e)];
    forall i | 0 <= i < |es'| ensures Enabled(ws'[i], es'[i]) && ws'[i + 1] == Step(ws'[i], es'[i]) {
      if i < |es| {
        assert ws'[i] == ws[i] && es'[i] == es[i] && ws'[i + 1] == ws[i + 1];
      }
    }
  }

  lemma OneLock(p: Path) returns (ws: seq<World>, es: seq<Event>)
    requires p != ""
    ensures IsRun(ws, es) && Uses(es, iset{p})
    ensures ws[|es|] == World(map[LockPath(p) := 0], {}, 1, map[0 := 0], map[0 := Active(p, 0, Locked)])
  {
    ws, es := [World(map[], {}, 0, map[], map[])], [];
    assert IsRun(ws, es);
    hide IsRun, SingleInstance.BoundName, LockPath;
    ws, es := Extend(ws, es, OpensLock(0, p, true));
    ws, es := Extend(ws, es, TriesLock(0, true));
  }

  /** Server 0 has the lock of `p`; server 1, whose path is the name of that lock file, has its own. */
  lemma TwoLocks(p: Path) returns (ws: seq<World>, es: seq<Event>)
    requires p != ""
    ensures IsRun(ws, es) && Uses(es, iset{p, LockPath(p)})
    ensures ws[|es|] ==
      World(map[LockPath(p) := 0, LockPath(LockPath(p)) := 1], {}, 2, map[0 := 0, 1 := 1],
            map[0 := Active(p, 0, Locked), 1 := Active(LockPath(p), 1, Locked)])
  {
    var q := LockPath(p);
    assert q != "" && |LockPath(q)| != |q|;
    ws, es := OneLock(p);
    hide IsRun, SingleInstance.BoundName, LockPath;
    ws, es := Extend(ws, es, OpensLock(1, q, true));
    ws, es := Extend(ws, es, TriesLock(1, true));
  }

  /** Server 1 unlinks the lock file of `p`, and server 2 gets a new one. */
  lemma TwoInstances(p: Path) returns (ws: seq<World>, es: seq<Event>)
    requires p != ""
    ensures IsRun(ws, es) && Uses(es, iset{p, LockPath(p)}) && BothHold(ws[|es|], p, 0, 2)
  {
    ws, es := TwoLocks(p);
    hide IsRun, SingleInstance.BoundName, LockPath;
    ws, es := Extend(ws, es, UnlinksStale(1));
    ws, es := Extend(ws, es, OpensLock(2, p, true));
    ws, es := Extend(ws, es, TriesLock(2, true));
  }
}
