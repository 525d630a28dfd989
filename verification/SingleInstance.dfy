/**
 * The single-instance protocol of IpcServer (framework/ipc/ipc_server.cpp):
 * flock on <path>.lock, unlink of a stale socket file, bind, and the failure,
 * Stop and crash paths.
 *
 * Any number of servers, in any processes, start and stop on one path. A step
 * is one system call. The kernel gives the lock to at most one open file and
 * releases it when its holder closes the file or dies; a crash leaves the
 * socket file behind. Nobody else touches the directory.
 */
module SingleInstance {
  import opened Basics
  import opened IpcErrors

  type ServerId = nat

  type FileId = nat

  type Path = string

  /** sizeof(sockaddr_un::sun_path) - 1: what strncpy leaves room for. */
  const SUN_PATH := 107

  /** The name bind() really uses. */
  function BoundName(path: Path): Path {
    if |path| <= SUN_PATH then path else path[..SUN_PATH]
  }

  /** Where a server is, by what it is about to do. */
  datatype Pc =
    | Idle                        // not started, stopped, failed or crashed
    | LockOpened                  // flock
    | Locked                      // unlink the stale socket file
    | Cleared                     // socket
    | HasSocket                   // bind
    | Bound(file: FileId)         // chmod, listen
    | Listening(file: FileId)     // O_NONBLOCK
    | Ready(file: FileId)         // commit
    | Running(file: FileId)
    | Undoing(file: FileId)       // a failed Start: unlink what it bound
    | Unlocking                   // a failed Start or a Stop: release the lock
    | Stopping(file: FileId)      // Stop: unlink

  datatype World = World(
    path: Path, files: map<Path, FileId>, nextFile: FileId, lock: Option<ServerId>, pcs: map<ServerId, Pc>)

  function At(w: World, s: ServerId): Pc {
    if s in w.pcs then w.pcs[s] else Idle
  }

  datatype Event =
    | OpensLock(s: ServerId, ok: bool)
    | TriesLock(s: ServerId, ok: bool)
    | UnlinksStale(s: ServerId)
    | MakesSocket(s: ServerId, ok: bool)
    | Binds(s: ServerId, ok: bool)
    | Listens(s: ServerId, ok: bool)
    | SetsNonBlocking(s: ServerId, ok: bool)
    | Commits(s: ServerId)
    | Undoes(s: ServerId)
    | Unlocks(s: ServerId)
    | StopCalled(s: ServerId)
    | StopUnlinks(s: ServerId)
    | Crashes(s: ServerId)

  ghost predicate Init(w: World) {
    w.lock == None && w.pcs == map[] && forall p | p in w.files :: w.files[p] < w.nextFile
  }

  /** `ok` is what the kernel may answer: the lock only if it is free, the name only if it is free. */
  ghost predicate Enabled(w: World, e: Event) {
    match e
    case OpensLock(s, ok) => At(w, s) == Idle
    case TriesLock(s, ok) => At(w, s) == LockOpened && (ok ==> w.lock == None)
    case UnlinksStale(s) => At(w, s) == Locked
    case MakesSocket(s, ok) => At(w, s) == Cleared
    case Binds(s, ok) => At(w, s) == HasSocket && (ok ==> BoundName(w.path) !in w.files)
    case Listens(s, ok) => At(w, s).Bound?
    case SetsNonBlocking(s, ok) => At(w, s).Listening?
    case Commits(s) => At(w, s).Ready?
    case Undoes(s) => At(w, s).Undoing?
    case Unlocks(s) => At(w, s) == Unlocking
    case StopCalled(s) => At(w, s).Running? || At(w, s) == Idle
    case StopUnlinks(s) => At(w, s).Stopping?
    case Crashes(s) => true
  }

  function Goto(w: World, s: ServerId, pc: Pc): World {
    w.(pcs := w.pcs[s := pc])
  }

  function Unlinked(w: World): World {
    w.(files := w.files - {w.path})
  }

  function Released(w: World, s: ServerId): World {
    if w.lock == Some(s) then w.(lock := None) else w
  }

  ghost function Step(w: World, e: Event): World
    requires Enabled(w, e)
  {
    match e
    case OpensLock(s, ok) => Goto(w, s, if ok then LockOpened else Idle)
    case TriesLock(s, ok) => if ok then Goto(w, s, Locked).(lock := Some(s)) else Goto(w, s, Idle)
    case UnlinksStale(s) => Goto(Unlinked(w), s, Cleared)
    case MakesSocket(s, ok) => Goto(w, s, if ok then HasSocket else Unlocking)
    case Binds(s, ok) =>
      if ok
      then Goto(w.(files := w.files[BoundName(w.path) := w.nextFile], nextFile := w.nextFile + 1),
                s, Bound(w.nextFile))
      else Goto(w, s, Unlocking)
    case Listens(s, ok) => Goto(w, s, if ok then Listening(At(w, s).file) else Undoing(At(w, s).file))
    case SetsNonBlocking(s, ok) => Goto(w, s, if ok then Pc.Ready(At(w, s).file) else Undoing(At(w, s).file))
    case Commits(s) => Goto(w, s, Running(At(w, s).file))
    case Undoes(s) => Goto(Unlinked(w), s, Unlocking)
    case Unlocks(s) => Goto(Released(w, s), s, Idle)
    case StopCalled(s) => if At(w, s).Running? then Goto(w, s, Stopping(At(w, s).file)) else w
    case StopUnlinks(s) => Goto(Unlinked(w), s, Unlocking)
    case Crashes(s) => Goto(Released(w, s), s, Idle)
  }

  /** Steps one after the other, from whatever state the first one is in. */
  ghost predicate Executes(ws: seq<World>, es: seq<Event>) {
    && |ws| == |es| + 1
    && forall i | 0 <= i < |es| :: Enabled(ws[i], es[i]) && ws[i + 1] == Step(ws[i], es[i])
  }

  ghost predicate IsRun(ws: seq<World>, es: seq<Event>) {
    Executes(ws, es) && Init(ws[0])
  }

  lemma RunSteps(ws: seq<World>, es: seq<Event>, i: nat)
    requires Executes(ws, es) && i + 1 < |ws|
    ensures i < |es| && Enabled(ws[i], es[i]) && ws[i + 1] == Step(ws[i], es[i])
  {
  }

  // ---------------------------------------------------------------------------
  // The invariant
  // ---------------------------------------------------------------------------

  predicate Holds(pc: Pc) {
    pc != Idle && pc != LockOpened
  }

  /** The stale file is gone and nothing has been bound yet. */
  predicate BeforeBind(pc: Pc) {
    pc == Cleared || pc == HasSocket
  }

  predicate HasFile(pc: Pc) {
    pc.Bound? || pc.Listening? || pc.Ready? || pc.Running? || pc.Undoing? || pc.Stopping?
  }

  ghost predicate PcInv(w: World, s: ServerId) {
    && (Holds(At(w, s)) <==> w.lock == Some(s))
    && (BeforeBind(At(w, s)) ==> w.path !in w.files)
    && (HasFile(At(w, s)) ==>
          && At(w, s).file < w.nextFile
          && if |w.path| <= SUN_PATH then w.path in w.files && w.files[w.path] == At(w, s).file
             else w.path !in w.files)
  }

  ghost predicate Inv(w: World) {
    forall s: ServerId :: PcInv(w, s)
  }

  lemma StepKeepsInv(w: World, e: Event)
    requires Inv(w) && Enabled(w, e)
    ensures Inv(Step(w, e)) && Step(w, e).path == w.path
  {
    assert PcInv(w, e.s);
    forall s: ServerId ensures PcInv(Step(w, e), s) {
      assert PcInv(w, s);
    }
  }

  lemma {:induction false} RunKeepsInv(ws: seq<World>, es: seq<Event>, i: nat)
    requires IsRun(ws, es) && i < |ws|
    ensures Inv(ws[i]) && ws[i].path == ws[0].path
  {
    hide Inv, Executes, Init, Enabled, Step;
    if i == 0 {
      StartInv(ws[0]);
    } else {
      RunKeepsInv(ws, es, i - 1);
      RunSteps(ws, es, i - 1);
      StepKeepsInv(ws[i - 1], es[i - 1]);
    }
  }

  lemma StartInv(w: World)
    requires Init(w)
    ensures Inv(w)
  {
  }

  // ---------------------------------------------------------------------------
  // What it means for whole runs
  // ---------------------------------------------------------------------------

  /** At most one server is anywhere between taking the lock and releasing it. */
  lemma OneServerAtATime(ws: seq<World>, es: seq<Event>, i: nat, s: ServerId, t: ServerId)
    requires IsRun(ws, es) && i < |ws| && Holds(At(ws[i], s)) && Holds(At(ws[i], t))
    ensures s == t
  {
    RunKeepsInv(ws, es, i);
    assert PcInv(ws[i], s) && PcInv(ws[i], t);
  }

  /**
   * From its commit until its own Stop or crash, the socket file at the path is
   * the one the server bound, in every run, exactly if the path fits sun_path:
   * a longer one is bound under its first 107 characters, and no file is at the
   * path at all.
   */
  lemma TheFileIsItsOwn(ws: seq<World>, es: seq<Event>, i: nat, s: ServerId)
    requires IsRun(ws, es) && i < |ws| && At(ws[i], s).Running?
    ensures ws[i].path in ws[i].files && ws[i].files[ws[i].path] == At(ws[i], s).file <==> |ws[i].path| <= 107
  {
    RunKeepsInv(ws, es, i);
    assert PcInv(ws[i], s);
  }

  /** So no step of another server, whatever it is, unlinks or replaces the file of a running one. */
  lemma OthersLeaveTheFileAlone(ws: seq<World>, es: seq<Event>, i: nat, s: ServerId)
    requires IsRun(ws, es) && i < |es| && At(ws[i], s).Running? && es[i].s != s && |ws[i].path| <= SUN_PATH
    ensures At(ws[i + 1], s) == At(ws[i], s)
    ensures ws[i].path in ws[i].files && ws[i + 1].path in ws[i + 1].files
    ensures ws[i + 1].files[ws[i + 1].path] == ws[i].files[ws[i].path] == At(ws[i], s).file
  {
    RunSteps(ws, es, i);
    RunKeepsInv(ws, es, i);
    RunKeepsInv(ws, es, i + 1);
    assert PcInv(ws[i], s) && PcInv(ws[i + 1], s);
  }

  /** The name that is bound: the path, or its first 107 characters. */
  lemma BoundNameIsTruncated(path: Path)
    ensures BoundName(path) == if |path| <= 107 then path else path[..107]
  {
  }

  /** Server `s` has moved to `pc`, and no other server has moved. */
  ghost predicate Moves(w: World, w': World, s: ServerId, pc: Pc) {
    w'.path == w.path && At(w', s) == pc && forall t: ServerId | t != s :: At(w', t) == At(w, t)
  }

  /**
   * Every system call of every execution: a name is unlinked by UnlinksStale,
   * Undoes and StopUnlinks and by nothing else, made by a bind that succeeds,
   * the lock taken by a flock that succeeds and given back by Unlocks or a crash.
   */
  lemma StepsAreExact(ws: seq<World>, es: seq<Event>, i: nat)
    requires Executes(ws, es) && i < |es|
    ensures var w, w', e := ws[i], ws[i + 1], es[i];
      && (w'.files ==
            if e.UnlinksStale? || e.Undoes? || e.StopUnlinks? then w.files - {w.path}
            else if e.Binds? && e.ok then w.files[BoundName(w.path) := w.nextFile] else w.files)
      && (w'.lock ==
            if e.TriesLock? && e.ok then Some(e.s)
            else if (e.Unlocks? || e.Crashes?) && w.lock == Some(e.s) then None else w.lock)
    ensures var w, w', s := ws[i], ws[i + 1], es[i].s;
      match es[i]
      case OpensLock(_, ok) => Moves(w, w', s, if ok then LockOpened else Idle)
      case TriesLock(_, ok) => Moves(w, w', s, if ok then Locked else Idle)
      case UnlinksStale(_) => Moves(w, w', s, Cleared)
      case MakesSocket(_, ok) => Moves(w, w', s, if ok then HasSocket else Unlocking)
      case Binds(_, ok) => Moves(w, w', s, if ok then Bound(w.nextFile) else Unlocking)
      case Listens(_, ok) =>
        At(w, s).Bound? && Moves(w, w', s, if ok then Listening(At(w, s).file) else Undoing(At(w, s).file))
      case SetsNonBlocking(_, ok) =>
        At(w, s).Listening? && Moves(w, w', s, if ok then Pc.Ready(At(w, s).file) else Undoing(At(w, s).file))
      case Commits(_) => At(w, s).Ready? && Moves(w, w', s, Running(At(w, s).file))
      case Undoes(_) => Moves(w, w', s, Unlocking)
      case Unlocks(_) => Moves(w, w', s, Idle)
      case StopCalled(_) => Moves(w, w', s, if At(w, s).Running? then Stopping(At(w, s).file) else At(w, s))
      case StopUnlinks(_) => Moves(w, w', s, Unlocking)
      case Crashes(_) => Moves(w, w', s, Idle)
  {
    RunSteps(ws, es, i);
    hide Executes, BoundName;
  }

  // ---------------------------------------------------------------------------
  // When Start can succeed
  // ---------------------------------------------------------------------------

  lemma Extend(ws: seq<World>, es: seq<Event>, e: Event) returns (ws': seq<World>, es': seq<Event>)
    requires Executes(ws, es) && Enabled(ws[|es|], e)
    ensures Executes(ws', es') && es' == es + [e] && ws'[|es'|] == Step(ws[|es|], e) && ws'[0] == ws[0]
  {
    hide Enabled, Step;
    es' := es + [e];
    ws' := ws + [Step(ws[|es|], e)];
    forall i | 0 <= i < |es'| ensures Enabled(ws'[i], es'[i]) && ws'[i + 1] == Step(ws'[i], es'[i]) {
      if i < |es| {
        assert ws'[i] == ws[i] && es'[i] == es[i] && ws'[i + 1] == ws[i + 1];
      }
    }
  }

  lemma TakesTheLock(w: World, s: ServerId) returns (ws: seq<World>, es: seq<Event>)
    requires w.lock == None && At(w, s) == Idle
    ensures Executes(ws, es) && ws[0] == w && forall e | e in es :: e.s == s
    ensures var w' := ws[|es|];
      At(w', s) == HasSocket && w'.path == w.path && w'.files == w.files - {w.path} && w'.nextFile == w.nextFile
  {
    ws, es := [w], [];
    assert Executes(ws, es);
    hide Executes;
    ws, es := Extend(ws, es, OpensLock(s, true));
    ws, es := Extend(ws, es, TriesLock(s, true));
    ws, es := Extend(ws, es, UnlinksStale(s));
    ws, es := Extend(ws, es, MakesSocket(s, true));
  }

  /** Steps of `s` alone that take it from idle to running. */
  lemma StartsAlone(w: World, s: ServerId) returns (ws: seq<World>, es: seq<Event>)
    requires w.lock == None && At(w, s) == Idle && BoundName(w.path) !in w.files - {w.path}
    ensures Executes(ws, es) && ws[0] == w && forall e | e in es :: e.s == s
    ensures At(ws[|es|], s) == Running(w.nextFile) && ws[|es|].path == w.path
    ensures ws[|es|].files == (w.files - {w.path})[BoundName(w.path) := w.nextFile]
  {
    ws, es := TakesTheLock(w, s);
    hide Executes;
    ws, es := Extend(ws, es, Binds(s, true));
    ws, es := Extend(ws, es, Listens(s, true));
    ws, es := Extend(ws, es, SetsNonBlocking(s, true));
    ws, es := Extend(ws, es, Commits(s));
  }

  /** A running server can always stop, and that leaves the lock free and nothing at the path. */
  lemma StopFreesTheLock(w: World, s: ServerId) returns (ws: seq<World>, es: seq<Event>)
    requires Inv(w) && At(w, s).Running?
    ensures Executes(ws, es) && ws[0] == w && es == [StopCalled(s), StopUnlinks(s), Unlocks(s)]
    ensures ws[|es|].lock == None && At(ws[|es|], s) == Idle && ws[|es|].files == w.files - {w.path}
  {
    assert PcInv(w, s);
    ws, es := [w], [];
    assert Executes(ws, es);
    hide Executes, Inv;
    ws, es := Extend(ws, es, StopCalled(s));
    ws, es := Extend(ws, es, StopUnlinks(s));
    ws, es := Extend(ws, es, Unlocks(s));
  }

  /** The truncated name is taken, and nobody has it. */
  ghost predicate Blocked(w: World) {
    |w.path| > SUN_PATH && BoundName(w.path) in w.files && forall t: ServerId :: !HasFile(At(w, t))
  }

  lemma StepKeepsBlocked(w: World, e: Event)
    requires Blocked(w) && Enabled(w, e)
    ensures Blocked(Step(w, e))
  {
    StepKeepsLongName(w, e);
    assert !HasFile(At(w, e.s));
    forall t: ServerId ensures !HasFile(At(Step(w, e), t)) {
      assert !HasFile(At(w, t));
    }
  }

  lemma {:induction false} StaysBlocked(ws: seq<World>, es: seq<Event>, i: nat)
    requires Executes(ws, es) && i < |ws| && Blocked(ws[0])
    ensures Blocked(ws[i])
  {
    if i > 0 {
      hide Blocked, Enabled, Step;
      StaysBlocked(ws, es, i - 1);
      StepKeepsBlocked(ws[i - 1], es[i - 1]);
    }
  }

  /** Some execution from `w`, of any servers, ends with `s` running. */
  ghost predicate CanRun(w: World, s: ServerId) {
    exists ws, es :: Executes(ws, es) && ws[0] == w && At(ws[|es|], s).Running?
  }

  /**
   * Whenever the lock is free, an idle server can get to run exactly if the
   * name it binds is free once the path has been unlinked, whatever the servers
   * before it left behind. A path that fits sun_path is never lost to a crash.
   */
  lemma FreeLockLeadsToRunning(w: World, s: ServerId)
    requires Inv(w) && w.lock == None && At(w, s) == Idle
    ensures CanRun(w, s) <==> BoundName(w.path) !in w.files - {w.path}
    ensures |w.path| <= SUN_PATH ==> CanRun(w, s)
  {
    if BoundName(w.path) !in w.files - {w.path} {
      var ws, es := StartsAlone(w, s);
      assert Executes(ws, es) && ws[0] == w && At(ws[|es|], s).Running?;
    } else {
      assert Blocked(w) by {
        forall t: ServerId ensures !HasFile(At(w, t)) {
          assert PcInv(w, t);
        }
      }
      hide Blocked, Executes;
      forall ws, es | Executes(ws, es) && ws[0] == w ensures !At(ws[|es|], s).Running? {
        NeverRuns(ws, es, s);
      }
    }
  }

  lemma NeverRuns(ws: seq<World>, es: seq<Event>, s: ServerId)
    requires Executes(ws, es) && Blocked(ws[0])
    ensures !At(ws[|es|], s).Running?
  {
    StaysBlocked(ws, es, |es|);
    assert !HasFile(At(ws[|es|], s));
  }

  /** For every path that does not fit: a run whose server is running while no file is at its path. */
  lemma LongPathRunsWithoutAFile(path: Path, s: ServerId) returns (ws: seq<World>, es: seq<Event>)
    requires |path| > SUN_PATH
    ensures IsRun(ws, es) && ws[|es|].path == path && At(ws[|es|], s).Running?
    ensures path !in ws[|es|].files && BoundName(path) in ws[|es|].files
  {
    var w := World(path, map[], 0, None, map[]);
    ws, es := StartsAlone(w, s);
  }

  lemma StepKeepsLongName(w: World, e: Event)
    requires Enabled(w, e) && |w.path| > SUN_PATH && BoundName(w.path) in w.files
    ensures BoundName(w.path) in Step(w, e).files && Step(w, e).path == w.path
  {
    assert BoundName(w.path) != w.path;
  }

  /** A path that does not fit can be bound once: the truncated name is never unlinked, by Stop or by Start. */
  lemma {:induction false} LongPathIsBoundOnce(ws: seq<World>, es: seq<Event>, i: nat, j: nat)
    requires Executes(ws, es) && i <= j < |ws| && |ws[i].path| > SUN_PATH && BoundName(ws[i].path) in ws[i].files
    ensures ws[j].path == ws[i].path && BoundName(ws[j].path) in ws[j].files
    ensures j < |es| ==> !(es[j].Binds? && es[j].ok)
    decreases j
  {
    hide Executes, Enabled, Step, BoundName;
    if i < j {
      RunSteps(ws, es, j - 1);
      LongPathIsBoundOnce(ws, es, i, j - 1);
      StepKeepsLongName(ws[j - 1], es[j - 1]);
    }
    if j < |es| {
      assert j + 1 < |ws| by { Lengths(ws, es); }
      RunSteps(ws, es, j);
      NameIsTaken(ws[j], es[j]);
    }
  }

  lemma Lengths(ws: seq<World>, es: seq<Event>)
    requires Executes(ws, es)
    ensures |ws| == |es| + 1
  {
  }

  lemma NameIsTaken(w: World, e: Event)
    requires Enabled(w, e) && BoundName(w.path) in w.files
    ensures !(e.Binds? && e.ok)
  {
  }

  // ---------------------------------------------------------------------------
  // In place
  // ---------------------------------------------------------------------------

  /** The kernel's side: the directory and the lock on <path>.lock. */
  class Host {
    var files: map<Path, FileId>
    var nextFile: FileId
    var lock: Option<ServerId>

    constructor ()
      ensures files == map[] && nextFile == 0 && lock == None
    {
      files, nextFile, lock := map[], 0, None;
    }
  }

  /** Which of the system calls of one Start the kernel lets through. */
  datatype Answers = Answers(open: bool, flock: bool, socket: bool, bind: bool, listen: bool, nonBlocking: bool)

  class Server {
    const id: ServerId
    var listening: bool
    var locked: bool
    var socketPath: Path
    var running: bool

    ghost predicate Valid()
      reads this
    {
      listening == running && locked == running && (socketPath != "") == running
    }

    constructor (id: ServerId)
      ensures Valid() && !running && this.id == id
    {
      this.id := id;
      listening, locked, socketPath, running := false, false, "", false;
    }

    /**
     * Start succeeds exactly when every call is let through, the lock is free
     * and the bound name is free once the path has been unlinked. A Start that
     * fails leaves the server as it was and the lock as it found it.
     */
    method Start(path: Path, host: Host, a: Answers) returns (error: IpcError)
      requires Valid()
      modifies this, host
      ensures Valid()
      ensures path == "" ==> error == InvalidArgument
      ensures path != "" && old(running) ==> error == AlreadyRunning
      ensures path == "" || old(running) ==> host.files == old(host.files)
      ensures error == Success <==>
        path != "" && !old(running) && a == Answers(true, true, true, true, true, true)
        && old(host.lock) == None && BoundName(path) !in old(host.files) - {path}
      ensures error == Success ==>
        && running && socketPath == path && host.lock == Some(id)
        && host.files == (old(host.files) - {path})[BoundName(path) := old(host.nextFile)]
      ensures error != Success ==>
        running == old(running) && socketPath == old(socketPath) && host.lock == old(host.lock)
      ensures error != Success && path != "" && !old(running) && a.open && a.flock && old(host.lock) == None ==>
        path !in host.files && host.files - {BoundName(path)} == old(host.files) - {path, BoundName(path)}
      ensures path != "" && !old(running) && old(host.lock) != None ==>
        error == (if a.open then AlreadyRunning else SocketCreationFailed) && host.files == old(host.files)
      ensures error == ListenFailed ==> !a.listen
      ensures error == BindFailed ==> !a.flock || !a.bind || BoundName(path) in old(host.files) - {path}
    {
      hide BoundName;
      if path == "" {
        return InvalidArgument;
      }
      if running {
        return AlreadyRunning;
      }
      if !a.open {
        return SocketCreationFailed;
      }
      if host.lock != None {
        return AlreadyRunning;
      }
      if !a.flock {
        return BindFailed;
      }
      host.lock := Some(id);
      error := BindAndListen(path, host, a);
      if error != Success {
        host.lock := None;
        return;
      }
      listening, locked, socketPath, running := true, true, path, true;
    }

    /** What Start does between taking the lock and committing; after a failure nothing is at the path. */
    method BindAndListen(path: Path, host: Host, a: Answers) returns (error: IpcError)
      modifies host`files, host`nextFile
      ensures error == Success <==>
        a.socket && a.bind && a.listen && a.nonBlocking && BoundName(path) !in old(host.files) - {path}
      ensures error == Success ==>
        host.files == (old(host.files) - {path})[BoundName(path) := old(host.nextFile)]
      ensures error != Success ==>
        path !in host.files && host.files - {BoundName(path)} == old(host.files) - {path, BoundName(path)}
      ensures error == ListenFailed ==> !a.listen
      ensures error == BindFailed ==> !a.bind || BoundName(path) in old(host.files) - {path}
      ensures error in {Success, SocketCreationFailed, BindFailed, ListenFailed}
    {
      hide BoundName;
      host.files := host.files - {path};
      if !a.socket {
        return SocketCreationFailed;
      }
      if !a.bind || BoundName(path) in host.files {
        return BindFailed;
      }
      host.files := host.files[BoundName(path) := host.nextFile];
      host.nextFile := host.nextFile + 1;
      if !a.listen {
        host.files := host.files - {path};
        return ListenFailed;
      }
      if !a.nonBlocking {
        host.files := host.files - {path};
        return SocketCreationFailed;
      }
      error := Success;
    }

    /** Stop gives up what this server holds and nothing else; on an idle server it does nothing. */
    method Stop(host: Host)
      requires Valid()
      modifies this, host
      ensures Valid() && !running
      ensures old(running) ==> host.files == old(host.files) - {old(socketPath)} && host.lock == None
      ensures !old(running) ==> host.files == old(host.files) && host.lock == old(host.lock)
    {
      if listening {
        listening := false;
      }
      if socketPath != "" {
        host.files := host.files - {socketPath};
        socketPath := "";
      }
      if locked {
        host.lock := None;
        locked := false;
      }
      running := false;
    }
  }
}
