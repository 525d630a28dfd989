/**
 * What becomes of a Join that waits while others join, detach and start: when
 * it is stranded, and when it joins a later epoch than it was called for.
 */
module ThreadJoins {
  import opened Basics
  import opened ThreadManager

  ghost predicate Waits(w: World, t: ThreadId) {
    t in w.joiners && w.joiners[t] == Waiting(false)
  }

  ghost predicate Succeeds(w: World, e: Event) {
    e.StartCalled? && StartSection(w.m, e.hasWorker, e.created).1 == Success
  }

  /** No step from `i` on and before `j` starts a worker. */
  ghost predicate NoneStarted(ws: seq<World>, es: seq<Event>, i: nat, j: nat) {
    forall m | i <= m < j && m < |es| && m < |ws| :: !Succeeds(ws[m], es[m])
  }

  // ---------------------------------------------------------------------------
  // Completion
  // ---------------------------------------------------------------------------

  /** As long as the thread of a posted worker is at hand, its completion is too. */
  ghost predicate CompletionInv(w: World) {
    w.m.thread.Some? && w.m.thread.value in w.workers && w.workers[w.m.thread.value] == Posted ==> w.m.finished
  }

  lemma StepKeepsCompletion(w: World, e: Event)
    requires LifeInv(w) && CompletionInv(w) && Enabled(w, e)
    ensures CompletionInv(Step(w, e))
  {
  }

  lemma {:induction false} RunKeepsCompletion(ws: seq<World>, es: seq<Event>, i: nat)
    requires IsRun(ws, es) && i < |ws|
    ensures CompletionInv(ws[i])
  {
    hide LifeInv, CompletionInv, IsRun, Enabled, Step;
    if i == 0 {
      assert CompletionInv(ws[0]) by { StartCompletion(ws, es); }
    } else {
      RunKeepsCompletion(ws, es, i - 1);
      RunKeepsInv(ws, es, i - 1);
      RunSteps(ws, es, i - 1);
      StepKeepsCompletion(ws[i - 1], es[i - 1]);
    }
  }

  lemma StartCompletion(ws: seq<World>, es: seq<Event>)
    requires IsRun(ws, es)
    ensures CompletionInv(ws[0])
  {
    assert ws[0] == IDLE;
  }

  /** Nothing has been posted that a Join could find, and nobody is left to post. */
  ghost predicate Silent(w: World) {
    !w.m.finished && AllPosted(w)
  }

  /** How a step enters or leaves silence: by a Start that fails, and by one that succeeds. */
  lemma StepOnSilence(w: World, e: Event)
    requires LifeInv(w) && CompletionInv(w) && Enabled(w, e)
    ensures Silent(Step(w, e)) <==> !Succeeds(w, e) && (Silent(w) || FailsWhenAllPosted(w, e))
  {
    if Succeeds(w, e) {
      assert w.m.nextEpoch in Step(w, e).workers && Step(w, e).workers[w.m.nextEpoch] == Working;
    }
    if e.WorkerReturns? {
      assert Step(w, e).workers[e.epoch] == FunctionReturned;
    }
  }

  /** A Start that gets as far as clearing the completion and then gets no thread, all workers having posted. */
  ghost predicate FailsWhenAllPosted(w: World, e: Event) {
    e.StartCalled? && StartSection(w.m, e.hasWorker, e.created).1 == ThreadCreationFailed && AllPosted(w)
  }

  // ---------------------------------------------------------------------------
  // Stranded
  // ---------------------------------------------------------------------------

  /** A run that goes on from `es` without starting a worker and sees the Join of `t` stop waiting. */
  ghost predicate ReturnsUnaided(es: seq<Event>, t: ThreadId, ws': seq<World>, es': seq<Event>) {
    IsRun(ws', es') && es <= es' && NoneStarted(ws', es', |es|, |es'|) && !Waits(ws'[|es'|], t)
  }

  lemma StepKeepsWaiting(w: World, e: Event, t: ThreadId)
    requires LifeInv(w) && CompletionInv(w) && Enabled(w, e) && Silent(w) && Waits(w, t) && !Succeeds(w, e)
    ensures Silent(Step(w, e)) && Waits(Step(w, e), t)
  {
    StepOnSilence(w, e);
  }

  lemma {:induction false} KeepsWaiting(ws: seq<World>, es: seq<Event>, i: nat, j: nat, t: ThreadId)
    requires IsRun(ws, es) && i <= j < |ws| && Silent(ws[i]) && Waits(ws[i], t) && NoneStarted(ws, es, i, j)
    ensures Silent(ws[j]) && Waits(ws[j], t)
    decreases j
  {
    hide IsRun, LifeInv, CompletionInv, Enabled, Step, Silent, Waits, Succeeds;
    if i < j {
      KeepsWaiting(ws, es, i, j - 1, t);
      RunSteps(ws, es, j - 1);
      RunKeepsInv(ws, es, j - 1);
      RunKeepsCompletion(ws, es, j - 1);
      StepKeepsWaiting(ws[j - 1], es[j - 1], t);
    }
  }

  /** With completion at hand a waiting Join gets through. */
  lemma GetsThrough(ws: seq<World>, es: seq<Event>, t: ThreadId) returns (ws': seq<World>, es': seq<Event>)
    requires IsRun(ws, es) && Waits(ws[|es|], t) && ws[|es|].m.finished
    ensures IsRun(ws', es') && es' == es + [JoinWakes(t, false)] && !Waits(ws'[|es'|], t)
  {
    ws', es' := Extend(ws, es, JoinWakes(t, false));
  }

  /**
   * A Join that waits without a time-out, in any state of any run, can return
   * without the help of another Start if and only if completion is at hand or
   * some worker has yet to post it.
   */
  lemma WaitingJoinReturnsUnlessSilent(ws: seq<World>, es: seq<Event>, t: ThreadId)
    requires IsRun(ws, es) && Waits(ws[|es|], t)
    ensures (exists ws', es' :: ReturnsUnaided(es, t, ws', es')) <==> !Silent(ws[|es|])
  {
    if Silent(ws[|es|]) {
      forall ws', es' | ReturnsUnaided(es, t, ws', es') ensures false {
        StrandedForGood(ws, es, t, ws', es');
      }
    } else {
      var ws', es' := ReturnUnaided(ws, es, t);
    }
  }

  lemma StrandedForGood(ws: seq<World>, es: seq<Event>, t: ThreadId, ws': seq<World>, es': seq<Event>)
    requires IsRun(ws, es) && Waits(ws[|es|], t) && ReturnsUnaided(es, t, ws', es')
    ensures !Silent(ws[|es|])
  {
    assert es[..|es|] == es;
    SameBeginning(ws, es, ws', es', |es|);
    if Silent(ws[|es|]) {
      KeepsWaiting(ws', es', |es|, |es'|, t);
    }
  }

  lemma ReturnUnaided(ws: seq<World>, es: seq<Event>, t: ThreadId) returns (ws': seq<World>, es': seq<Event>)
    requires IsRun(ws, es) && Waits(ws[|es|], t) && !Silent(ws[|es|])
    ensures ReturnsUnaided(es, t, ws', es')
  {
    ws', es' := ws, es;
    if !ws[|es|].m.finished {
      var x :| x in ws[|es|].workers && ws[|es|].workers[x] != Posted;
      ws', es' := StrayCompletes(ws, es, x);
    }
    var n := |es'|;
    assert forall m | |es| <= m < n :: !es'[m].StartCalled?;
    ws', es' := GetsThrough(ws', es', t);
    assert forall m | |es| <= m < |es'| :: !es'[m].StartCalled?;
  }

  /** Some Start since step `i` failed when all workers had posted, and none has succeeded since. */
  ghost predicate Silenced(ws: seq<World>, es: seq<Event>, i: nat, j: nat) {
    exists m :: i < m < j && SilencedAt(ws, es, m, j)
  }

  ghost predicate SilencedAt(ws: seq<World>, es: seq<Event>, m: nat, j: nat) {
    m < |es| && m < |ws| && FailsWhenAllPosted(ws[m], es[m]) && NoneStarted(ws, es, m + 1, j)
  }

  lemma SilencedUpTo(ws: seq<World>, es: seq<Event>, i: nat, j: nat)
    requires i < j < |es| && j < |ws|
    ensures Silenced(ws, es, i, j + 1) <==>
      !Succeeds(ws[j], es[j]) && (Silenced(ws, es, i, j) || FailsWhenAllPosted(ws[j], es[j]))
  {
    hide Succeeds, FailsWhenAllPosted;
    assert Succeeds(ws[j], es[j]) ==> !FailsWhenAllPosted(ws[j], es[j]) by { NotBoth(ws[j], es[j]); }
    if Silenced(ws, es, i, j + 1) {
      var m :| i < m < j + 1 && SilencedAt(ws, es, m, j + 1);
      if m < j {
        assert SilencedAt(ws, es, m, j);
      }
    }
    if !Succeeds(ws[j], es[j]) && FailsWhenAllPosted(ws[j], es[j]) {
      assert SilencedAt(ws, es, j, j + 1);
    }
    if !Succeeds(ws[j], es[j]) && Silenced(ws, es, i, j) {
      var m :| i < m < j && SilencedAt(ws, es, m, j);
      assert SilencedAt(ws, es, m, j + 1);
    }
  }

  lemma NotBoth(w: World, e: Event)
    ensures !(Succeeds(w, e) && FailsWhenAllPosted(w, e))
  {
  }

  /**
   * A Join stranded, told by the run's own events: one accepted at step `i` is
   * in such a silence at a later state `j` if and only if meanwhile a Start
   * failed to create its thread when all workers had posted, and no Start has
   * succeeded since. No Detach is needed for that, only a second Join.
   */
  lemma {:induction false} StrandedExactlyByAFailedStart(ws: seq<World>, es: seq<Event>, i: nat, j: nat)
    requires IsRun(ws, es) && i < |es| && es[i].JoinCalled? && ws[i].m.running && i < j < |ws|
    ensures Silent(ws[j]) <==> Silenced(ws, es, i, j)
    decreases j
  {
    hide IsRun, LifeInv, CompletionInv, Enabled, Step, Silent, Silenced, Succeeds, FailsWhenAllPosted;
    RunSteps(ws, es, j - 1);
    RunKeepsInv(ws, es, j - 1);
    RunKeepsCompletion(ws, es, j - 1);
    if j == i + 1 {
      NotSilentAtFirst(ws[i], es[i]);
      NothingBetween(ws, es, i);
    } else {
      StrandedExactlyByAFailedStart(ws, es, i, j - 1);
      StepOnSilence(ws[j - 1], es[j - 1]);
      SilencedUpTo(ws, es, i, j - 1);
    }
  }

  lemma NotSilentAtFirst(w: World, e: Event)
    requires LifeInv(w) && CompletionInv(w) && Enabled(w, e) && e.JoinCalled? && w.m.running
    ensures !Silent(Step(w, e))
  {
    assert w.m.thread.value in w.workers;
  }

  lemma NothingBetween(ws: seq<World>, es: seq<Event>, i: nat)
    ensures !Silenced(ws, es, i, i + 1)
  {
  }

  /** A second Join takes the completion, a Start gets no thread, and the first Join is left waiting. */
  lemma AJoinMayBeStranded() returns (ws: seq<World>, es: seq<Event>)
    ensures IsRun(ws, es) && DetachCalled !in es && Waits(ws[|es|], 1) && Silent(ws[|es|])
  {
    ws, es := [IDLE], [];
    assert IsRun(ws, es);
    hide IsRun;
    ws, es := Extend(ws, es, StartCalled(true, true));
    ws, es := Extend(ws, es, JoinCalled(1, false));
    ws, es := Extend(ws, es, JoinCalled(2, false));
    ws, es := Extend(ws, es, WorkerReturns(0));
    ws, es := Extend(ws, es, WorkerPosts(0));
    ws, es := Extend(ws, es, JoinWakes(2, false));
    ws, es := Extend(ws, es, StartCalled(true, false));
  }

  // ---------------------------------------------------------------------------
  // The wrong epoch
  // ---------------------------------------------------------------------------

  lemma StepOnEpoch(w: World, e: Event)
    requires Enabled(w, e)
    ensures Step(w, e).m.nextEpoch == w.m.nextEpoch + (if Succeeds(w, e) then 1 else 0)
  {
  }

  lemma {:induction false} EpochsCountStarts(ws: seq<World>, es: seq<Event>, i: nat, j: nat)
    requires IsRun(ws, es) && i <= j < |ws|
    ensures ws[i].m.nextEpoch <= ws[j].m.nextEpoch
    ensures ws[i].m.nextEpoch == ws[j].m.nextEpoch <==> NoneStarted(ws, es, i, j)
    decreases j
  {
    hide IsRun, Enabled, Step, Succeeds;
    if i < j {
      EpochsCountStarts(ws, es, i, j - 1);
      RunSteps(ws, es, j - 1);
      StepOnEpoch(ws[j - 1], es[j - 1]);
    }
  }

  /**
   * A Join accepted at step `i` and let through at step `j` joins the epoch that
   * was running when it was called if and only if no Start has succeeded in
   * between; otherwise it joins a later one.
   */
  lemma JoinsItsOwnEpochUnlessRestarted(ws: seq<World>, es: seq<Event>, i: nat, j: nat)
    requires IsRun(ws, es) && i < j < |es| && es[i].JoinCalled? && ws[i].m.running
    requires es[j].JoinWakes? && es[j].t == es[i].t
    requires es[j].t in ws[j + 1].joiners && ws[j + 1].joiners[es[j].t].InOsJoin?
    ensures ws[i].m.thread.Some? && ws[i].m.thread.value <= ws[j + 1].joiners[es[j].t].epoch
    ensures ws[j + 1].joiners[es[j].t].epoch == ws[i].m.thread.value <==> NoneStarted(ws, es, i, j)
  {
    RunKeepsInv(ws, es, i);
    RunKeepsInv(ws, es, j);
    RunSteps(ws, es, j);
    EpochsCountStarts(ws, es, i, j);
    hide IsRun, NoneStarted;
  }
}
