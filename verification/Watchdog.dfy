/**
 * The watchdog's monitor loop (framework/watchdog/watchdog.cpp): the hardware
 * timer is reset when the device is opened and by every kick, and must never
 * run out while the system is healthy. Times are in milliseconds.
 */
module Watchdog {

  type Time = int

  const POLL := 50

  datatype Verdict = Healthy | Unhealthy | Threw

  /** One turn of the loop: what the checkers say if asked, how long asking takes, how long the sleep lasts. */
  datatype Round = Round(verdicts: seq<Verdict>, checking: nat, sleep: nat)

  /** At the head of the loop: the clock, the next time to kick, and the timer resets so far. */
  datatype Clock = Clock(now: Time, nextKick: Time, resets: seq<Time>)

  function Interval(timeout: int): int {
    1000 * (if timeout / 2 < 1 then 1 else timeout / 2)
  }

  predicate AllHealthy(verdicts: seq<Verdict>) {
    verdicts != [] && forall v | v in verdicts :: v == Healthy
  }

  function Turn(c: Clock, timeout: int, r: Round): Clock {
    if c.now < c.nextKick then c.(now := c.now + r.sleep)
    else
      var asked := c.now + r.checking;
      Clock(asked + r.sleep, c.now + Interval(timeout), if AllHealthy(r.verdicts) then c.resets + [asked] else c.resets)
  }

  function Monitor(c: Clock, timeout: int, rounds: seq<Round>): Clock {
    if rounds == [] then c
    else Turn(Monitor(c, timeout, rounds[..|rounds| - 1]), timeout, rounds[|rounds| - 1])
  }

  /** The device is opened at `open`; the loop reads `start` for its first deadline and `first` on its first turn. */
  function Begin(open: Time, start: Time, first: Time, timeout: int): Clock {
    Clock(first, start + Interval(timeout), [open])
  }

  // ---------------------------------------------------------------------------
  // The loops
  // ---------------------------------------------------------------------------

  /** Ask the checkers in order, stopping at the first that is not healthy; true exactly if all of them are. */
  method CheckAllHealth(verdicts: seq<Verdict>) returns (healthy: bool, asked: nat)
    ensures healthy <==> AllHealthy(verdicts)
    ensures asked <= |verdicts| && (healthy ==> asked == |verdicts|)
    ensures !healthy && verdicts != [] ==>
      0 < asked && verdicts[asked - 1] != Healthy && forall i | 0 <= i < asked - 1 :: verdicts[i] == Healthy
  {
    asked := 0;
    if |verdicts| == 0 {
      return false, asked;
    }
    while asked < |verdicts|
      invariant asked <= |verdicts|
      invariant forall i | 0 <= i < asked :: verdicts[i] == Healthy
    {
      var v := verdicts[asked];
      asked := asked + 1;
      if v != Healthy {
        assert verdicts[asked - 1] in verdicts;
        return false, asked;
      }
    }
    healthy := true;
  }

  /** MonitorLoop for any sequence of turns before the stop request. */
  method MonitorLoop(open: Time, start: Time, first: Time, timeout: int, rounds: seq<Round>) returns (c: Clock)
    ensures c == Monitor(Begin(open, start, first, timeout), timeout, rounds)
    ensures rounds == [] ==> c.nextKick == start + 1000 * (if timeout >= 4 then timeout / 2 else 1)
  {
    var interval := 1000 * (if timeout / 2 < 1 then 1 else timeout / 2);
    var nextKick := start + interval;
    var now := first;
    var resets := [open];
    ghost var c0 := Begin(open, start, first, timeout);
    var k := 0;
    while k < |rounds|
      invariant k <= |rounds|
      invariant Clock(now, nextKick, resets) == Monitor(c0, timeout, rounds[..k])
    {
      var r := rounds[k];
      assert rounds[..k + 1][..k] == rounds[..k];
      if now >= nextKick {
        var healthy, _ := CheckAllHealth(r.verdicts);
        if healthy {
          resets := resets + [now + r.checking];
        }
        nextKick := now + interval;
        now := now + r.checking;
      }
      now := now + r.sleep;
      k := k + 1;
    }
    assert rounds[..k] == rounds;
    c := Clock(now, nextKick, resets);
  }

  /**
   * One turn, in seconds of the timeout: before its deadline it only sleeps; at
   * or after it, it asks, kicks exactly if everybody is healthy, and sets the
   * next deadline half the timeout, and at least a second, after its reading.
   */
  lemma TurnIsExact(c: Clock, timeout: int, r: Round)
    ensures var c', half := Turn(c, timeout, r), if timeout >= 4 then timeout / 2 else 1;
      if c.now < c.nextKick then c' == Clock(c.now + r.sleep, c.nextKick, c.resets)
      else
        && c'.now == c.now + r.checking + r.sleep && c'.nextKick == c.now + 1000 * half
        && c'.resets ==
             if r.verdicts != [] && (forall i | 0 <= i < |r.verdicts| :: r.verdicts[i] == Healthy)
             then c.resets + [c.now + r.checking] else c.resets
  {
    if AllHealthy(r.verdicts) {
      assert forall i | 0 <= i < |r.verdicts| :: r.verdicts[i] in r.verdicts;
    }
  }

  /** The first deadline is half the timeout, and at least a second, after the loop starts. */
  lemma FirstDeadline(open: Time, start: Time, first: Time, timeout: int)
    ensures Begin(open, start, first, timeout) ==
      Clock(first, start + 1000 * (if timeout >= 4 then timeout / 2 else 1), [open])
  {
  }

  // ---------------------------------------------------------------------------
  // The margin
  // ---------------------------------------------------------------------------

  /** Bounds on start-up delay, on how far a sleep or the first turn overshoots, and on checking. */
  datatype Delays = Delays(startUp: nat, overshoot: nat, checking: nat)

  ghost predicate Slack(timeout: int, d: Delays) {
    2 * (d.startUp + d.overshoot + d.checking + POLL) < 1000 * timeout
  }

  ghost predicate Timely(r: Round, d: Delays) {
    POLL <= r.sleep <= POLL + d.overshoot && r.checking <= d.checking
  }

  ghost function Last(resets: seq<Time>): Time
    requires resets != []
  {
    resets[|resets| - 1]
  }

  ghost predicate GapsBelow(resets: seq<Time>, bound: int) {
    forall i | 0 <= i < |resets| - 1 :: resets[i] <= resets[i + 1] < resets[i] + bound
  }

  /**
   * The deadline was set at most the start-up delay after the last reset, and
   * the loop reads the clock at most one poll late, after it or after the reset.
   */
  ghost predicate OnTime(c: Clock, timeout: int, d: Delays) {
    && c.resets != [] && GapsBelow(c.resets, 1000 * timeout)
    && c.nextKick - Interval(timeout) - Last(c.resets) <= d.startUp
    && Last(c.resets) <= c.now
    && (c.now < c.nextKick + POLL + d.overshoot || c.now <= Last(c.resets) + POLL + d.overshoot)
  }

  lemma TurnKeepsOnTime(c: Clock, timeout: int, r: Round, d: Delays)
    requires timeout >= 2 && Slack(timeout, d) && OnTime(c, timeout, d) && Timely(r, d) && AllHealthy(r.verdicts)
    ensures OnTime(Turn(c, timeout, r), timeout, d)
  {
    assert Interval(timeout) <= 500 * timeout;
    var c' := Turn(c, timeout, r);
    if c.now >= c.nextKick {
      var k := c.now + r.checking;
      assert c'.resets == c.resets + [k];
      assert k < Last(c.resets) + 1000 * timeout;
    }
  }

  lemma {:induction false} MonitorIsOnTime(c: Clock, timeout: int, rounds: seq<Round>, d: Delays)
    requires timeout >= 2 && Slack(timeout, d) && OnTime(c, timeout, d)
    requires forall r | r in rounds :: Timely(r, d) && AllHealthy(r.verdicts)
    ensures OnTime(Monitor(c, timeout, rounds), timeout, d)
  {
    if rounds != [] {
      var init, last := rounds[..|rounds| - 1], rounds[|rounds| - 1];
      assert forall r | r in init :: r in rounds;
      assert last in rounds;
      MonitorIsOnTime(c, timeout, init, d);
      hide OnTime;
      TurnKeepsOnTime(Monitor(c, timeout, init), timeout, last, d);
    }
  }

  /**
   * For every timeout of at least two seconds: if start-up delay, overshoot,
   * checking time and poll together stay below half of it and every round is
   * healthy, then any two successive timer resets are less than the timeout
   * apart, and whenever the loop reads the clock the timer has not run out.
   */
  lemma TimerNeverRunsOut(open: Time, start: Time, first: Time, timeout: int, rounds: seq<Round>, d: Delays)
    requires timeout >= 2 && Slack(timeout, d)
    requires open <= start <= open + d.startUp && start <= first <= start + d.overshoot
    requires forall r | r in rounds :: Timely(r, d) && AllHealthy(r.verdicts)
    ensures var c := Monitor(Begin(open, start, first, timeout), timeout, rounds);
      c.resets != [] && GapsBelow(c.resets, 1000 * timeout) && c.now < Last(c.resets) + 1000 * timeout
  {
    assert Interval(timeout) <= 500 * timeout;
    MonitorIsOnTime(Begin(open, start, first, timeout), timeout, rounds, d);
  }

  /**
   * With a timeout of one second there is no such margin: the first kick never
   * comes less than a full timeout after the open.
   */
  lemma OneSecondHasNoMargin(open: Time, start: Time, first: Time, rounds: seq<Round>)
    requires open <= start
    ensures var c := Monitor(Begin(open, start, first, 1), 1, rounds);
      c.resets != [] && (|c.resets| > 1 ==> c.resets[1] - c.resets[0] >= 1000)
  {
    FirstKickIsLate(Begin(open, start, first, 1), 1, rounds);
  }

  lemma {:induction false} FirstKickIsLate(c: Clock, timeout: int, rounds: seq<Round>)
    requires |c.resets| == 1
    ensures var c' := Monitor(c, timeout, rounds);
      && |c'.resets| >= 1 && c'.resets[0] == c.resets[0] && (|c'.resets| > 1 ==> c'.resets[1] >= c.nextKick)
      && c'.nextKick >= c.nextKick
  {
    if rounds != [] {
      FirstKickIsLate(c, timeout, rounds[..|rounds| - 1]);
    }
  }

  /** A healthy turn that loses no time. */
  const IDEAL := Round([Healthy], 0, POLL)

  ghost predicate AllIdeal(rounds: seq<Round>) {
    forall r | r in rounds :: AllHealthy(r.verdicts) && r.checking == 0 && r.sleep == POLL
  }

  /** However long it runs without losing any time, successive resets are less than the timeout apart. */
  ghost predicate HasMargin(timeout: int) {
    forall open: Time, rounds | AllIdeal(rounds) ::
      GapsBelow(Monitor(Begin(open, open, open, timeout), timeout, rounds).resets, 1000 * timeout)
  }

  lemma {:induction false} BeforeTheFirstKick(timeout: int, n: nat)
    requires timeout < 2 && n <= 20
    ensures Monitor(Begin(0, 0, 0, timeout), timeout, seq(n, i => IDEAL)) == Clock(POLL * n, 1000, [0])
  {
    var rounds := seq(n, i => IDEAL);
    if n > 0 {
      BeforeTheFirstKick(timeout, n - 1);
      assert rounds[..n - 1] == seq(n - 1, i => IDEAL);
    }
  }

  lemma TheFirstKick(timeout: int) returns (rounds: seq<Round>)
    requires timeout < 2
    ensures AllIdeal(rounds) && Monitor(Begin(0, 0, 0, timeout), timeout, rounds).resets == [0, 1000]
  {
    rounds := seq(21, i => IDEAL);
    BeforeTheFirstKick(timeout, 20);
    assert rounds[..20] == seq(20, i => IDEAL);
  }

  /** So there is a margin at all exactly for timeouts of two seconds and more. */
  lemma MarginExactlyFromTwoSeconds(timeout: int)
    ensures HasMargin(timeout) <==> timeout >= 2
  {
    if timeout >= 2 {
      forall open: Time, rounds | AllIdeal(rounds)
        ensures GapsBelow(Monitor(Begin(open, open, open, timeout), timeout, rounds).resets, 1000 * timeout)
      {
        TimerNeverRunsOut(open, open, open, timeout, rounds, Delays(0, 0, 0));
      }
    } else {
      var rounds := TheFirstKick(timeout);
      var resets := Monitor(Begin(0, 0, 0, timeout), timeout, rounds).resets;
      assert !(resets[0 + 1] < resets[0] + 1000 * timeout);
      assert !GapsBelow(resets, 1000 * timeout);
    }
  }

  /**
   * Every kick is earned: a reset after the open was made by a turn that found
   * its deadline passed and all checkers healthy, right after asking them.
   */
  lemma {:induction false} EveryKickIsEarned(c: Clock, timeout: int, rounds: seq<Round>, k: nat) returns (i: nat)
    requires |c.resets| <= k < |Monitor(c, timeout, rounds).resets|
    ensures i < |rounds| && AllHealthy(rounds[i].verdicts)
    ensures var before := Monitor(c, timeout, rounds[..i]);
      before.now >= before.nextKick && Monitor(c, timeout, rounds).resets[k] == before.now + rounds[i].checking
  {
    var n := |rounds| - 1;
    assert rounds != [];
    if k < |Monitor(c, timeout, rounds[..n]).resets| {
      i := EveryKickIsEarned(c, timeout, rounds[..n], k);
      assert rounds[..n][..i] == rounds[..i];
    } else {
      i := n;
    }
  }

  /**
   * A kick needs every checker. Over turns none of which finds all checkers
   * healthy the timer is not reset at all, so the hardware fires.
   */
  lemma {:induction false} NoKickWithoutHealth(c: Clock, timeout: int, rounds: seq<Round>)
    requires forall r | r in rounds :: !AllHealthy(r.verdicts)
    ensures Monitor(c, timeout, rounds).resets == c.resets
  {
    if rounds != [] {
      var init, last := rounds[..|rounds| - 1], rounds[|rounds| - 1];
      assert forall r | r in init :: r in rounds;
      assert last in rounds;
      NoKickWithoutHealth(c, timeout, init);
    }
  }

  // ---------------------------------------------------------------------------
  // Registration
  // ---------------------------------------------------------------------------

  class Watchdog {
    var checkers: seq<string>
    var running: bool

    ghost predicate Valid()
      reads this
    {
      && (forall i, j | 0 <= i < j < |checkers| :: checkers[i] != checkers[j])
      && (forall name | name in checkers :: name != "")
    }

    constructor ()
      ensures Valid() && checkers == [] && !running
    {
      checkers, running := [], false;
    }

    /** Refused while running, without a name or a function, or for a name already taken. */
    method RegisterChecker(name: string, hasChecker: bool) returns (ok: bool)
      requires Valid()
      modifies this
      ensures Valid() && running == old(running)
      ensures ok <==> !running && name != "" && hasChecker && name !in old(checkers)
      ensures checkers == if ok then old(checkers) + [name] else old(checkers)
    {
      if running {
        return false;
      }
      if name == "" || !hasChecker {
        return false;
      }
      for i := 0 to |checkers|
        invariant name !in checkers[..i]
      {
        if checkers[i] == name {
          return false;
        }
      }
      checkers := checkers + [name];
      ok := true;
    }
  }
}
