/**
 * One TCP connection (services/network/network.cpp): the send queue, the
 * partial-write loop, and the one-shot teardown, performed in place.
 */
module NetworkConnection {
  import opened Basics
  import opened BoundedQueue

  type Chunk = seq<byte>

  /** The codes a connection uses; `Ok` is SUCCESS and `Disconnected` is SHUTDOWN in the source. */
  datatype NetworkError =
    | Ok | BadArgument | SendFailed | ReceiveFailed | TimedOut | PeerClosed | SendQueueFull | Disconnected

  const SEND_QUEUE_CAPACITY := 64
  const MAX_CHUNK := 262144

  function Flatten(chunks: seq<Chunk>): seq<byte> {
    if chunks == [] then [] else chunks[0] + Flatten(chunks[1..])
  }

  lemma {:induction false} FlattenAppend(chunks: seq<Chunk>, c: Chunk)
    ensures Flatten(chunks + [c]) == Flatten(chunks) + c
  {
    if chunks == [] {
      assert chunks + [c] == [c];
      assert Flatten([c]) == c + Flatten([]);
    } else {
      FlattenAppend(chunks[1..], c);
      assert (chunks + [c])[1..] == chunks[1..] + [c];
    }
  }

  /** What ::send reports: bytes taken, or the errno that matters. A return of 0 counts as another error. */
  datatype SendResult = Wrote(count: nat) | Interrupted | WouldBlock | PeerGone | OtherError

  /** What one turn of the write loop leads to. */
  datatype Turn = Continue | Abort(reason: NetworkError)

  function PollTurn(p: PollResult): Turn {
    match p
    case Ready => Continue
    case PollTimedOut => Continue
    case PollInterrupted => Continue
    case PollFailed => Abort(SendFailed)
    case HangUp => Abort(PeerClosed)
  }

  /** The reply Send gives for the verdict of its queue. */
  function QueueVerdict(e: QueueError): NetworkError {
    match e
    case Success => Ok
    case QueueFull => SendQueueFull
    case QueueShutdown => Disconnected
    case QueueTimeout => Disconnected
  }

  predicate Sendable(data: Chunk, hasData: bool) {
    0 < |data| <= MAX_CHUNK && hasData
  }

  /** What ::recv reports once poll has said the socket is readable. */
  datatype RecvResult = Received(bytes: seq<byte>) | EndOfStream | Retry | Reset | RecvError

  datatype RecvReply = RecvReply(error: NetworkError, payload: Option<seq<byte>>, teardown: Option<NetworkError>)

  /**
   * Recv after the argument check: the answer, the payload if any, and the
   * reason it tears the connection down with, if it does.
   */
  function RecvSection(connected: bool, fdOpen: bool, poll: PollResult, io: RecvResult): (r: RecvReply)
    ensures r.error == Ok <==> r.payload.Some?
    ensures r.payload.Some? ==> connected && fdOpen && poll == Ready && io == Received(r.payload.value)
    ensures r.error == Disconnected <==> !connected || !fdOpen
    ensures r.teardown == if r.error in {PeerClosed, ReceiveFailed} then Some(r.error) else None
    ensures r.error == PeerClosed <==>
      connected && fdOpen && (poll == HangUp || (poll == Ready && (io == EndOfStream || io == Reset)))
    ensures r.error == ReceiveFailed <==>
      connected && fdOpen && (poll == PollFailed || (poll == Ready && io == RecvError))
  {
    if !connected || !fdOpen then RecvReply(Disconnected, None, None)
    else match poll
      case PollTimedOut => RecvReply(TimedOut, None, None)
      case PollInterrupted => RecvReply(TimedOut, None, None)
      case PollFailed => RecvReply(ReceiveFailed, None, Some(ReceiveFailed))
      case HangUp => RecvReply(PeerClosed, None, Some(PeerClosed))
      case Ready =>
        match io
        case Received(bytes) => RecvReply(Ok, Some(bytes), None)
        case EndOfStream => RecvReply(PeerClosed, None, Some(PeerClosed))
        case Retry => RecvReply(TimedOut, None, None)
        case Reset => RecvReply(PeerClosed, None, Some(PeerClosed))
        case RecvError => RecvReply(ReceiveFailed, None, Some(ReceiveFailed))
  }

  /** One attempt of the write loop, as the operating system and the poll answer it. */
  datatype Attempt = Attempt(stop: bool, io: SendResult, poll: PollResult)

  /** The attempt neither ends the loop nor breaks the connection. */
  predicate GoesOn(a: Attempt) {
    && !a.stop
    && (a.io.Wrote? || a.io == Interrupted
        || (a.io == WouldBlock && (a.poll == Ready || a.poll == PollTimedOut || a.poll == PollInterrupted)))
  }

  predicate FindsPeerGone(a: Attempt) {
    !a.stop && (a.io == PeerGone || (a.io == WouldBlock && a.poll == HangUp))
  }

  predicate FindsError(a: Attempt) {
    !a.stop && (a.io == OtherError || (a.io == WouldBlock && a.poll == PollFailed))
  }

  /** How many bytes the writes among these attempts took. */
  function TakenBy(script: seq<Attempt>): nat {
    if script == [] then 0
    else
      var last := script[|script| - 1];
      TakenBy(script[..|script| - 1]) + (if !last.stop && last.io.Wrote? then last.io.count else 0)
  }

  lemma TakenStep(script: seq<Attempt>, n: nat)
    requires n < |script|
    ensures TakenBy(script[..n + 1]) ==
      TakenBy(script[..n]) + (if !script[n].stop && script[n].io.Wrote? then script[n].io.count else 0)
  {
    assert script[..n + 1][..n] == script[..n];
  }

  lemma NothingTaken(script: seq<Attempt>)
    ensures TakenBy(script[..0]) == 0
  {
  }

  datatype Ending = AllSent | StopSeen | Failed(reason: NetworkError) | StillWriting

  /** The connection object, as one thread sees it between two steps of the others. */
  class Connection {
    var connected: bool
    var stopRequested: bool
    var fdOpen: bool
    const serverSide: bool
    const sendQueue: Queue<Chunk>
    var wire: seq<byte>

    constructor (serverSide: bool)
      ensures connected && fdOpen && !stopRequested && wire == [] && this.serverSide == serverSide
      ensures fresh(sendQueue) && sendQueue.View() == Create(SEND_QUEUE_CAPACITY)
      ensures sendQueue.capacity == 64 && sendQueue.items == [] && sendQueue.state == Running
    {
      connected := true;
      stopRequested := false;
      fdOpen := true;
      this.serverSide := serverSide;
      sendQueue := new Queue(SEND_QUEUE_CAPACITY);
      wire := [];
    }

    /** SUCCESS exactly when the chunk is now the last of the queue; otherwise the queue is as it was. */
    method Send(data: Chunk, hasData: bool) returns (error: NetworkError)
      modifies sendQueue
      ensures error == Ok ==> Sendable(data, hasData) && connected && sendQueue.items == old(sendQueue.items) + [data]
      ensures error != Ok ==> sendQueue.View() == old(sendQueue.View())
      ensures error == BadArgument <==> !Sendable(data, hasData)
      ensures error == Ok <==> Sendable(data, hasData) && connected && old(Appends(sendQueue.View()))
      ensures error == SendQueueFull <==>
        Sendable(data, hasData) && connected && sendQueue.state == Running
        && |old(sendQueue.items)| >= sendQueue.capacity
      ensures error in {Ok, BadArgument, SendQueueFull, Disconnected}
      ensures error == BadArgument <==> |data| == 0 || |data| > 262144 || !hasData
    {
      if |data| == 0 {
        return BadArgument;
      }
      if |data| > MAX_CHUNK {
        return BadArgument;
      }
      if !hasData {
        return BadArgument;
      }
      if !connected {
        return Disconnected;
      }
      var q, _ := sendQueue.Push(data);
      error := QueueVerdict(q);
    }

    /** The first caller takes the connection down; every later one changes nothing. */
    method Teardown(reason: NetworkError, expired: bool) returns (event: Option<NetworkError>)
      modifies this, sendQueue
      ensures wire == old(wire)
      ensures !old(connected) ==>
        event == None && unchanged(this) && unchanged(sendQueue)
      ensures old(connected) ==>
        && !connected && stopRequested && !fdOpen
        && sendQueue.View() == ShutdownSection(old(sendQueue.View()), Immediate).0
        && event == if serverSide && !expired then Some(reason) else None
    {
      if !connected {
        return None;
      }
      connected := false;
      stopRequested := true;
      var _ := sendQueue.Close(Immediate);
      if fdOpen {
        fdOpen := false;
      }
      if !serverSide {
        return None;
      }
      if expired {
        return None;
      }
      event := Some(reason);
    }

    /**
     * The inner loop of SendLoop on one chunk, for any script of partial
     * writes, interrupts and polls, `used` attempts of which it makes. What
     * reached the wire is a prefix of the chunk, as long as the writes say, and
     * all of it exactly when the loop ran to its end; the last attempt tells
     * how it ended, and every one before it went on.
     */
    method WriteChunk(chunk: Chunk, script: seq<Attempt>) returns (remaining: nat, ending: Ending, used: nat)
      requires forall a | a in script && a.io.Wrote? :: 0 < a.io.count
      modifies this`wire
      ensures remaining <= |chunk| && used <= |script|
      ensures wire == old(wire) + chunk[..|chunk| - remaining]
      ensures |chunk| - remaining == Least(|chunk|, TakenBy(script[..used]))
      ensures ending == AllSent <==> remaining == 0
      ensures forall j | 0 <= j < used - 1 :: GoesOn(script[j])
      ensures ending == StopSeen <==> used > 0 && script[used - 1].stop
      ensures ending == Failed(PeerClosed) <==> used > 0 && FindsPeerGone(script[used - 1])
      ensures ending == Failed(SendFailed) <==> used > 0 && FindsError(script[used - 1])
      ensures ending == StillWriting ==> used == |script| && (used > 0 ==> GoesOn(script[used - 1]))
      ensures ending.Failed? ==> ending.reason == PeerClosed || ending.reason == SendFailed
    {
      hide TakenBy;
      assert TakenBy(script[..0]) == 0 by { NothingTaken(script); }
      remaining := |chunk|;
      used := 0;
      while remaining > 0
        invariant remaining <= |chunk| && used <= |script|
        invariant wire == old(wire) + chunk[..|chunk| - remaining]
        invariant |chunk| - remaining == Least(|chunk|, TakenBy(script[..used]))
        invariant forall j | 0 <= j < used :: GoesOn(script[j])
        decreases |script| - used
      {
        if used == |script| {
          return remaining, StillWriting, used;
        }
        var a := script[used];
        assert a in script;
        TakenStep(script, used);
        used := used + 1;
        if a.stop {
          return remaining, StopSeen, used;
        }
        match a.io {
          case Wrote(count) =>
            var n := if count <= remaining then count else remaining;
            var from := |chunk| - remaining;
            OneMorePiece(old(wire), chunk, from, n);
            wire := wire + chunk[from..from + n];
            remaining := remaining - n;
          case Interrupted =>
          case WouldBlock =>
            var turn := PollTurn(a.poll);
            if turn.Abort? {
              return remaining, Failed(turn.reason), used;
            }
          case PeerGone =>
            return remaining, Failed(PeerClosed), used;
          case OtherError =>
            return remaining, Failed(SendFailed), used;
        }
      }
      ending := AllSent;
    }
  }
}
