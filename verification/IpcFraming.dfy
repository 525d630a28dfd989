/**
 * Length-prefixed framing over a Unix stream socket
 * (framework/ipc/ipc_socket.cpp): the header code, the read and write loops and
 * the framed Send and Recv, for every way the kernel may fragment them.
 */
module IpcFraming {
  import opened Basics
  import opened IpcErrors

  type Payload = seq<byte>

  type Time = int

  const MAX_MESSAGE := 1048576
  const HEADER_SIZE := 4
  const U32 := 0x1_0000_0000

  // ---------------------------------------------------------------------------
  // The header code
  // ---------------------------------------------------------------------------

  /** Big-endian: shifting right by 8n and masking is dividing by 256^n and reducing modulo 256. */
  function EncodeHeader(len: nat): (h: seq<byte>)
    ensures |h| == 4
    ensures len < U32 ==>
      0x100_0000 * h[0] as int + 0x1_0000 * h[1] as int + 0x100 * h[2] as int + h[3] as int == len
  {
    HeaderDigits(len);
    [(len / 0x100_0000) % 256, (len / 0x1_0000) % 256, (len / 0x100) % 256, len % 256]
  }

  lemma HeaderDigits(len: nat)
    ensures len < U32 ==>
      0x100_0000 * ((len / 0x100_0000) % 256) + 0x1_0000 * ((len / 0x1_0000) % 256)
        + 0x100 * ((len / 0x100) % 256) + len % 256 == len
  {
    var a, b, c := len / 0x100, len / 0x1_0000, len / 0x100_0000;
    assert b == a / 0x100 && c == b / 0x100;
  }

  function DecodeHeader(h: seq<byte>): (len: nat)
    requires |h| == HEADER_SIZE
    ensures len < U32
  {
    (h[0] as int) * 0x100_0000 + (h[1] as int) * 0x1_0000 + (h[2] as int) * 0x100 + h[3] as int
  }

  lemma DecodeUndoesEncode(len: nat)
    requires len < U32
    ensures DecodeHeader(EncodeHeader(len)) == len
  {
    var a, b, c := len / 0x100, len / 0x1_0000, len / 0x100_0000;
    assert b == a / 0x100 && c == b / 0x100;
  }

  lemma EncodeUndoesDecode(h: seq<byte>)
    requires |h| == HEADER_SIZE
    ensures EncodeHeader(DecodeHeader(h)) == h
  {
    var len := DecodeHeader(h);
    assert len / 0x100 == (h[0] as int) * 0x1_0000 + (h[1] as int) * 0x100 + h[2] as int;
    assert len / 0x1_0000 == (h[0] as int) * 0x100 + h[1] as int;
    assert len / 0x100_0000 == h[0];
  }

  // ---------------------------------------------------------------------------
  // Frames
  // ---------------------------------------------------------------------------

  function Frame(p: Payload): seq<byte> {
    EncodeHeader(|p|) + p
  }

  function Frames(ps: seq<Payload>): seq<byte> {
    if ps == [] then [] else Frame(ps[0]) + Frames(ps[1..])
  }

  ghost predicate AllFit(ps: seq<Payload>) {
    forall p | p in ps :: |p| <= MAX_MESSAGE
  }

  lemma {:induction false} FramesAppend(ps: seq<Payload>, p: Payload)
    ensures Frames(ps + [p]) == Frames(ps) + Frame(p)
  {
    if ps == [] {
      assert ps + [p] == [p];
      assert Frames([p]) == Frame(p) + Frames([]);
    } else {
      FramesAppend(ps[1..], p);
      assert (ps + [p])[1..] == ps[1..] + [p];
    }
  }

  /** Two frames that start at the same place of a stream are the same frame. */
  lemma FrameIsUnique(p: Payload, q: Payload, s: seq<byte>)
    requires |p| < U32 && |q| < U32 && Frame(p) <= s && Frame(q) <= s
    ensures p == q
  {
    hide EncodeHeader, DecodeHeader;
    assert EncodeHeader(|p|) == Frame(p)[..HEADER_SIZE] == s[..HEADER_SIZE];
    assert EncodeHeader(|q|) == Frame(q)[..HEADER_SIZE] == s[..HEADER_SIZE];
    DecodeUndoesEncode(|p|);
    DecodeUndoesEncode(|q|);
    assert Frame(p) == s[..HEADER_SIZE + |p|] == Frame(q);
    assert p == Frame(p)[HEADER_SIZE..] && q == Frame(q)[HEADER_SIZE..];
  }

  /** Frames are a prefix code: a sequence of frames found at the head of another is its beginning. */
  lemma {:induction false} FramesAreAPrefixCode(r: seq<Payload>, s: seq<Payload>)
    requires (forall p | p in r :: |p| < U32) && (forall p | p in s :: |p| < U32)
    requires Frames(r) <= Frames(s)
    ensures r <= s
    decreases |r|
  {
    if r != [] {
      hide EncodeHeader;
      assert Frames(r) == Frame(r[0]) + Frames(r[1..]);
      assert |Frame(r[0])| >= HEADER_SIZE;
      assert s != [];
      assert Frames(s) == Frame(s[0]) + Frames(s[1..]);
      var all := Frames(s);
      assert Frame(r[0]) <= all && Frame(s[0]) <= all;
      assert r[0] in r && s[0] in s;
      FrameIsUnique(r[0], s[0], all);
      var n := |Frame(r[0])|;
      assert Frames(r[1..]) == Frames(r)[n..] && Frames(s[1..]) == Frames(s)[n..];
      FramesAreAPrefixCode(r[1..], s[1..]);
      assert r == [r[0]] + r[1..] && s == [s[0]] + s[1..];
    }
  }

  // ---------------------------------------------------------------------------
  // Waiting
  // ---------------------------------------------------------------------------

  const NANOS := 1_000_000

  /** static_cast<int>: the value modulo 2^32, read as a signed 32-bit number. */
  function ToInt32(x: int): int {
    (x + 0x8000_0000) % U32 - 0x8000_0000
  }

  /** The milliseconds handed to ::poll when the clock reads `now`, before the deadline. */
  function PollWait(deadline: Time, now: Time): int {
    ToInt32((deadline - now) / NANOS)
  }

  function Deadline(start: Time, timeoutMs: int): Time {
    start + timeoutMs * NANOS
  }

  /**
   * A wait lies between 0 and the time left exactly when the remaining
   * milliseconds, modulo 2^32, are below 2^31.
   */
  lemma PollWaitExact(deadline: Time, now: Time)
    requires now < deadline
    ensures InTime(deadline, now, PollWait(deadline, now)) <==> ((deadline - now) / NANOS) % U32 < 0x8000_0000
    ensures deadline - now < 0x8000_0000 * NANOS ==>
      var w := PollWait(deadline, now); w * 1_000_000 <= deadline - now < (w + 1) * 1_000_000
  {
    var ms := (deadline - now) / NANOS;
    assert ms * NANOS <= deadline - now;
    var q, r := ms / U32, ms % U32;
    assert ms == q * U32 + r;
    if r < 0x8000_0000 {
      assert (ms + 0x8000_0000) % U32 == r + 0x8000_0000;
    } else {
      assert ms + 0x8000_0000 == (q + 1) * U32 + (r - 0x8000_0000);
      assert (ms + 0x8000_0000) % U32 == r - 0x8000_0000;
    }
  }

  /** A wait of `ms` milliseconds, begun at `now`, ends by the deadline. */
  predicate InTime(deadline: Time, now: Time, ms: int) {
    0 <= ms && ms * NANOS <= deadline - now
  }

  lemma PollWaitIsSound(start: Time, timeoutMs: int, now: Time)
    requires timeoutMs < 0x8000_0000 && start <= now < Deadline(start, timeoutMs)
    ensures InTime(Deadline(start, timeoutMs), now, PollWait(Deadline(start, timeoutMs), now))
  {
    PollWaitExact(Deadline(start, timeoutMs), now);
  }

  /** With any larger timeout some clock reading makes the wait negative, that is, without end. */
  lemma PollWaitOverflows(start: Time, timeoutMs: int) returns (now: Time)
    requires timeoutMs >= 0x8000_0000
    ensures start <= now < Deadline(start, timeoutMs) && PollWait(Deadline(start, timeoutMs), now) < 0
  {
    now := Deadline(start, timeoutMs) - 0x8000_0000 * NANOS;
  }

  /**
   * What a caller can check before the call: every wait a Send or Recv may ask
   * for is within the time left if and only if the timeout fits an int of
   * milliseconds.
   */
  lemma TimeoutIsSafeIfItFits(start: Time, timeoutMs: int)
    ensures timeoutMs < 0x8000_0000 <==>
      forall now | start <= now < Deadline(start, timeoutMs) ::
        InTime(Deadline(start, timeoutMs), now, PollWait(Deadline(start, timeoutMs), now))
  {
    hide PollWait, Deadline;
    if timeoutMs < 0x8000_0000 {
      forall now | start <= now < Deadline(start, timeoutMs)
        ensures InTime(Deadline(start, timeoutMs), now, PollWait(Deadline(start, timeoutMs), now))
      {
        PollWaitIsSound(start, timeoutMs, now);
      }
    } else {
      var now := PollWaitOverflows(start, timeoutMs);
      assert !InTime(Deadline(start, timeoutMs), now, PollWait(Deadline(start, timeoutMs), now));
    }
  }

  // ---------------------------------------------------------------------------
  // The loops
  // ---------------------------------------------------------------------------

  /** The answer of one ::send or ::recv; `now` is the clock read after EAGAIN. */
  datatype Io =
    | Moved(count: nat)
    | EndOfStream
    | Interrupted
    | WouldBlock(now: Time, poll: PollResult)
    | BrokenPipe
    | OtherError

  /** The clock readings a call may make while it gets these answers. */
  function Readings(script: seq<Io>): set<Time> {
    set io | io in script && io.WouldBlock? :: io.now
  }

  /** Every wait is what the code computes from a reading, taken before the deadline. */
  ghost predicate Computed(waits: seq<(Time, int)>, deadline: Time, readings: set<Time>) {
    forall w | w in waits :: w.0 in readings && w.0 < deadline && w.1 == PollWait(deadline, w.0)
  }

  lemma OneMoreWait(waits: seq<(Time, int)>, deadline: Time, script: seq<Io>, k: nat)
    requires Computed(waits, deadline, Readings(script))
    requires k < |script| && script[k].WouldBlock? && script[k].now < deadline
    ensures Computed(waits + [(script[k].now, PollWait(deadline, script[k].now))], deadline, Readings(script))
  {
    hide PollWait;
    assert script[k] in script;
  }

  ghost predicate AllInTime(waits: seq<(Time, int)>, deadline: Time) {
    forall w | w in waits :: InTime(deadline, w.0, w.1)
  }

  /** The waits of a whole call whose clock never reads less than at its start. */
  lemma WaitsAreSound(start: Time, timeoutMs: int, waits: seq<(Time, int)>, readings: set<Time>)
    requires Computed(waits, Deadline(start, timeoutMs), readings)
    ensures timeoutMs < 0x8000_0000 && (forall t | t in readings :: start <= t) ==>
      AllInTime(waits, Deadline(start, timeoutMs))
  {
    hide PollWait, Deadline, InTime;
    if timeoutMs < 0x8000_0000 && forall t | t in readings :: start <= t {
      forall w | w in waits ensures InTime(Deadline(start, timeoutMs), w.0, w.1) {
        PollWaitIsSound(start, timeoutMs, w.0);
      }
    }
  }

  /** What a turn that moved no byte leads to: an error to return, or another turn. */
  function Stalled(io: Io, deadline: Time, failure: IpcError): Option<IpcError> {
    match io
    case WouldBlock(now, poll) =>
      if now >= deadline then Some(Timeout)
      else (match poll
            case PollTimedOut => Some(Timeout)
            case PollFailed => Some(failure)
            case _ => None)
    case _ => None
  }

  /** The attempt moves something, or is to be made again. */
  predicate GoesOn(io: Io, deadline: Time) {
    || (io.Moved? && io.count > 0)
    || io == Interrupted
    || (io.WouldBlock? && io.now < deadline && (io.poll == Ready || io.poll == PollInterrupted || io.poll == HangUp))
  }

  predicate TimesOut(io: Io, deadline: Time) {
    io.WouldBlock? && (io.now >= deadline || io.poll == PollTimedOut)
  }

  predicate PollFails(io: Io, deadline: Time) {
    io.WouldBlock? && io.now < deadline && io.poll == PollFailed
  }

  /** What a ::send that ends WriteAll short of its end stands for. */
  predicate WriteCause(io: Io, deadline: Time, error: IpcError) {
    match error
    case Timeout => TimesOut(io, deadline)
    case PeerClosed => io == BrokenPipe
    case SendFailed => PollFails(io, deadline) || io == OtherError || io == EndOfStream || io == Moved(0)
    case _ => false
  }

  /** What a ::recv that ends ReadAll short of its end stands for. */
  predicate ReadCause(io: Io, deadline: Time, error: IpcError) {
    match error
    case Timeout => TimesOut(io, deadline)
    case PeerClosed => io == EndOfStream || io.Moved?
    case ReceiveFailed => PollFails(io, deadline) || io == OtherError || io == BrokenPipe
    case _ => false
  }

  /** The first `used` answers were used, and all but the last of them went on. */
  ghost predicate WentOn(script: seq<Io>, used: nat, deadline: Time) {
    used <= |script| && forall j | 0 <= j < used - 1 :: GoesOn(script[j], deadline)
  }

  /** How many bytes these answers say were moved. */
  function MovedBy(script: seq<Io>): nat {
    if script == [] then 0
    else
      var last := script[|script| - 1];
      MovedBy(script[..|script| - 1]) + (if last.Moved? then last.count else 0)
  }

  lemma MovedStep(script: seq<Io>, n: nat)
    requires n < |script|
    ensures MovedBy(script[..n + 1]) == MovedBy(script[..n]) + (if script[n].Moved? then script[n].count else 0)
  {
    assert script[..n + 1][..n] == script[..n];
  }

  /** As long as the answers speak of no more than there is, as much has been read as they say and as was asked for. */
  ghost predicate AsMoved(read: nat, size: nat, moved: nat, there: int) {
    moved <= there ==> read == Least(size, moved)
  }

  lemma NothingMoved(size: nat, there: nat)
    ensures AsMoved(0, size, 0, there)
  {
  }

  lemma OneMoreMove(read: nat, size: nat, moved: nat, there: int, count: nat, n: nat)
    requires AsMoved(read, size, moved, there) && read <= size && read <= there
    requires n == Least(Least(count, size - read), there - read)
    ensures AsMoved(read + n, size, moved + count, there)
  {
  }

  lemma NothingYet(script: seq<Io>, deadline: Time)
    ensures MovedBy(script[..0]) == 0 && Computed([], deadline, Readings(script))
  {
  }

  /** A connected stream: the bytes put on it so far, and how many the reader has taken. */
  class Channel {
    var stream: seq<byte>
    var taken: nat

    ghost predicate Valid()
      reads this
    {
      taken <= |stream|
    }

    constructor ()
      ensures Valid() && stream == [] && taken == 0
    {
      stream := [];
      taken := 0;
    }

    /**
     * WriteAll for any script of kernel answers, `used` of which it gets. A
     * prefix of the data is on the stream, as long as the answers say, and the
     * whole of it exactly on SUCCESS; any other result is what the last answer
     * stands for. `None` means the script ended with the loop still running.
     */
    method WriteAll(data: seq<byte>, deadline: Time, script: seq<Io>)
      returns (result: Option<IpcError>, sent: nat, waits: seq<(Time, int)>, used: nat)
      modifies this`stream
      ensures sent <= |data| && stream == old(stream) + data[..sent]
      ensures result == Some(Success) <==> sent == |data|
      ensures WentOn(script, used, deadline) && sent == Least(|data|, MovedBy(script[..used]))
      ensures result == None ==> used == |script| && (used > 0 ==> GoesOn(script[used - 1], deadline))
      ensures result.Some? && result != Some(Success) ==>
        used > 0 && WriteCause(script[used - 1], deadline, result.value)
      ensures Computed(waits, deadline, Readings(script))
    {
      hide PollWait, Computed, Readings, MovedBy;
      assert MovedBy(script[..0]) == 0 && Computed([], deadline, Readings(script)) by { NothingYet(script, deadline); }
      sent, waits, used := 0, [], 0;
      while sent < |data|
        invariant sent <= |data| && used <= |script|
        invariant stream == old(stream) + data[..sent] && sent == Least(|data|, MovedBy(script[..used]))
        invariant forall j | 0 <= j < used :: GoesOn(script[j], deadline)
        invariant Computed(waits, deadline, Readings(script))
        decreases |script| - used
      {
        if used == |script| {
          return None, sent, waits, used;
        }
        var io := script[used];
        MovedStep(script, used);
        used := used + 1;
        match io {
          case Moved(count) =>
            var n := if count <= |data| - sent then count else |data| - sent;
            if n == 0 {
              return Some(SendFailed), sent, waits, used;
            }
            OneMorePiece(old(stream), data, sent, n);
            stream := stream + data[sent..sent + n];
            sent := sent + n;
          case Interrupted =>
          case WouldBlock(now, poll) =>
            if now < deadline {
              OneMoreWait(waits, deadline, script, used - 1);
              waits := waits + [(now, PollWait(deadline, now))];
            }
            var stop := Stalled(io, deadline, SendFailed);
            if stop.Some? {
              return stop, sent, waits, used;
            }
          case BrokenPipe =>
            return Some(PeerClosed), sent, waits, used;
          case _ =>
            return Some(SendFailed), sent, waits, used;
        }
      }
      result := Some(Success);
    }

    /**
     * ReadAll likewise. The buffer holds the next bytes of the stream, as many
     * as were taken from it, and `size` of them exactly on SUCCESS. A read never
     * delivers more than the peer has put on the stream, and one that delivers
     * nothing says that the peer has closed it.
     */
    method ReadAll(size: nat, deadline: Time, script: seq<Io>)
      returns (result: Option<IpcError>, buffer: seq<byte>, waits: seq<(Time, int)>, used: nat)
      requires Valid()
      modifies this`taken
      ensures Valid() && |buffer| <= size && taken == old(taken) + |buffer|
      ensures buffer == stream[old(taken)..taken]
      ensures result == Some(Success) <==> |buffer| == size
      ensures WentOn(script, used, deadline)
      ensures AsMoved(|buffer|, size, MovedBy(script[..used]), |stream| - old(taken))
      ensures result == None ==> used == |script| && (used > 0 ==> GoesOn(script[used - 1], deadline))
      ensures result.Some? && result != Some(Success) ==>
        used > 0 && ReadCause(script[used - 1], deadline, result.value)
      ensures result == Some(PeerClosed) && script[used - 1].Moved? ==>
        script[used - 1].count == 0 || taken == |stream|
      ensures Computed(waits, deadline, Readings(script))
    {
      hide PollWait, Computed, Readings, MovedBy, AsMoved;
      assert MovedBy(script[..0]) == 0 && Computed([], deadline, Readings(script)) by { NothingYet(script, deadline); }
      assert AsMoved(0, size, 0, |stream| - taken) by { NothingMoved(size, |stream| - taken); }
      buffer, waits, used := [], [], 0;
      while |buffer| < size
        invariant Valid() && |buffer| <= size && used <= |script|
        invariant taken == old(taken) + |buffer| && buffer == stream[old(taken)..taken]
        invariant AsMoved(|buffer|, size, MovedBy(script[..used]), |stream| - old(taken))
        invariant forall j | 0 <= j < used :: GoesOn(script[j], deadline)
        invariant Computed(waits, deadline, Readings(script))
        decreases |script| - used
      {
        if used == |script| {
          return None, buffer, waits, used;
        }
        var io := script[used];
        MovedStep(script, used);
        used := used + 1;
        match io {
          case Moved(count) =>
            var n := Least(Least(count, size - |buffer|), |stream| - taken);
            OneMoreMove(|buffer|, size, MovedBy(script[..used - 1]), |stream| - old(taken), count, n);
            if n == 0 {
              return Some(PeerClosed), buffer, waits, used;
            }
            OneMoreSlice(stream, old(taken), taken, n);
            buffer := buffer + stream[taken..taken + n];
            taken := taken + n;
          case EndOfStream =>
            return Some(PeerClosed), buffer, waits, used;
          case Interrupted =>
          case WouldBlock(now, poll) =>
            if now < deadline {
              OneMoreWait(waits, deadline, script, used - 1);
              waits := waits + [(now, PollWait(deadline, now))];
            }
            var stop := Stalled(io, deadline, ReceiveFailed);
            if stop.Some? {
              return stop, buffer, waits, used;
            }
          case _ =>
            return Some(ReceiveFailed), buffer, waits, used;
        }
      }
      result := Some(Success);
    }
  }

  /** Some answer of a script stands for this error, all before it having gone on. */
  ghost predicate WriteEndedBy(script: seq<Io>, deadline: Time, error: IpcError) {
    exists used: nat :: 0 < used && WentOn(script, used, deadline) && WriteCause(script[used - 1], deadline, error)
  }

  ghost predicate ReadEndedBy(script: seq<Io>, deadline: Time, error: IpcError) {
    exists used: nat :: 0 < used && WentOn(script, used, deadline) && ReadCause(script[used - 1], deadline, error)
  }

  /** The scripts of one framed call: the kernel's answers while moving the header, then the payload. */
  datatype Scripts = Scripts(header: seq<Io>, body: seq<Io>) {

    function Clock(): set<Time> {
      Readings(header) + Readings(body)
    }
  }

  class Socket {
    var open: bool

    constructor (open: bool)
      ensures this.open == open
    {
      this.open := open;
    }

    method Close()
      modifies this
      ensures !open
    {
      open := false;
    }

    /**
     * Framed Send. Nothing is written when the arguments or the socket are
     * refused; otherwise a prefix of header and payload is, complete exactly on
     * SUCCESS, and every poll wait lies within the time left if the timeout
     * fits an int of milliseconds.
     */
    method Send(ch: Channel, data: Payload, hasData: bool, start: Time, timeoutMs: int, scripts: Scripts)
      returns (result: Option<IpcError>, waits: seq<(Time, int)>)
      modifies ch`stream
      ensures result == Some(NotConnected) <==> !open
      ensures result == Some(MessageTooLarge) <==> open && |data| > 1048576
      ensures result == Some(InvalidArgument) <==> open && 0 < |data| <= 1048576 && !hasData
      ensures result.Some? && result.value in {NotConnected, MessageTooLarge, InvalidArgument} ==>
        ch.stream == old(ch.stream)
      ensures old(ch.stream) <= ch.stream && ch.stream <= old(ch.stream) + Frame(data)
      ensures result == Some(Success) <==> ch.stream == old(ch.stream) + Frame(data)
      ensures result == Some(Success) ==> |data| <= 1048576
      ensures result.Some? && result.value !in {Success, NotConnected, MessageTooLarge, InvalidArgument} ==>
        || WriteEndedBy(scripts.header, Deadline(start, timeoutMs), result.value)
        || WriteEndedBy(scripts.body, Deadline(start, timeoutMs), result.value)
      ensures Computed(waits, Deadline(start, timeoutMs), scripts.Clock())
      ensures timeoutMs < 0x8000_0000 && (forall t | t in scripts.Clock() :: start <= t) ==>
        AllInTime(waits, Deadline(start, timeoutMs))
    {
      hide EncodeHeader, PollWait, Deadline, InTime;
      waits := [];
      assert |Frame(data)| > 0;
      if !open {
        return Some(NotConnected), waits;
      }
      if |data| > MAX_MESSAGE {
        return Some(MessageTooLarge), waits;
      }
      if |data| > 0 && !hasData {
        return Some(InvalidArgument), waits;
      }
      var deadline := Deadline(start, timeoutMs);
      var sent, used;
      var header := EncodeHeader(|data|);
      result, sent, waits, used := ch.WriteAll(header, deadline, scripts.header);
      WaitsAreSound(start, timeoutMs, waits, scripts.Clock());
      assert ch.stream == old(ch.stream) + Frame(data)[..sent];
      if result != Some(Success) {
        return result, waits;
      }
      if |data| > 0 {
        var more;
        result, sent, more, used := ch.WriteAll(data, deadline, scripts.body);
        waits := waits + more;
        WaitsAreSound(start, timeoutMs, waits, scripts.Clock());
        assert Frame(data)[..HEADER_SIZE + sent] == header + data[..sent];
        assert ch.stream == old(ch.stream) + Frame(data)[..HEADER_SIZE + sent];
        return result, waits;
      }
    }

    /**
     * Framed Recv. It takes at most the header, or the header and as many bytes
     * as the header announces; on SUCCESS what it took is the frame of the
     * payload it returns; and it returns a payload on SUCCESS only.
     */
    method Recv(ch: Channel, start: Time, timeoutMs: int, scripts: Scripts)
      returns (result: Option<IpcError>, payload: Option<Payload>, waits: seq<(Time, int)>)
      requires ch.Valid()
      modifies ch`taken
      ensures ch.Valid() && old(ch.taken) <= ch.taken
      ensures result == Some(NotConnected) <==> !open
      ensures !open ==> ch.taken == old(ch.taken)
      ensures result.Some? && result.value !in {Success, NotConnected, MessageTooLarge} ==>
        || ReadEndedBy(scripts.header, Deadline(start, timeoutMs), result.value)
        || ReadEndedBy(scripts.body, Deadline(start, timeoutMs), result.value)
      ensures payload.Some? <==> result == Some(Success)
      ensures payload.Some? ==>
        |payload.value| <= MAX_MESSAGE && ch.stream[old(ch.taken)..ch.taken] == Frame(payload.value)
      ensures ch.taken <= old(ch.taken) + HEADER_SIZE
        || ch.taken <= old(ch.taken) + HEADER_SIZE
             + DecodeHeader(ch.stream[old(ch.taken)..old(ch.taken) + HEADER_SIZE])
      ensures result == Some(MessageTooLarge) ==>
        ch.taken == old(ch.taken) + HEADER_SIZE && DecodeHeader(ch.stream[old(ch.taken)..ch.taken]) > MAX_MESSAGE
      ensures Computed(waits, Deadline(start, timeoutMs), scripts.Clock())
      ensures timeoutMs < 0x8000_0000 && (forall t | t in scripts.Clock() :: start <= t) ==>
        AllInTime(waits, Deadline(start, timeoutMs))
    {
      hide EncodeHeader, DecodeHeader, PollWait, Deadline, InTime;
      payload, waits := None, [];
      if !open {
        return Some(NotConnected), None, waits;
      }
      var deadline := Deadline(start, timeoutMs);
      var header, used;
      result, header, waits, used := ch.ReadAll(HEADER_SIZE, deadline, scripts.header);
      WaitsAreSound(start, timeoutMs, waits, scripts.Clock());
      if result != Some(Success) {
        return result, None, waits;
      }
      var len := DecodeHeader(header);
      EncodeUndoesDecode(header);
      if len > MAX_MESSAGE {
        return Some(MessageTooLarge), None, waits;
      }
      var buffer: Payload := [];
      if len > 0 {
        var more;
        result, buffer, more, used := ch.ReadAll(len, deadline, scripts.body);
        waits := waits + more;
        WaitsAreSound(start, timeoutMs, waits, scripts.Clock());
        if result != Some(Success) {
          return result, None, waits;
        }
      }
      assert ch.stream[old(ch.taken)..ch.taken] == header + buffer;
      payload := Some(buffer);
    }
  }

  /**
   * Recv at a frame boundary. If the stream from there on starts with the frame
   * of `p`, or is a beginning of it, a call can take no byte beyond that frame
   * and cannot find it too large.
   */
  lemma RecvStaysInsideTheFrame(stream: seq<byte>, from: nat, upTo: nat, p: Payload)
    requires from <= upTo <= |stream| && |p| <= MAX_MESSAGE
    requires Frame(p) <= stream[from..] || stream[from..] <= Frame(p)
    requires upTo <= from + HEADER_SIZE
      || upTo <= from + HEADER_SIZE + DecodeHeader(stream[from..from + HEADER_SIZE])
    ensures upTo <= from + |Frame(p)|
    ensures |stream| >= from + HEADER_SIZE ==> DecodeHeader(stream[from..from + HEADER_SIZE]) == |p|
  {
    hide EncodeHeader, DecodeHeader;
    if |stream| >= from + HEADER_SIZE {
      assert stream[from..from + HEADER_SIZE] == Frame(p)[..HEADER_SIZE] == EncodeHeader(|p|);
      DecodeUndoesEncode(|p|);
    }
  }

  /** And if it succeeds, with what it took being the frame of its payload `q`, then `q` is `p`. */
  lemma RecvYieldsThatMessage(stream: seq<byte>, from: nat, upTo: nat, p: Payload, q: Payload)
    requires from <= upTo <= |stream| && |p| <= MAX_MESSAGE && |q| <= MAX_MESSAGE
    requires Frame(p) <= stream[from..] || stream[from..] <= Frame(p)
    requires stream[from..upTo] == Frame(q)
    ensures q == p
  {
    hide EncodeHeader, DecodeHeader;
    assert Frame(q)[..HEADER_SIZE] == stream[from..from + HEADER_SIZE] == Frame(p)[..HEADER_SIZE];
    DecodeUndoesEncode(|p|);
    DecodeUndoesEncode(|q|);
    assert Frame(q) == Frame(p);
    assert q == Frame(q)[HEADER_SIZE..] == Frame(p)[HEADER_SIZE..] == p;
  }
}
