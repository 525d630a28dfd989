/**
 * Every interleaving of one sender and one receiver of a framed stream, system
 * call by system call.
 */
module FramingRuns {
  import opened Basics
  import opened IpcFraming

  datatype Writer =
    | Resting
    | Sending(payload: Payload, done: nat)   // `done` bytes of its frame are on the stream
    | GaveUp(payload: Payload, done: nat)    // Send returned an error; the sender sends no more

  datatype Reader =
    | Waiting
    | Reading(from: nat)                     // Recv began at this position of the stream
    | Broken

  datatype World = World(
    stream: seq<byte>, taken: nat, writer: Writer, reader: Reader,
    sent: seq<Payload>,                      // the payloads of the Sends that returned SUCCESS
    received: seq<Payload>)                  // the payloads of the Recvs that returned SUCCESS

  datatype Event =
    | SendCalled(payload: Payload)
    | Writes(count: nat)
    | SendSucceeds
    | SendFails
    | RecvCalled
    | Reads(count: nat)
    | RecvSucceeds
    | RecvFails

  const QUIET := World([], 0, Resting, Waiting, [], [])

  /** How far the current Recv wants to read: to the end of the header, then of the announced payload. */
  function Target(w: World): nat
    requires w.reader.Reading? && w.reader.from <= w.taken <= |w.stream|
  {
    var from := w.reader.from;
    if w.taken < from + HEADER_SIZE then from + HEADER_SIZE
    else from + HEADER_SIZE + DecodeHeader(w.stream[from..from + HEADER_SIZE])
  }

  ghost predicate Positions(w: World) {
    w.taken <= |w.stream| && (w.reader.Reading? ==> w.reader.from <= w.taken)
  }

  ghost predicate Enabled(w: World, e: Event) {
    Positions(w) &&
    match e
    case SendCalled(payload) => w.writer.Resting? && |payload| <= MAX_MESSAGE
    case Writes(count) => w.writer.Sending? && 0 < count && w.writer.done + count <= |Frame(w.writer.payload)|
    case SendSucceeds => w.writer.Sending? && w.writer.done == |Frame(w.writer.payload)|
    case SendFails => w.writer.Sending? && w.writer.done < |Frame(w.writer.payload)|
    case RecvCalled => w.reader.Waiting?
    case Reads(count) =>
      w.reader.Reading? && 0 < count && w.taken + count <= |w.stream| && w.taken + count <= Target(w)
    case RecvSucceeds =>
      && w.reader.Reading? && w.taken >= w.reader.from + HEADER_SIZE && w.taken == Target(w)
      && DecodeHeader(w.stream[w.reader.from..w.reader.from + HEADER_SIZE]) <= MAX_MESSAGE
    case RecvFails => w.reader.Reading?
  }

  ghost function Step(w: World, e: Event): World
    requires Enabled(w, e)
  {
    match e
    case SendCalled(payload) => w.(writer := Sending(payload, 0))
    case Writes(count) =>
      var done := w.writer.done;
      w.(stream := w.stream + Frame(w.writer.payload)[done..done + count],
         writer := Sending(w.writer.payload, done + count))
    case SendSucceeds => w.(writer := Resting, sent := w.sent + [w.writer.payload])
    case SendFails => w.(writer := GaveUp(w.writer.payload, w.writer.done))
    case RecvCalled => w.(reader := Reading(w.taken))
    case Reads(count) => w.(taken := w.taken + count)
    case RecvSucceeds =>
      w.(reader := Waiting, received := w.received + [w.stream[w.reader.from + HEADER_SIZE..w.taken]])
    case RecvFails => w.(reader := Broken)
  }

  ghost predicate IsRun(ws: seq<World>, es: seq<Event>) {
    && |ws| == |es| + 1
    && ws[0] == QUIET
    && forall i | 0 <= i < |es| :: Enabled(ws[i], es[i]) && ws[i + 1] == Step(ws[i], es[i])
  }

  lemma RunSteps(ws: seq<World>, es: seq<Event>, i: nat)
    requires IsRun(ws, es) && i + 1 < |ws|
    ensures i < |es| && Enabled(ws[i], es[i]) && ws[i + 1] == Step(ws[i], es[i])
  {
  }

  // ---------------------------------------------------------------------------
  // The invariant
  // ---------------------------------------------------------------------------

  /** The messages on the stream, the last of them perhaps unfinished. */
  ghost function Begun(w: World): seq<Payload> {
    if w.writer.Resting? then w.sent else w.sent + [w.writer.payload]
  }

  ghost predicate WriterInv(w: World) {
    && AllFit(Begun(w))
    && (w.writer.Resting? ==> w.stream == Frames(w.sent))
    && (!w.writer.Resting? ==>
          && w.writer.done <= |Frame(w.writer.payload)|
          && w.stream == Frames(w.sent) + Frame(w.writer.payload)[..w.writer.done])
  }

  ghost predicate ReaderInv(w: World) {
    && Positions(w) && AllFit(w.received)
    && (w.reader.Waiting? ==> w.stream[..w.taken] == Frames(w.received))
    && (w.reader.Reading? ==> w.stream[..w.reader.from] == Frames(w.received) && w.taken <= Target(w))
    && (w.reader.Broken? ==> Frames(w.received) <= w.stream)
  }

  ghost predicate Inv(w: World) {
    WriterInv(w) && ReaderInv(w)
  }

  lemma StepKeepsWriter(w: World, e: Event)
    requires Inv(w) && Enabled(w, e)
    ensures WriterInv(Step(w, e))
  {
    hide Frame, Frames, DecodeHeader, ReaderInv, Target;
    match e
    case SendSucceeds =>
      FramesAppend(w.sent, w.writer.payload);
      assert Frame(w.writer.payload)[..w.writer.done] == Frame(w.writer.payload);
    case SendCalled(payload) =>
      assert Frames(w.sent) + Frame(payload)[..0] == Frames(w.sent);
    case Writes(count) =>
      var f, done := Frame(w.writer.payload), w.writer.done;
      OneMorePiece(Frames(w.sent), f, done, count);
    case _ =>
  }

  /** What a successful Recv took off the stream is the frame of what it returned. */
  lemma TakenIsAFrame(w: World)
    requires Inv(w) && Enabled(w, RecvSucceeds)
    ensures var from, p := w.reader.from, w.stream[w.reader.from + HEADER_SIZE..w.taken];
      |p| <= MAX_MESSAGE && w.stream[from..w.taken] == Frame(p)
  {
    hide EncodeHeader, DecodeHeader, Frames, WriterInv;
    var from := w.reader.from;
    var h, p := w.stream[from..from + HEADER_SIZE], w.stream[from + HEADER_SIZE..w.taken];
    EncodeUndoesDecode(h);
    assert |p| == DecodeHeader(h);
    assert w.stream[from..w.taken] == h + p;
  }

  lemma TargetKept(w: World, w': World)
    requires Positions(w) && Positions(w') && w.reader.Reading? && w'.reader == w.reader
    requires w.stream <= w'.stream && w.taken <= w'.taken && w.taken <= Target(w) && w'.taken <= Target(w)
    ensures w'.taken <= Target(w')
  {
    hide DecodeHeader;
    var from := w.reader.from;
    if w.taken >= from + HEADER_SIZE {
      assert w'.stream[from..from + HEADER_SIZE] == w.stream[from..from + HEADER_SIZE];
    }
  }

  lemma GrowthKeepsReader(w: World, w': World)
    requires ReaderInv(w) && w.stream <= w'.stream
    requires w'.taken == w.taken && w'.reader == w.reader && w'.received == w.received
    ensures ReaderInv(w')
  {
    hide Frames, DecodeHeader;
    if w.reader.Reading? {
      TargetKept(w, w');
      assert w'.stream[..w.reader.from] == w.stream[..w.reader.from];
    }
    if w.reader.Waiting? {
      assert w'.stream[..w.taken] == w.stream[..w.taken];
    }
  }

  lemma StepKeepsReader(w: World, e: Event)
    requires Inv(w) && Enabled(w, e)
    ensures ReaderInv(Step(w, e))
  {
    hide Frame, DecodeHeader, Frames;
    var w' := Step(w, e);
    match e
    case RecvSucceeds =>
      TakenIsAFrame(w);
      var p := w.stream[w.reader.from + HEADER_SIZE..w.taken];
      FramesAppend(w.received, p);
      assert w.stream[..w.taken] == w.stream[..w.reader.from] + w.stream[w.reader.from..w.taken];
    case Writes(count) => GrowthKeepsReader(w, w');
    case Reads(count) => TargetKept(w, w');
    case RecvFails => assert w.stream == w.stream[..w.reader.from] + w.stream[w.reader.from..];
    case _ =>
  }

  lemma {:induction false} RunKeepsInv(ws: seq<World>, es: seq<Event>, i: nat)
    requires IsRun(ws, es) && i < |ws|
    ensures Inv(ws[i])
  {
    hide WriterInv, ReaderInv, IsRun, Enabled, Step;
    if i == 0 {
      QuietInv(ws, es);
    } else {
      RunKeepsInv(ws, es, i - 1);
      RunSteps(ws, es, i - 1);
      StepKeepsWriter(ws[i - 1], es[i - 1]);
      StepKeepsReader(ws[i - 1], es[i - 1]);
    }
  }

  lemma QuietInv(ws: seq<World>, es: seq<Event>)
    requires IsRun(ws, es)
    ensures Inv(ws[0])
  {
    assert ws[0] == QUIET;
    hide IsRun;
  }

  // ---------------------------------------------------------------------------
  // What it means for whole runs
  // ---------------------------------------------------------------------------

  lemma StreamIsABeginning(w: World)
    requires WriterInv(w)
    ensures w.stream <= Frames(Begun(w))
  {
    hide Frame;
    if !w.writer.Resting? {
      FramesAppend(w.sent, w.writer.payload);
    }
  }

  /**
   * However send and recv fragment the stream, the payloads received are the
   * payloads sent, in order: those of the Sends that have succeeded, and at
   * most the one still being sent. With the sender idle and the stream read to
   * its end, they are all of them.
   */
  lemma ReceivedIsWhatWasSent(ws: seq<World>, es: seq<Event>, i: nat)
    requires IsRun(ws, es) && i < |ws|
    ensures ws[i].received <= Begun(ws[i])
    ensures ws[i].writer.Resting? ==> ws[i].received <= ws[i].sent
    ensures ws[i].writer.Resting? && ws[i].reader.Waiting? && ws[i].taken == |ws[i].stream| ==>
      ws[i].received == ws[i].sent
  {
    RunKeepsInv(ws, es, i);
    hide IsRun, Frame, DecodeHeader;
    var w := ws[i];
    StreamIsABeginning(w);
    assert Frames(w.received) <= w.stream;
    FramesAreAPrefixCode(w.received, Begun(w));
    if w.writer.Resting? && w.reader.Waiting? && w.taken == |w.stream| {
      assert w.stream[..w.taken] == w.stream;
      FramesAreAPrefixCode(w.sent, w.received);
    }
  }

  lemma Extend(ws: seq<World>, es: seq<Event>, e: Event) returns (ws': seq<World>, es': seq<Event>)
    requires IsRun(ws, es) && Enabled(ws[|es|], e)
    ensures IsRun(ws', es') && |ws'| == |es'| + 1 && es' == es + [e] && ws'[|es'|] == Step(ws[|es|], e)
  {
    hide Enabled, Step;
    es' := es + [e];
    ws' := ws + [Step(ws[|es|], e)];
    forall i | 0 <= i < |es'| ensures Enabled(ws'[i], es'[i]) && ws'[i + 1] == Step(ws'[i], es'[i]) {
      if i < |es| {
        assert ws'[i] == ws[i] && es'[i] == es[i] && ws'[i + 1] == ws[i + 1];
      }
    }
  }

  /** A call that fails leaves the stream as it is and stops; one that begins starts at what has been taken. */
  lemma FailuresAreExact(ws: seq<World>, es: seq<Event>, i: nat)
    requires IsRun(ws, es) && i < |es|
    ensures es[i].SendFails? ==>
      ws[i].writer.Sending? && ws[i + 1] == ws[i].(writer := GaveUp(ws[i].writer.payload, ws[i].writer.done))
    ensures es[i].RecvFails? ==> ws[i + 1] == ws[i].(reader := Broken)
    ensures es[i].RecvCalled? ==> ws[i + 1] == ws[i].(reader := Reading(ws[i].taken))
  {
    RunSteps(ws, es, i);
    hide IsRun, Frame, DecodeHeader;
  }

  /** Between two calls, with the stream read to its end. */
  ghost predicate AtRest(w: World) {
    w.writer.Resting? && w.reader.Waiting? && w.taken == |w.stream|
  }

  lemma MessageIsSent(ws: seq<World>, es: seq<Event>, p: Payload) returns (ws': seq<World>, es': seq<Event>)
    requires IsRun(ws, es) && |ws| == |es| + 1 && AtRest(ws[|es|]) && |p| <= MAX_MESSAGE
    ensures IsRun(ws', es') && |ws'| == |es'| + 1 && es <= es'
    ensures ws'[|es'|] == ws[|es|].(stream := ws[|es|].stream + Frame(p), sent := ws[|es|].sent + [p])
  {
    var f := Frame(p);
    assert |f| == HEADER_SIZE + |p| && f[0..|f|] == f;
    hide IsRun, Frame;
    ws', es' := Extend(ws, es, SendCalled(p));
    ws', es' := Extend(ws', es', Writes(|f|));
    ws', es' := Extend(ws', es', SendSucceeds);
  }

  /** The header of the frame at `from`, and the payload behind it. */
  lemma FrameParts(before: seq<byte>, p: Payload)
    requires |p| <= MAX_MESSAGE
    ensures var s, n := before + Frame(p), |before|;
      && |s| == n + HEADER_SIZE + |p|
      && DecodeHeader(s[n..n + HEADER_SIZE]) == |p|
      && s[n + HEADER_SIZE..n + HEADER_SIZE + |p|] == p
  {
    hide DecodeHeader;
    var s, n := before + Frame(p), |before|;
    assert s[n..n + HEADER_SIZE] == EncodeHeader(|p|);
    DecodeUndoesEncode(|p|);
  }

  /**
   * Every message gets through: from any state at rest, a Send and a Recv of it
   * can both succeed, and leave the stream at rest with the message received.
   */
  lemma EveryMessageGetsThrough(ws: seq<World>, es: seq<Event>, p: Payload)
    returns (ws': seq<World>, es': seq<Event>)
    requires IsRun(ws, es) && |ws| == |es| + 1 && AtRest(ws[|es|]) && |p| <= MAX_MESSAGE
    ensures IsRun(ws', es') && |ws'| == |es'| + 1 && es <= es' && AtRest(ws'[|es'|])
    ensures ws'[|es'|].sent == ws[|es|].sent + [p] && ws'[|es'|].received == ws[|es|].received + [p]
  {
    ws', es' := MessageIsSent(ws, es, p);
    FrameParts(ws[|es|].stream, p);
    hide IsRun, Frame, DecodeHeader;
    ws', es' := Extend(ws', es', RecvCalled);
    ws', es' := Extend(ws', es', Reads(HEADER_SIZE));
    if |p| > 0 {
      ws', es' := Extend(ws', es', Reads(|p|));
    }
    ws', es' := Extend(ws', es', RecvSucceeds);
  }

  /** A Recv under way is inside one frame of the sender's: it never takes a byte of the next. */
  lemma RecvNeverCrossesAFrame(ws: seq<World>, es: seq<Event>, i: nat)
    requires IsRun(ws, es) && i < |ws| && ws[i].reader.Reading? && ws[i].taken > ws[i].reader.from
    ensures |ws[i].received| < |Begun(ws[i])| && ws[i].taken <= |ws[i].stream|
    ensures ws[i].taken <= ws[i].reader.from + |Frame(Begun(ws[i])[|ws[i].received|])|
    ensures ws[i].taken >= ws[i].reader.from + HEADER_SIZE ==>
      DecodeHeader(ws[i].stream[ws[i].reader.from..ws[i].reader.from + HEADER_SIZE]) <= MAX_MESSAGE
  {
    RunKeepsInv(ws, es, i);
    ReceivedIsWhatWasSent(ws, es, i);
    hide IsRun, Frame, DecodeHeader, Frames;
    var w, from := ws[i], ws[i].reader.from;
    var p := NextMessage(w);
    RecvStaysInsideTheFrame(w.stream, from, w.taken, p);
  }

  /** The message whose frame the current Recv is reading. */
  lemma NextMessage(w: World) returns (p: Payload)
    requires Inv(w) && w.received <= Begun(w) && w.reader.Reading? && w.taken > w.reader.from
    ensures |w.received| < |Begun(w)| && p == Begun(w)[|w.received|] && |p| <= MAX_MESSAGE
    ensures Frame(p) <= w.stream[w.reader.from..] || w.stream[w.reader.from..] <= Frame(p)
  {
    hide Frame, DecodeHeader, Frames;
    var msgs, n, from := Begun(w), |w.received|, w.reader.from;
    StreamIsABeginning(w);
    assert msgs == w.received + msgs[n..];
    FramesConcat(w.received, msgs[n..]);
    assert |Frames(msgs[n..])| > 0;
    assert msgs[n..] != [] by { NoFrames(); }
    p := msgs[n];
    FramesHead(msgs[n..]);
    InsideFrame(w.stream, from, Frames(msgs), Frame(p), Frames(msgs[n..][1..]));
    assert p in msgs;
  }

  lemma NoFrames()
    ensures Frames([]) == []
  {
  }

  lemma FramesHead(ps: seq<Payload>)
    requires ps != []
    ensures Frames(ps) == Frame(ps[0]) + Frames(ps[1..])
  {
  }

  lemma InsideFrame(stream: seq<byte>, from: nat, all: seq<byte>, f: seq<byte>, rest: seq<byte>)
    requires from <= |stream| && stream <= all && all == stream[..from] + (f + rest)
    ensures f <= stream[from..] || stream[from..] <= f
  {
    assert stream[from..] <= f + rest by {
      assert stream[from..] == all[from..|stream|];
      assert all[from..] == f + rest;
    }
  }

  lemma {:induction false} FramesConcat(a: seq<Payload>, b: seq<Payload>)
    ensures Frames(a + b) == Frames(a) + Frames(b)
  {
    hide Frame, Frames;
    if a == [] {
      NoFrames();
      assert a + b == b;
    } else {
      FramesHead(a);
      FramesHead(a + b);
      FramesConcat(a[1..], b);
      assert (a + b)[1..] == a[1..] + b;
      Regroup(Frame(a[0]), Frames(a[1..]), Frames(b));
    }
  }
}
