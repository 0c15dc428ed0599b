/** The container I/O proxy: one exec'd shell in the session's container, and two forwarding
    loops between it and the SSH channel. The loops are modelled as methods over scripts of I/O
    outcomes; what they do to the recorder, the container socket and the SSH stream is recorded
    as a trace of actions. */
module Proxy {
  import opened Wrappers
  import opened Digits
  import Terminal
  import Recording

  type Chunk = seq<Recording.byte>

  /** The exceptions the loops distinguish. `WouldBlock` is `BlockingIOError`; `Interrupted` is
      the task's cancellation. */
  datatype IoError = ConnectionReset | BrokenPipe | WouldBlock | OtherError | Interrupted

  /** A read from the SSH stdin or the container socket: some bytes (empty at end of stream) or
      an exception. */
  datatype ReadOutcome = Data(bytes: Chunk) | ReadFailed(error: IoError)

  /** A send, write or drain: done, or an exception. */
  datatype WriteOutcome = Done | WriteFailed(error: IoError)

  /** One pass of `_ssh_to_container`: the read, the first send and the one retry. */
  datatype InboundStep = InboundStep(read: ReadOutcome, send: WriteOutcome, retry: WriteOutcome)

  /** One pass of `_container_to_ssh`: the receive, the write to SSH stdout and the drain. */
  datatype OutboundStep = OutboundStep(recv: ReadOutcome, write: WriteOutcome, drain: WriteOutcome)

  /** How a loop ended. `Suspended`: its script ran out, so it is still waiting on a read. */
  datatype Exit = EndOfStream | Reset | PipeBroken | Failed | Cancelled | NotRunning | Suspended

  /** What the loops do to their collaborators, in order. `Pause` is the 10 ms sleep. */
  datatype Action =
    | RecordInput(bytes: Chunk)
    | Send(bytes: Chunk)
    | RecordOutput(bytes: Chunk)
    | Write(bytes: Chunk)
    | Drain
    | Pause
    | RecordResize(width: int, height: int)

  datatype Run = Run(actions: seq<Action>, exit: Exit)

  /** One pass of a loop: what it did, and how the loop ended if it did. */
  datatype Round = Round(emitted: seq<Action>, stop: Option<Exit>)

  /** The exception handlers: reset and broken pipe have their own, cancellation is not caught
      but still runs the `finally`, and everything else, a second `BlockingIOError` included,
      lands in the generic one. */
  function ExitFor(e: IoError): (x: Exit)
    ensures x != Suspended && x != NotRunning && x != EndOfStream
    ensures x == Failed <==> e == WouldBlock || e == OtherError
  {
    match e
    case ConnectionReset => Reset
    case BrokenPipe => PipeBroken
    case Interrupted => Cancelled
    case WouldBlock => Failed
    case OtherError => Failed
  }

  function Prepend(pre: seq<Action>, r: Run): Run {
    Run(pre + r.actions, r.exit)
  }

  /** The bytes sent to the container, in order. */
  function Sent(acts: seq<Action>): seq<Chunk> {
    if acts == [] then []
    else (if acts[0].Send? then [acts[0].bytes] else []) + Sent(acts[1..])
  }

  /** The bytes written to the SSH stdout, in order. */
  function Written(acts: seq<Action>): seq<Chunk> {
    if acts == [] then []
    else (if acts[0].Write? then [acts[0].bytes] else []) + Written(acts[1..])
  }

  predicate IsPrefix<T(==)>(a: seq<T>, b: seq<T>) {
    |a| <= |b| && b[..|a|] == a
  }

  /** With a recorder, the send at `i` is of bytes just recorded: the action before it, or the
      one before the sleep of a retry. */
  predicate RecordedAt(acts: seq<Action>, i: int)
    requires 0 <= i < |acts| && acts[i].Send?
  {
    || (1 <= i && acts[i - 1] == RecordInput(acts[i].bytes))
    || (2 <= i && acts[i - 1] == Pause && acts[i - 2] == RecordInput(acts[i].bytes))
  }

  predicate RecordedBeforeSend(acts: seq<Action>) {
    forall i | 0 <= i < |acts| && acts[i].Send? :: RecordedAt(acts, i)
  }

  /** Every sleep of the inbound loop is followed at once by the single retried send, or ends
      the run. */
  predicate RetriedOnce(acts: seq<Action>) {
    forall i | 0 <= i < |acts| && acts[i].Pause? :: i + 1 == |acts| || acts[i + 1].Send?
  }

  /** The write at `i` is preceded by the recording of the same bytes (with a recorder) and
      followed at once by a drain unless it ends the run. */
  predicate WriteAt(recorded: bool, acts: seq<Action>, i: int)
    requires 0 <= i < |acts| && acts[i].Write?
  {
    && (recorded ==> 1 <= i && acts[i - 1] == RecordOutput(acts[i].bytes))
    && (i + 1 < |acts| ==> acts[i + 1] == Drain)
  }

  predicate RecordWriteDrain(recorded: bool, acts: seq<Action>) {
    forall i | 0 <= i < |acts| && acts[i].Write? :: WriteAt(recorded, acts, i)
  }

  predicate NoRecording(acts: seq<Action>) {
    forall i | 0 <= i < |acts| :: !acts[i].RecordInput? && !acts[i].RecordOutput?
  }

  /** A pass of `_ssh_to_container` that goes round again: a non-empty chunk whose send worked,
      at once or on its one retry. */
  predicate Forwards(s: InboundStep) {
    && s.read.Data? && s.read.bytes != []
    && (s.send.Done? || (s.send == WriteFailed(WouldBlock) && s.retry.Done?))
  }

  /** One pass of `_ssh_to_container`: an empty read ends the loop without forwarding; a chunk
      is recorded (with a recorder) and then sent; a `BlockingIOError` on the send is followed by
      one sleep and one retry, and any other failure ends the loop. */
  function InboundRound(recorded: bool, s: InboundStep): (r: Round)
    ensures r.stop.None? <==> Forwards(s)
    ensures r.stop == Some(EndOfStream) <==> s.read == Data([])
    ensures r.stop.Some? ==> r.stop.value != Suspended && r.stop.value != NotRunning
  {
    match s.read
    case ReadFailed(e) => Round([], Some(ExitFor(e)))
    case Data(d) =>
      if d == [] then Round([], Some(EndOfStream))
      else
        var rec := if recorded then [RecordInput(d)] else [];
        if s.send.Done? then Round(rec + [Send(d)], None)
        else if s.send.error != WouldBlock then Round(rec, Some(ExitFor(s.send.error)))
        else if s.retry.Done? then Round(rec + [Pause, Send(d)], None)
        else Round(rec + [Pause], Some(ExitFor(s.retry.error)))
  }

  /** A pass sends its chunk exactly once if it goes round again, and nothing otherwise. */
  lemma InboundRoundSends(recorded: bool, s: InboundStep)
    ensures var r := InboundRound(recorded, s);
            Sent(r.emitted) == if r.stop.None? then [s.read.bytes] else []
  {
    if s.read.Data? && s.read.bytes != [] {
      var d := s.read.bytes;
      var rec := if recorded then [RecordInput(d)] else [];
      SentNone(rec);
      SentNone(rec + [Pause]);
      SentAppend(rec, [Send(d)]);
      SentAppend(rec + [Pause], [Send(d)]);
      assert rec + [Pause] + [Send(d)] == rec + [Pause, Send(d)];
    }
  }

  /** Within a pass the chunk is recorded before it is sent (and nothing is recorded without a
      recorder), and a sleep is followed by the retried send or ends the loop. */
  lemma InboundRoundOrder(recorded: bool, s: InboundStep)
    ensures var r := InboundRound(recorded, s);
            && (recorded ==> RecordedBeforeSend(r.emitted))
            && (!recorded ==> NoRecording(r.emitted))
            && forall i | 0 <= i < |r.emitted| && r.emitted[i].Pause? ::
                 if i + 1 < |r.emitted| then r.emitted[i + 1].Send? else r.stop.Some?
  {
    var r := InboundRound(recorded, s);
    if recorded && s.read.Data? && s.read.bytes != [] && !(s.send.WriteFailed? && s.send.error != WouldBlock) {
      var d := s.read.bytes;
      if s.send.Done? {
        assert r.emitted == [RecordInput(d), Send(d)] && RecordedAt(r.emitted, 1);
      } else if s.retry.Done? {
        assert r.emitted == [RecordInput(d), Pause, Send(d)] && RecordedAt(r.emitted, 2);
      }
    }
  }

  /** `_ssh_to_container` on a script of passes; `Suspended` when the script runs out. */
  function Inbound(recorded: bool, steps: seq<InboundStep>): Run
    decreases |steps|
  {
    if steps == [] then Run([], Suspended)
    else
      var r := InboundRound(recorded, steps[0]);
      if r.stop.Some? then Run(r.emitted, r.stop.value)
      else Prepend(r.emitted, Inbound(recorded, steps[1..]))
  }

  /** One pass of `_container_to_ssh`: a `BlockingIOError` on receive sleeps and goes round
      again; an empty read ends the loop; a chunk is recorded (with a recorder), written and
      drained, and a failure of either ends the loop. */
  function OutboundRound(recorded: bool, s: OutboundStep): (r: Round)
    ensures r.stop.None? <==>
              s.recv == ReadFailed(WouldBlock) || (s.recv.Data? && s.recv.bytes != [] && s.write.Done? && s.drain.Done?)
    ensures r.stop == Some(EndOfStream) <==> s.recv == Data([])
    ensures r.stop.Some? ==> r.stop.value != Suspended && r.stop.value != NotRunning
  {
    match s.recv
    case ReadFailed(e) =>
      if e == WouldBlock then Round([Pause], None) else Round([], Some(ExitFor(e)))
    case Data(d) =>
      if d == [] then Round([], Some(EndOfStream))
      else
        var rec := if recorded then [RecordOutput(d)] else [];
        if s.write.WriteFailed? then Round(rec, Some(ExitFor(s.write.error)))
        else if s.drain.WriteFailed? then Round(rec + [Write(d)], Some(ExitFor(s.drain.error)))
        else Round(rec + [Write(d), Drain], None)
  }

  /** A pass writes the chunk it received exactly once when the write works, and nothing
      otherwise; a drain failure comes after the write. */
  lemma OutboundRoundWrites(recorded: bool, s: OutboundStep)
    ensures Written(OutboundRound(recorded, s).emitted) ==
              if s.recv.Data? && s.recv.bytes != [] && s.write.Done? then [s.recv.bytes] else []
  {
    if s.recv.Data? && s.recv.bytes != [] {
      var d := s.recv.bytes;
      var rec := if recorded then [RecordOutput(d)] else [];
      WrittenNone(rec);
      WrittenAppend(rec, [Write(d)]);
      WrittenAppend(rec + [Write(d)], [Drain]);
      assert rec + [Write(d)] + [Drain] == rec + [Write(d), Drain];
    } else {
      WrittenNone(OutboundRound(recorded, s).emitted);
    }
  }

  /** Within a pass the chunk is recorded (with a recorder), written and then drained; a pass
      that goes round again ends with no write pending its drain. */
  lemma OutboundRoundOrder(recorded: bool, s: OutboundStep)
    ensures var r := OutboundRound(recorded, s);
            && RecordWriteDrain(recorded, r.emitted)
            && (r.stop.None? ==> forall i | 0 <= i < |r.emitted| && r.emitted[i].Write? :: i + 1 < |r.emitted|)
            && (!recorded ==> NoRecording(r.emitted))
  {
    var r := OutboundRound(recorded, s);
    if s.recv.Data? && s.recv.bytes != [] && s.write.Done? {
      var d := s.recv.bytes;
      var rec := if recorded then [RecordOutput(d)] else [];
      assert WriteAt(recorded, r.emitted, |rec|);
    }
  }

  /** `_container_to_ssh` on a script of passes; `Suspended` when the script runs out. */
  function Outbound(recorded: bool, steps: seq<OutboundStep>): Run
    decreases |steps|
  {
    if steps == [] then Run([], Suspended)
    else
      var r := OutboundRound(recorded, steps[0]);
      if r.stop.Some? then Run(r.emitted, r.stop.value)
      else Prepend(r.emitted, Outbound(recorded, steps[1..]))
  }

  /** The chunks the inbound loop reads before its first empty or failed read. */
  function InboundChunks(steps: seq<InboundStep>): seq<Chunk> {
    if steps == [] || steps[0].read.ReadFailed? || steps[0].read.bytes == [] then []
    else [steps[0].read.bytes] + InboundChunks(steps[1..])
  }

  /** The chunks the outbound loop receives before its first empty or failed receive, skipping
      receives that would block. */
  function OutboundChunks(steps: seq<OutboundStep>): seq<Chunk> {
    if steps == [] then []
    else if steps[0].recv == ReadFailed(WouldBlock) then OutboundChunks(steps[1..])
    else if steps[0].recv.ReadFailed? || steps[0].recv.bytes == [] then []
    else [steps[0].recv.bytes] + OutboundChunks(steps[1..])
  }

  lemma {:induction false} SentAppend(a: seq<Action>, b: seq<Action>)
    ensures Sent(a + b) == Sent(a) + Sent(b)
    decreases |a|
  {
    if a != [] {
      assert (a + b)[0] == a[0] && (a + b)[1..] == a[1..] + b;
      SentAppend(a[1..], b);
    } else {
      assert a + b == b;
    }
  }

  lemma {:induction false} WrittenAppend(a: seq<Action>, b: seq<Action>)
    ensures Written(a + b) == Written(a) + Written(b)
    decreases |a|
  {
    if a != [] {
      assert (a + b)[0] == a[0] && (a + b)[1..] == a[1..] + b;
      WrittenAppend(a[1..], b);
    } else {
      assert a + b == b;
    }
  }

  lemma {:induction false} SentNone(acts: seq<Action>)
    requires forall i | 0 <= i < |acts| :: !acts[i].Send?
    ensures Sent(acts) == []
    decreases |acts|
  {
    if acts != [] {
      SentNone(acts[1..]);
    }
  }

  lemma {:induction false} WrittenNone(acts: seq<Action>)
    requires forall i | 0 <= i < |acts| :: !acts[i].Write?
    ensures Written(acts) == []
    decreases |acts|
  {
    if acts != [] {
      WrittenNone(acts[1..]);
    }
  }

  lemma PrefixCons<T>(x: T, a: seq<T>, b: seq<T>)
    requires IsPrefix(a, b)
    ensures IsPrefix([x] + a, [x] + b)
  {
    assert ([x] + b)[..|[x] + a|] == [x] + b[..|a|];
  }

  lemma NoRecordingConcat(a: seq<Action>, b: seq<Action>)
    requires NoRecording(a) && NoRecording(b)
    ensures NoRecording(a + b)
  {
    forall i | 0 <= i < |a + b| ensures !(a + b)[i].RecordInput? && !(a + b)[i].RecordOutput? {
      if i < |a| { assert (a + b)[i] == a[i]; } else { assert (a + b)[i] == b[i - |a|]; }
    }
  }

  /** The inbound loop forwards the chunks it read, in read order, none twice and none made up;
      when it ends at end of stream or is still waiting, it has forwarded every one. */
  lemma {:induction false} InboundForwardsInOrder(recorded: bool, steps: seq<InboundStep>)
    ensures IsPrefix(Sent(Inbound(recorded, steps).actions), InboundChunks(steps))
    ensures Inbound(recorded, steps).exit in {EndOfStream, Suspended} ==>
              Sent(Inbound(recorded, steps).actions) == InboundChunks(steps)
    decreases |steps|
  {
    if steps != [] {
      var r := InboundRound(recorded, steps[0]);
      InboundRoundSends(recorded, steps[0]);
      if r.stop.None? {
        var rest := Inbound(recorded, steps[1..]);
        InboundForwardsInOrder(recorded, steps[1..]);
        SentAppend(r.emitted, rest.actions);
        PrefixCons(steps[0].read.bytes, Sent(rest.actions), InboundChunks(steps[1..]));
      }
    }
  }

  lemma {:induction false} InboundChunksNonEmpty(steps: seq<InboundStep>)
    ensures forall c | c in InboundChunks(steps) :: c != []
    decreases |steps|
  {
    if steps != [] {
      InboundChunksNonEmpty(steps[1..]);
    }
  }

  /** The empty read that ends the stream is never forwarded. */
  lemma InboundNeverSendsEmpty(recorded: bool, steps: seq<InboundStep>)
    ensures forall c | c in Sent(Inbound(recorded, steps).actions) :: c != []
  {
    var sent, chunks := Sent(Inbound(recorded, steps).actions), InboundChunks(steps);
    InboundForwardsInOrder(recorded, steps);
    InboundChunksNonEmpty(steps);
    forall c | c in sent ensures c != [] {
      var k :| 0 <= k < |sent| && sent[k] == c;
      assert chunks[..|sent|][k] == c;
      assert chunks[k] in chunks;
    }
  }

  lemma RecordedConcat(a: seq<Action>, b: seq<Action>)
    requires RecordedBeforeSend(a) && RecordedBeforeSend(b)
    ensures RecordedBeforeSend(a + b)
  {
    var c := a + b;
    forall i | 0 <= i < |c| && c[i].Send? ensures RecordedAt(c, i) {
      if i < |a| {
        assert c[i] == a[i] && RecordedAt(a, i);
        if 1 <= i { assert c[i - 1] == a[i - 1]; }
        if 2 <= i { assert c[i - 2] == a[i - 2]; }
      } else {
        var j := i - |a|;
        assert c[i] == b[j] && RecordedAt(b, j);
        if 1 <= j { assert c[i - 1] == b[j - 1]; }
        if 2 <= j { assert c[i - 2] == b[j - 2]; }
      }
    }
  }

  lemma RetriedConcat(a: seq<Action>, b: seq<Action>)
    requires forall i | 0 <= i < |a| && a[i].Pause? :: i + 1 < |a| && a[i + 1].Send?
    requires RetriedOnce(b)
    ensures RetriedOnce(a + b)
  {
    var c := a + b;
    forall i | 0 <= i < |c| && c[i].Pause? ensures i + 1 == |c| || c[i + 1].Send? {
      if i < |a| {
        assert c[i] == a[i] && c[i + 1] == a[i + 1];
      } else {
        assert c[i] == b[i - |a|];
        if i + 1 < |c| { assert c[i + 1] == b[i + 1 - |a|]; }
      }
    }
  }

  /** With a recorder, the inbound loop records each chunk before it sends it; without one it
      records nothing. A sleep is always followed by the one retry or ends the loop, so a send
      is never retried twice. */
  lemma {:induction false} InboundRecordsThenSends(recorded: bool, steps: seq<InboundStep>)
    ensures recorded ==> RecordedBeforeSend(Inbound(recorded, steps).actions)
    ensures !recorded ==> NoRecording(Inbound(recorded, steps).actions)
    ensures RetriedOnce(Inbound(recorded, steps).actions)
    decreases |steps|
  {
    if steps != [] {
      var r := InboundRound(recorded, steps[0]);
      InboundRoundOrder(recorded, steps[0]);
      if r.stop.None? {
        var rest := Inbound(recorded, steps[1..]);
        InboundRecordsThenSends(recorded, steps[1..]);
        if recorded { RecordedConcat(r.emitted, rest.actions); } else { NoRecordingConcat(r.emitted, rest.actions); }
        RetriedConcat(r.emitted, rest.actions);
      }
    }
  }

  /** The outbound loop writes the chunks it received, in order, none twice and none made up;
      when it ends at end of stream or is still waiting, it has written every one. */
  lemma {:induction false} OutboundForwardsInOrder(recorded: bool, steps: seq<OutboundStep>)
    ensures IsPrefix(Written(Outbound(recorded, steps).actions), OutboundChunks(steps))
    ensures Outbound(recorded, steps).exit in {EndOfStream, Suspended} ==>
              Written(Outbound(recorded, steps).actions) == OutboundChunks(steps)
    decreases |steps|
  {
    if steps != [] {
      var s := steps[0];
      var r := OutboundRound(recorded, s);
      OutboundRoundWrites(recorded, s);
      if r.stop.None? {
        var rest := Outbound(recorded, steps[1..]);
        OutboundForwardsInOrder(recorded, steps[1..]);
        WrittenAppend(r.emitted, rest.actions);
        if s.recv.Data? {
          PrefixCons(s.recv.bytes, Written(rest.actions), OutboundChunks(steps[1..]));
        }
      } else if s.recv.Data? && s.recv.bytes != [] && s.write.Done? {
        assert OutboundChunks(steps)[..1] == [s.recv.bytes];
      }
    }
  }

  lemma RecordWriteDrainConcat(recorded: bool, a: seq<Action>, b: seq<Action>)
    requires RecordWriteDrain(recorded, a) && RecordWriteDrain(recorded, b)
    requires forall i | 0 <= i < |a| && a[i].Write? :: i + 1 < |a|
    ensures RecordWriteDrain(recorded, a + b)
  {
    var c := a + b;
    forall i | 0 <= i < |c| && c[i].Write? ensures WriteAt(recorded, c, i) {
      if i < |a| {
        assert c[i] == a[i] && WriteAt(recorded, a, i);
        assert c[i + 1] == a[i + 1];
        if 1 <= i { assert c[i - 1] == a[i - 1]; }
      } else {
        var j := i - |a|;
        assert c[i] == b[j] && WriteAt(recorded, b, j);
        if 1 <= j { assert c[i - 1] == b[j - 1]; }
        if i + 1 < |c| { assert c[i + 1] == b[j + 1]; }
      }
    }
  }

  /** Each chunk is recorded (with a recorder), then written, then drained, in that order;
      without a recorder nothing is recorded. */
  lemma {:induction false} OutboundRecordsWritesDrains(recorded: bool, steps: seq<OutboundStep>)
    ensures RecordWriteDrain(recorded, Outbound(recorded, steps).actions)
    ensures !recorded ==> NoRecording(Outbound(recorded, steps).actions)
    decreases |steps|
  {
    if steps != [] {
      var r := OutboundRound(recorded, steps[0]);
      OutboundRoundOrder(recorded, steps[0]);
      if r.stop.None? {
        var rest := Outbound(recorded, steps[1..]);
        OutboundRecordsWritesDrains(recorded, steps[1..]);
        RecordWriteDrainConcat(recorded, r.emitted, rest.actions);
        if !recorded { NoRecordingConcat(r.emitted, rest.actions); }
      }
    }
  }

  /** A receive that would block never ends the outbound loop: a run of them only sleeps. */
  lemma {:induction false} OutboundWouldBlockKeepsWaiting(recorded: bool, steps: seq<OutboundStep>)
    requires forall i | 0 <= i < |steps| :: steps[i].recv == ReadFailed(WouldBlock)
    ensures Outbound(recorded, steps) == Run(seq(|steps|, i => Pause), Suspended)
    decreases |steps|
  {
    if steps != [] {
      OutboundWouldBlockKeepsWaiting(recorded, steps[1..]);
      assert seq(|steps|, i => Pause) == [Pause] + seq(|steps| - 1, i => Pause);
    }
  }

  /** What `exec_run` is asked for. */
  datatype ExecRequest = ExecRequest(cmd: string, stdin: bool, stdout: bool, stderr: bool, tty: bool,
                                     socket: bool, user: string, workdir: string,
                                     environment: map<string, string>)

  /** The exec request `start` makes for a terminal: bash as root in /root on a TTY, with the
      terminal's type and size in the environment. */
  function ExecRequestFor(pty: Terminal.PTYRequest): (x: ExecRequest)
    ensures x.environment.Keys == {"TERM", "COLUMNS", "LINES"}
    ensures x.environment["TERM"] == pty.termType
    ensures ParseInt(x.environment["COLUMNS"]) == Some(pty.width)
    ensures ParseInt(x.environment["LINES"]) == Some(pty.height)
    ensures x.tty && x.stdin && x.stdout && x.stderr && x.socket
    ensures x.cmd == "/bin/bash" && x.user == "root" && x.workdir == "/root"
  {
    IntToStringRoundTrip(pty.width);
    IntToStringRoundTrip(pty.height);
    ExecRequest("/bin/bash", true, true, true, true, true, "root", "/root",
                map["TERM" := pty.termType, "COLUMNS" := IntToString(pty.width), "LINES" := IntToString(pty.height)])
  }

  /** The body of the `_ssh_to_container` loop, once. */
  method InboundPass(recorded: bool, s: InboundStep) returns (emitted: seq<Action>, stop: Option<Exit>)
    ensures Round(emitted, stop) == InboundRound(recorded, s)
  {
    emitted, stop := [], None;
    match s.read
    case ReadFailed(e) =>
      stop := Some(ExitFor(e));
    case Data(d) =>
      if d == [] {
        stop := Some(EndOfStream);
        return;
      }
      if recorded {
        emitted := [RecordInput(d)];
      }
      if s.send.Done? {
        emitted := emitted + [Send(d)];
      } else if s.send.error != WouldBlock {
        stop := Some(ExitFor(s.send.error));
      } else {
        emitted := emitted + [Pause];
        if s.retry.Done? {
          emitted := emitted + [Send(d)];
        } else {
          stop := Some(ExitFor(s.retry.error));
        }
      }
  }

  /** The body of the `_container_to_ssh` loop, once. */
  method OutboundPass(recorded: bool, s: OutboundStep) returns (emitted: seq<Action>, stop: Option<Exit>)
    ensures Round(emitted, stop) == OutboundRound(recorded, s)
  {
    emitted, stop := [], None;
    match s.recv
    case ReadFailed(e) =>
      if e == WouldBlock {
        emitted := [Pause];
      } else {
        stop := Some(ExitFor(e));
      }
    case Data(d) =>
      if d == [] {
        stop := Some(EndOfStream);
        return;
      }
      if recorded {
        emitted := [RecordOutput(d)];
      }
      if s.write.WriteFailed? {
        stop := Some(ExitFor(s.write.error));
        return;
      }
      emitted := emitted + [Write(d)];
      if s.drain.WriteFailed? {
        stop := Some(ExitFor(s.drain.error));
      } else {
        emitted := emitted + [Drain];
      }
  }

  /** One more pass of the loop, in terms of the run still ahead. */
  lemma InboundAfterPass(recorded: bool, steps: seq<InboundStep>, i: int, done: seq<Action>, more: seq<Action>, stop: Option<Exit>)
    requires 0 <= i < |steps| && Round(more, stop) == InboundRound(recorded, steps[i])
    requires Inbound(recorded, steps) == Prepend(done, Inbound(recorded, steps[i..]))
    ensures stop.Some? ==> Inbound(recorded, steps) == Run(done + more, stop.value)
    ensures stop.None? ==> Inbound(recorded, steps) == Prepend(done + more, Inbound(recorded, steps[i + 1..]))
  {
    assert steps[i..][1..] == steps[i + 1..];
    if stop.None? {
      assert done + more + Inbound(recorded, steps[i + 1..]).actions == done + (more + Inbound(recorded, steps[i + 1..]).actions);
    }
  }

  /** The `_ssh_to_container` loop over a script of passes, until a pass ends it or the script runs out. */
  method RunInbound(recorded: bool, steps: seq<InboundStep>) returns (emitted: seq<Action>, exit: Exit)
    ensures Run(emitted, exit) == Inbound(recorded, steps)
  {
    var i := 0;
    var done := false;
    emitted, exit := [], Suspended;
    while !done
      invariant 0 <= i <= |steps|
      invariant !done ==> Inbound(recorded, steps) == Prepend(emitted, Inbound(recorded, steps[i..]))
      invariant done ==> Inbound(recorded, steps) == Run(emitted, exit)
      decreases !done, |steps| - i
    {
      if i == |steps| {
        exit, done := Suspended, true;
      } else {
        var more, stop := InboundPass(recorded, steps[i]);
        InboundAfterPass(recorded, steps, i, emitted, more, stop);
        emitted := emitted + more;
        i := i + 1;
        if stop.Some? {
          exit, done := stop.value, true;
        }
      }
    }
  }

  /** One more pass of the loop, in terms of the run still ahead. */
  lemma OutboundAfterPass(recorded: bool, steps: seq<OutboundStep>, i: int, done: seq<Action>, more: seq<Action>, stop: Option<Exit>)
    requires 0 <= i < |steps| && Round(more, stop) == OutboundRound(recorded, steps[i])
    requires Outbound(recorded, steps) == Prepend(done, Outbound(recorded, steps[i..]))
    ensures stop.Some? ==> Outbound(recorded, steps) == Run(done + more, stop.value)
    ensures stop.None? ==> Outbound(recorded, steps) == Prepend(done + more, Outbound(recorded, steps[i + 1..]))
  {
    assert steps[i..][1..] == steps[i + 1..];
    if stop.None? {
      assert done + more + Outbound(recorded, steps[i + 1..]).actions == done + (more + Outbound(recorded, steps[i + 1..]).actions);
    }
  }

  /** The `_container_to_ssh` loop over a script of passes, until a pass ends it or the script runs out. */
  method RunOutbound(recorded: bool, steps: seq<OutboundStep>) returns (emitted: seq<Action>, exit: Exit)
    ensures Run(emitted, exit) == Outbound(recorded, steps)
  {
    var i := 0;
    var done := false;
    emitted, exit := [], Suspended;
    while !done
      invariant 0 <= i <= |steps|
      invariant !done ==> Outbound(recorded, steps) == Prepend(emitted, Outbound(recorded, steps[i..]))
      invariant done ==> Outbound(recorded, steps) == Run(emitted, exit)
      decreases !done, |steps| - i
    {
      if i == |steps| {
        exit, done := Suspended, true;
      } else {
        var more, stop := OutboundPass(recorded, steps[i]);
        OutboundAfterPass(recorded, steps, i, emitted, more, stop);
        emitted := emitted + more;
        i := i + 1;
        if stop.Some? {
          exit, done := stop.value, true;
        }
      }
    }
  }

  /** Where `start` can fail: creating the exec, or after the socket was taken from it, making
      it non-blocking. */
  datatype ExecFault = NoExecFault | ExecFailed | SetBlockingFailed

  datatype ProxyError = ExecCreationFailed

  /** The exec socket: none yet, open (blocking or not), or closed by `stop`. */
  datatype SocketState = NoSocket | Open(nonBlocking: bool) | Closed

  /** A forwarding task: not created, still running, finished on its own, or cancelled. */
  datatype TaskState = NoTask | Pending | Finished | TaskCancelled

  class ContainerProxy {
    const pty: Terminal.PTYRequest
    const sessionId: string
    const recorded: bool

    var running: bool
    var socket: SocketState
    var execRequest: Option<ExecRequest>
    var inboundTask: TaskState
    var outboundTask: TaskState
    /** `_shutdown_event`: only ever set. */
    var shutdownEvent: bool
    /** Everything the proxy has done to the recorder, the container socket and SSH stdout. */
    var actions: seq<Action>

    constructor (pty: Terminal.PTYRequest, sessionId: string, recorded: bool)
      ensures this.pty == pty && this.sessionId == sessionId && this.recorded == recorded
      ensures !running && socket == NoSocket && execRequest == None
      ensures inboundTask == NoTask && outboundTask == NoTask && !shutdownEvent && actions == []
    {
      this.pty := pty;
      this.sessionId := sessionId;
      this.recorded := recorded;
      running := false;
      socket := NoSocket;
      execRequest := None;
      inboundTask := NoTask;
      outboundTask := NoTask;
      shutdownEvent := false;
      actions := [];
    }

    /** `start`: asks for the exec; on success the socket is made non-blocking, the proxy runs
        and both forwarding tasks exist. A failure is reported and leaves the running flag and
        the tasks as they were; a failure of `setblocking` leaves the socket taken. */
    method Start(fault: ExecFault) returns (r: Outcome<ProxyError>)
      modifies this
      ensures fault == NoExecFault <==> r.Pass?
      ensures r.Fail? ==> r.error == ExecCreationFailed
      ensures r.Pass? ==>
                && running && socket == Open(true) && execRequest == Some(ExecRequestFor(pty))
                && inboundTask == Pending && outboundTask == Pending
      ensures r.Fail? ==>
                && running == old(running) && inboundTask == old(inboundTask) && outboundTask == old(outboundTask)
      ensures fault == ExecFailed ==> socket == old(socket) && execRequest == old(execRequest)
      ensures fault == SetBlockingFailed ==> socket == Open(false) && execRequest == Some(ExecRequestFor(pty))
      ensures shutdownEvent == old(shutdownEvent) && actions == old(actions)
    {
      if fault == ExecFailed {
        return Fail(ExecCreationFailed);
      }
      execRequest := Some(ExecRequestFor(pty));
      socket := Open(false);
      if fault == SetBlockingFailed {
        return Fail(ExecCreationFailed);
      }
      socket := Open(true);
      running := true;
      inboundTask := Pending;
      outboundTask := Pending;
      r := Pass;
    }

    /** `_ssh_to_container` run on a script. Its trace is `Inbound`'s while the proxy is
        running (`NotRunning` and nothing done otherwise), and on every way out except waiting
        for more input it sets the shutdown event. */
    method SshToContainer(steps: seq<InboundStep>) returns (exit: Exit)
      requires inboundTask == Pending
      modifies this
      ensures var run := if old(running) then Inbound(recorded, steps) else Run([], NotRunning);
              actions == old(actions) + run.actions && exit == run.exit
      ensures shutdownEvent == (old(shutdownEvent) || exit != Suspended)
      ensures inboundTask == if exit == Suspended then Pending else Finished
      ensures running == old(running) && socket == old(socket) && execRequest == old(execRequest)
      ensures outboundTask == old(outboundTask)
    {
      if running {
        var emitted;
        emitted, exit := RunInbound(recorded, steps);
        actions := actions + emitted;
      } else {
        exit := NotRunning;
      }
      if exit != Suspended {
        shutdownEvent := true;
        inboundTask := Finished;
      }
    }

    /** `_container_to_ssh` run on a script. Its trace is `Outbound`'s while the proxy is
        running (`NotRunning` and nothing done otherwise), and on every way out except waiting
        for more output it sets the shutdown event. */
    method ContainerToSsh(steps: seq<OutboundStep>) returns (exit: Exit)
      requires outboundTask == Pending
      modifies this
      ensures var run := if old(running) then Outbound(recorded, steps) else Run([], NotRunning);
              actions == old(actions) + run.actions && exit == run.exit
      ensures shutdownEvent == (old(shutdownEvent) || exit != Suspended)
      ensures outboundTask == if exit == Suspended then Pending else Finished
      ensures running == old(running) && socket == old(socket) && execRequest == old(execRequest)
      ensures inboundTask == old(inboundTask)
    {
      if running {
        var emitted;
        emitted, exit := RunOutbound(recorded, steps);
        actions := actions + emitted;
      } else {
        exit := NotRunning;
      }
      if exit != Suspended {
        shutdownEvent := true;
        outboundTask := Finished;
      }
    }

    /** `handle_resize`: the new size is recorded if there is a recorder and goes nowhere
        else. */
    method HandleResize(width: int, height: int)
      modifies this`actions
      ensures actions == old(actions) + if recorded then [RecordResize(width, height)] else []
    {
      if recorded {
        actions := actions + [RecordResize(width, height)];
      }
    }

    /** `wait_completion`: returns once the shutdown event is set; `false` means it would still
        be waiting. */
    method WaitCompletion() returns (completed: bool)
      ensures completed == shutdownEvent
    {
      completed := shutdownEvent;
    }

    /** `stop`: nothing unless running. Otherwise running is cleared, each task still pending is
        cancelled (its `finally` sets the shutdown event) and the socket is closed; a failed
        close leaves it as it was. */
    method Stop(closeOk: bool)
      modifies this
      ensures !old(running) ==> unchanged(this)
      ensures old(running) ==>
                && !running
                && inboundTask == (if old(inboundTask) == Pending then TaskCancelled else old(inboundTask))
                && outboundTask == (if old(outboundTask) == Pending then TaskCancelled else old(outboundTask))
                && shutdownEvent == (old(shutdownEvent) || old(inboundTask) == Pending || old(outboundTask) == Pending)
                && socket == (if old(socket) != NoSocket && closeOk then Closed else old(socket))
      ensures execRequest == old(execRequest) && actions == old(actions)
    {
      if !running {
        return;
      }
      running := false;
      if inboundTask == Pending {
        inboundTask := TaskCancelled;
        shutdownEvent := true;
      }
      if outboundTask == Pending {
        outboundTask := TaskCancelled;
        shutdownEvent := true;
      }
      if socket != NoSocket && closeOk {
        socket := Closed;
      }
    }
  }

  /** A session in which the client types one chunk and disconnects: the chunk is recorded,
      then sent, the end of stream is not forwarded, the loop sets the shutdown event, and
      `stop` closes the socket. */
  method DisconnectScenario(pty: Terminal.PTYRequest) returns (trace: seq<Action>, exit: Exit, completed: bool, socket: SocketState)
    ensures trace == [RecordInput([108, 115]), Send([108, 115])]
    ensures exit == EndOfStream && completed && socket == Closed
  {
    var p := new ContainerProxy(pty, "session-1", true);
    var started := p.Start(NoExecFault);
    var typed := InboundStep(Data([108, 115]), Done, Done);
    var eof := InboundStep(Data([]), Done, Done);
    exit := p.SshToContainer([typed, eof]);
    completed := p.WaitCompletion();
    p.Stop(true);
    trace, socket := p.actions, p.socket;
  }
}
