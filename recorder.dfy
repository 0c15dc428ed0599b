/** The session transcript recorder (asciicast v2): one header line, then one line per output,
    input or resize event, each stamped with the time elapsed since the recording started.
    Recording failures are swallowed; they never reach the caller. */
module Recording {
  import opened Wrappers
  import Digits

  newtype byte = x: int | 0 <= x < 256

  datatype EventType = Output | Input | Resize

  /** A line of the transcript file. Elapsed time is in ticks of the monotonic clock. */
  datatype Line =
    | Header(version: int, width: int, height: int, timestamp: int, env: Option<map<string, string>>)
    | Event(elapsed: int, kind: EventType, data: string)

  /** What goes wrong, if anything, while `start` prepares the file. */
  datatype StartFault = NoFault | DirectoryFailed | OpenFailed | HeaderWriteFailed

  /** How writing one event line ends: the write itself raises before anything is buffered, or
      the line is buffered and the flush after it raises, or both succeed. */
  datatype EventWrite = EventWritten | WriteRaised | FlushRaised

  /** How writing the sidecar ends: opening it raises, or it is opened (and so truncated) and
      the JSON dump raises, or it is written. */
  datatype MetadataWrite = MetadataWritten | SidecarOpenRaised | DumpRaised

  /** The sidecar file: not there, truncated by an open whose dump then failed (empty or
      partial, its contents are not modelled), or holding the metadata. */
  datatype Sidecar = NoSidecar | Truncated | Holds(metadata: map<string, string>)

  const FormatVersion: int := 2

  /** The one-letter event code written into each event line. */
  function Code(kind: EventType): string {
    match kind
    case Output => "o"
    case Input => "i"
    case Resize => "r"
  }

  /** The payload of a resize event: `f"{width}x{height}"`. */
  function ResizePayload(width: int, height: int): string {
    Digits.IntToString(width) + "x" + Digits.IntToString(height)
  }

  /** Index of the first `c` in `s`, if any. */
  function IndexOf(s: string, c: char): (r: Option<nat>)
    ensures r.Some? ==> r.value < |s| && s[r.value] == c && c !in s[..r.value]
    ensures r.None? ==> c !in s
  {
    if s == [] then None
    else if s[0] == c then Some(0)
    else match IndexOf(s[1..], c)
      case None => None
      case Some(k) => assert s[..k + 1] == [s[0]] + s[1..][..k]; Some(k + 1)
  }

  /** Reads a resize payload back into its width and height. */
  function ParseResizePayload(s: string): Option<(int, int)> {
    match IndexOf(s, 'x')
    case None => None
    case Some(k) =>
      match (Digits.ParseInt(s[..k]), Digits.ParseInt(s[k + 1..]))
      case (Some(w), Some(h)) => Some((w, h))
      case _ => None
  }

  lemma IndexOfFirst(s: string, c: char, k: nat)
    requires k < |s| && s[k] == c && c !in s[..k]
    ensures IndexOf(s, c) == Some(k)
  {
    if k > 0 {
      assert s[1..][..k - 1] == s[1..k];
      IndexOfFirst(s[1..], c, k - 1);
    }
  }

  /** A resize payload always reads back as the geometry it was made from. */
  lemma ResizePayloadRoundTrip(width: int, height: int)
    ensures ParseResizePayload(ResizePayload(width, height)) == Some((width, height))
  {
    var w, h := Digits.IntToString(width), Digits.IntToString(height);
    var s := ResizePayload(width, height);
    assert s == w + "x" + h;
    assert 'x' !in w by {
      forall i | 0 <= i < |w| ensures w[i] != 'x' {
        Digits.IntToStringAlphabet(width, i);
      }
    }
    assert s[..|w|] == w && s[|w|] == 'x' && s[|w| + 1..] == h;
    IndexOfFirst(s, 'x', |w|);
    Digits.IntToStringRoundTrip(width);
    Digits.IntToStringRoundTrip(height);
  }

  /** The shape of every transcript the recorder produces: empty, or one header followed by
      events whose elapsed times never decrease. */
  predicate WellFormed(t: seq<Line>) {
    && (t != [] ==> t[0].Header?)
    && (forall i | 1 <= i < |t| :: t[i].Event?)
    && (forall i, j | 1 <= i < j < |t| :: t[i].elapsed <= t[j].elapsed)
  }

  class SessionRecorder {
    const enabled: bool
    const sessionId: string
    const width: int
    const height: int
    const metadata: map<string, string>
    /** Lossy UTF-8 decoding (`errors="replace"`): any total function of the bytes. */
    const decode: seq<byte> -> string

    /** `_file is not None`. */
    var fileOpen: bool
    /** The lines written to the `.cast` file. A line whose flush failed stays in the file
        object's buffer and is kept here, as a later flush or the close writes it out. */
    var transcript: seq<Line>
    /** The metadata sidecar `.json` file. */
    var sidecar: Sidecar
    var startTick: int
    var eventCount: nat
    /** The latest reading of the monotonic clock this recorder has taken. */
    ghost var clock: int

    ghost predicate Valid()
      reads this
    {
      && (!enabled ==> !fileOpen && transcript == [] && sidecar == NoSidecar)
      && WellFormed(transcript)
      && startTick <= clock
      && (fileOpen ==> transcript != [] && forall i | 1 <= i < |transcript| :: 0 <= transcript[i].elapsed <= clock - startTick)
    }

    /** `active`: a transcript file is open. */
    predicate Active()
      reads this
    {
      fileOpen
    }

    constructor (enabled: bool, sessionId: string, width: int, height: int,
                 metadata: Option<map<string, string>>, decode: seq<byte> -> string, now: int)
      ensures Valid() && !Active()
      ensures this.enabled == enabled && this.sessionId == sessionId
      ensures this.width == width && this.height == height && this.decode == decode
      ensures this.metadata == (if metadata.Some? then metadata.value else map[])
      ensures transcript == [] && sidecar == NoSidecar && eventCount == 0 && clock == now
    {
      this.enabled := enabled;
      this.sessionId := sessionId;
      this.width := width;
      this.height := height;
      this.metadata := if metadata.Some? then metadata.value else map[];
      this.decode := decode;
      fileOpen := false;
      transcript := [];
      sidecar := NoSidecar;
      startTick := now;
      eventCount := 0;
      clock := now;
    }

    /** Opens (truncating) the transcript and writes the header. Disabled: nothing happens.
        A failure leaves the recorder inactive and is not raised. */
    method Start(fault: StartFault, now: int, epochSeconds: int)
      requires Valid() && clock <= now
      modifies this
      ensures old(clock) <= clock <= now
      ensures Valid()
      ensures !enabled ==> !Active() && unchanged(this)
      ensures enabled && fault == NoFault ==>
                && Active() && startTick == now
                && transcript == [Header(FormatVersion, width, height, epochSeconds,
                                         if |metadata| > 0 then Some(metadata) else None)]
      ensures enabled && fault != NoFault ==> !Active()
      ensures enabled && fault in {DirectoryFailed, OpenFailed} ==> transcript == old(transcript)
      ensures enabled && fault == HeaderWriteFailed ==> transcript == []
      ensures eventCount == old(eventCount) && sidecar == old(sidecar)
    {
      if !enabled {
        return;
      }
      clock := now;
      if fault == DirectoryFailed || fault == OpenFailed {
        fileOpen := false;
        return;
      }
      transcript := [];
      startTick := now;
      if fault == HeaderWriteFailed {
        fileOpen := false;
        return;
      }
      var env := if |metadata| > 0 then Some(metadata) else None;
      transcript := [Header(FormatVersion, width, height, epochSeconds, env)];
      fileOpen := true;
    }

    /** `_record_event` and `record_resize`: while active, writes one event stamped with the
        elapsed ticks and counts it. A write that raises adds nothing; a flush that raises leaves
        the line written but uncounted. Either failure is swallowed. */
    method RecordEvent(kind: EventType, payload: string, now: int, w: EventWrite)
      requires Valid() && clock <= now
      modifies this
      ensures old(clock) <= clock <= now
      ensures Valid() && fileOpen == old(fileOpen) && startTick == old(startTick)
      ensures sidecar == old(sidecar)
      ensures old(fileOpen) && w != WriteRaised ==>
                transcript == old(transcript) + [Event(now - old(startTick), kind, payload)]
      ensures !old(fileOpen) || w == WriteRaised ==> transcript == old(transcript)
      ensures eventCount == if old(fileOpen) && w == EventWritten then old(eventCount) + 1 else old(eventCount)
    {
      if !fileOpen {
        return;
      }
      clock := now;
      if w != WriteRaised {
        transcript := transcript + [Event(now - startTick, kind, payload)];
        if w == EventWritten {
          eventCount := eventCount + 1;
        }
      }
    }

    method RecordOutput(data: seq<byte>, now: int, w: EventWrite)
      requires Valid() && clock <= now
      modifies this
      ensures old(clock) <= clock <= now
      ensures Valid() && fileOpen == old(fileOpen) && startTick == old(startTick) && sidecar == old(sidecar)
      ensures old(fileOpen) && w != WriteRaised ==>
                transcript == old(transcript) + [Event(now - old(startTick), Output, decode(data))]
      ensures !old(fileOpen) || w == WriteRaised ==> transcript == old(transcript)
      ensures eventCount == if old(fileOpen) && w == EventWritten then old(eventCount) + 1 else old(eventCount)
    {
      RecordEvent(Output, decode(data), now, w);
    }

    method RecordInput(data: seq<byte>, now: int, w: EventWrite)
      requires Valid() && clock <= now
      modifies this
      ensures old(clock) <= clock <= now
      ensures Valid() && fileOpen == old(fileOpen) && startTick == old(startTick) && sidecar == old(sidecar)
      ensures old(fileOpen) && w != WriteRaised ==>
                transcript == old(transcript) + [Event(now - old(startTick), Input, decode(data))]
      ensures !old(fileOpen) || w == WriteRaised ==> transcript == old(transcript)
      ensures eventCount == if old(fileOpen) && w == EventWritten then old(eventCount) + 1 else old(eventCount)
    {
      RecordEvent(Input, decode(data), now, w);
    }

    method RecordResize(newWidth: int, newHeight: int, now: int, w: EventWrite)
      requires Valid() && clock <= now
      modifies this
      ensures old(clock) <= clock <= now
      ensures Valid() && fileOpen == old(fileOpen) && startTick == old(startTick) && sidecar == old(sidecar)
      ensures old(fileOpen) && w != WriteRaised ==>
                transcript == old(transcript) + [Event(now - old(startTick), Resize, ResizePayload(newWidth, newHeight))]
      ensures !old(fileOpen) || w == WriteRaised ==> transcript == old(transcript)
      ensures eventCount == if old(fileOpen) && w == EventWritten then old(eventCount) + 1 else old(eventCount)
    {
      RecordEvent(Resize, ResizePayload(newWidth, newHeight), now, w);
    }

    /** Closes the transcript; safe to call repeatedly or before `start`. */
    method Stop()
      requires Valid()
      modifies this
      ensures Valid() && !Active()
      ensures transcript == old(transcript) && eventCount == old(eventCount) && sidecar == old(sidecar)
      ensures !old(fileOpen) ==> unchanged(this)
      ensures clock == old(clock) && startTick == old(startTick)
    {
      if fileOpen {
        fileOpen := false;
      }
    }

    /** Writes the metadata sidecar; disabled: nothing happens. Failures are swallowed: one
        before the file is opened leaves it as it was, one in the dump leaves it truncated. */
    method WriteMetadata(w: MetadataWrite)
      requires Valid()
      modifies this
      ensures Valid()
      ensures enabled && w == MetadataWritten ==> sidecar == Holds(metadata)
      ensures enabled && w == DumpRaised ==> sidecar == Truncated
      ensures !enabled || w == SidecarOpenRaised ==> sidecar == old(sidecar)
      ensures fileOpen == old(fileOpen) && transcript == old(transcript) && eventCount == old(eventCount)
      ensures clock == old(clock) && startTick == old(startTick)
    {
      if !enabled {
        return;
      }
      match w
      case MetadataWritten => sidecar := Holds(metadata);
      case DumpRaised => sidecar := Truncated;
      case SidecarOpenRaised =>
    }
  }

  /** The documented recording session: output, input and a 100x30 resize between start and
      stop give one header and three events in that order, each stamped with the ticks elapsed
      since the start. */
  method RecordingScenario(decode: seq<byte> -> string) returns (t: seq<Line>)
    ensures |t| == 4 && t[0].Header? && t[0].version == 2 && t[0].width == 80 && t[0].height == 24
    ensures t[1].Event? && t[1].kind == Output && t[1].data == decode([104, 105])
    ensures t[2].Event? && t[2].kind == Input
    ensures t[3].Event? && t[3].kind == Resize && t[3].data == "100x30"
    ensures t[1].elapsed == 2 && t[2].elapsed == 4 && t[3].elapsed == 7
  {
    var r := new SessionRecorder(true, "s1", 80, 24, None, decode, 0);
    r.Start(NoFault, 5, 1700000000);
    r.RecordOutput([104, 105], 7, EventWritten);
    r.RecordInput([99, 109, 100, 10], 9, EventWritten);
    r.RecordResize(100, 30, 12, EventWritten);
    r.Stop();
    t := r.transcript;
    assert Digits.IntToString(100) == "100";
    assert Digits.IntToString(30) == "30";
  }

  /** A flush that raises keeps the event line in the file but leaves it out of the count, and
      a metadata dump that raises leaves the sidecar truncated. */
  method FailedFlushScenario(decode: seq<byte> -> string) returns (t: seq<Line>, events: nat, sidecar: Sidecar)
    ensures |t| == 3 && t[1].Event? && t[1].kind == Output && t[2].Event? && t[2].kind == Input
    ensures events == 1 && sidecar == Truncated
  {
    var r := new SessionRecorder(true, "s1", 80, 24, None, decode, 0);
    r.Start(NoFault, 1, 1700000000);
    r.RecordOutput([104, 105], 2, FlushRaised);
    r.RecordInput([10], 3, EventWritten);
    r.RecordResize(100, 30, 4, WriteRaised);
    r.Stop();
    r.WriteMetadata(DumpRaised);
    t, events, sidecar := r.transcript, r.eventCount, r.sidecar;
  }

  /** With recording disabled, no sequence of calls produces a transcript or a sidecar. */
  method DisabledScenario(decode: seq<byte> -> string, data: seq<byte>) returns (t: seq<Line>, sidecar: Sidecar)
    ensures t == [] && sidecar == NoSidecar
  {
    var r := new SessionRecorder(false, "s1", 80, 24, Some(map["user" := "root"]), decode, 0);
    r.Start(NoFault, 1, 1700000000);
    r.RecordOutput(data, 2, EventWritten);
    r.RecordInput(data, 3, EventWritten);
    r.RecordResize(120, 40, 4, EventWritten);
    r.Stop();
    r.WriteMetadata(MetadataWritten);
    t, sidecar := r.transcript, r.sidecar;
  }
}
