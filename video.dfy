/**
 * The live-stream handler of video/videohandler.go: the options it derives for the
 * capture pipeline, the pipeline's NULL/PLAYING state, and the table of client
 * descriptors filled by ServeHTTP and emptied by removeFd. Hijack, File, Dup and
 * the header write are outside calls whose outcomes come in as parameters; what
 * the handler does to the outside world is recorded in a trace.
 */
module Video {
  import opened Base

  /** `VideoHandlerOptions`. */
  datatype Options = Options(Frequency: int, Pids: string, Width: int, Height: int, VideoBitrate: int)

  /** The pids used when the options leave them empty. */
  const DefaultPids := "8192"

  /** The preamble written on a hijacked connection before it is handed to the sink. */
  const WebMHeader := "HTTP/1.1 200 OK\r\nContent-Type: video/webm\r\n\r\n"

  /** The option-derived properties NewVideoHandler sets on the pipeline's elements. */
  datatype PipelineProps = PipelineProps(Frequency: int, Pids: string, Width: int, Height: int, TargetBitrate: int)

  /** The `pids` property of the DVB source: the given pids, or the default when none are given. */
  function EffectivePids(pids: string): (r: string)
    ensures r != ""
    ensures pids != "" ==> r == pids
    ensures pids == "" ==> r == DefaultPids
  {
    if pids != "" then pids else DefaultPids
  }

  /**
   * Go's `int32(x)` conversion: the value in the signed 32-bit range that agrees
   * with x modulo 2^32 (the low 32 bits, read in two's complement).
   */
  function Int32(x: int): (r: int)
    ensures -0x8000_0000 <= r < 0x8000_0000
    ensures (x - r) % 0x1_0000_0000 == 0
    ensures -0x8000_0000 <= x < 0x8000_0000 ==> r == x
  {
    (x + 0x8000_0000) % 0x1_0000_0000 - 0x8000_0000
  }

  /** The encoder's `target-bitrate` in bit/s for a video bitrate option in kbit/s. */
  function TargetBitrate(kbps: int): (bps: int)
    ensures bps % 1000 == 0 && bps / 1000 == kbps
  {
    kbps * 1000
  }

  function Props(o: Options): (p: PipelineProps)
    ensures p.Frequency == o.Frequency
    ensures p.Width == Int32(o.Width) && p.Height == Int32(o.Height)
    ensures p.Pids != "" && (o.Pids != "" ==> p.Pids == o.Pids)
    ensures p.TargetBitrate % 1000 == 0 && p.TargetBitrate / 1000 == o.VideoBitrate
  {
    PipelineProps(o.Frequency, EffectivePids(o.Pids), Int32(o.Width), Int32(o.Height), TargetBitrate(o.VideoBitrate))
  }

  /**
   * Two option values configure the pipeline identically exactly when frequency
   * and bitrate agree, their sizes agree once truncated to 32 bits, and their pids
   * agree once the default is filled in; in particular empty pids and "8192" are
   * the same configuration, and so are widths or heights 2^32 apart.
   */
  lemma PropsEquivalence(a: Options, b: Options)
    ensures Props(a) == Props(b) <==>
      && a.Frequency == b.Frequency && Int32(a.Width) == Int32(b.Width) && Int32(a.Height) == Int32(b.Height)
      && a.VideoBitrate == b.VideoBitrate
      && EffectivePids(a.Pids) == EffectivePids(b.Pids)
    ensures a.Pids == "" && b.Pids == DefaultPids && a.(Pids := "") == b.(Pids := "") ==> Props(a) == Props(b)
    ensures b == a.(Width := a.Width + 0x1_0000_0000, Height := a.Height - 0x1_0000_0000) ==> Props(a) == Props(b)
  {
  }

  /** A hijacked client connection (a `net.Conn`), known by its identity only. */
  datatype Conn = Conn(id: nat)

  /** What the handler does to connections, descriptors and the sink. */
  datatype Action =
    | WriteHeader(conn: Conn, data: string)   // the preamble, written through the connection's file
    | CloseFile(conn: Conn)                   // file.Close() of the connection's file
    | SinkAdd(fd: nat)                        // multifdsink "add" of the duplicated descriptor
    | CloseConn(conn: Conn)                   // Close() of the registered connection
    | CloseFd(fd: nat)                        // syscall.Close of the duplicated descriptor

  /** The descriptors handed to the sink and not yet closed, after `trace`. */
  function OpenFds(trace: seq<Action>): (fds: set<nat>) {
    if trace == [] then {}
    else
      var before, last := OpenFds(trace[..|trace| - 1]), trace[|trace| - 1];
      if last.SinkAdd? then before + {last.fd}
      else if last.CloseFd? then before - {last.fd}
      else before
  }

  /** No descriptor is closed unless it is open: none is closed twice. */
  ghost predicate NoDoubleClose(trace: seq<Action>) {
    trace == [] ||
      (&& NoDoubleClose(trace[..|trace| - 1])
       && (trace[|trace| - 1].CloseFd? ==> trace[|trace| - 1].fd in OpenFds(trace[..|trace| - 1])))
  }

  lemma AppendAction(trace: seq<Action>, a: Action)
    ensures OpenFds(trace + [a]) ==
      if a.SinkAdd? then OpenFds(trace) + {a.fd}
      else if a.CloseFd? then OpenFds(trace) - {a.fd}
      else OpenFds(trace)
    ensures NoDoubleClose(trace + [a]) <==> NoDoubleClose(trace) && (a.CloseFd? ==> a.fd in OpenFds(trace))
  {
    assert (trace + [a])[..|trace + [a]| - 1] == trace;
  }

  /**
   * Registering a fresh descriptor and then removing it restores both the table
   * and the set of open descriptors, and closes nothing that was not open.
   */
  lemma RegisterThenRemoveRestores(conns: map<nat, Conn>, trace: seq<Action>, fd: nat, c: Conn)
    requires fd !in conns && fd !in OpenFds(trace)
    ensures conns[fd := c] - {fd} == conns
    ensures OpenFds(trace + [WriteHeader(c, WebMHeader), CloseFile(c), SinkAdd(fd), CloseConn(c), CloseFd(fd)]) == OpenFds(trace)
    ensures NoDoubleClose(trace) ==>
      NoDoubleClose(trace + [WriteHeader(c, WebMHeader), CloseFile(c), SinkAdd(fd), CloseConn(c), CloseFd(fd)])
  {
    var t := trace;
    AppendAction(t, WriteHeader(c, WebMHeader)); t := t + [WriteHeader(c, WebMHeader)];
    AppendAction(t, CloseFile(c)); t := t + [CloseFile(c)];
    AppendAction(t, SinkAdd(fd)); t := t + [SinkAdd(fd)];
    AppendAction(t, CloseConn(c)); t := t + [CloseConn(c)];
    AppendAction(t, CloseFd(fd)); t := t + [CloseFd(fd)];
    assert t == trace + [WriteHeader(c, WebMHeader), CloseFile(c), SinkAdd(fd), CloseConn(c), CloseFd(fd)];
  }

  datatype PipelineState = Null | Playing

  /** How one ServeHTTP call ended: registered under a descriptor, or abandoned at the step that failed. */
  datatype Served = Registered(fd: nat) | HijackFailed | FileFailed | DupFailed | WriteFailed

  /** `VideoHandler`: its pipeline's state and its `conns` table. */
  class VideoHandler {
    const props: PipelineProps
    var state: PipelineState
    var conns: map<nat, Conn>
    var trace: seq<Action>

    /** The table holds exactly the descriptors the sink was given and that are still open. */
    ghost predicate Valid()
      reads this
    {
      conns.Keys == OpenFds(trace) && NoDoubleClose(trace)
    }

    /** NewVideoHandler: derived properties, a pipeline in NULL, an empty table. */
    constructor (options: Options)
      ensures Valid()
      ensures props == Props(options)
      ensures state == Null && conns == map[] && trace == []
    {
      props := Props(options);
      state := Null;
      conns := map[];
      trace := [];
    }

    method Start()
      modifies this`state
      ensures state == Playing
    {
      state := Playing;
    }

    method Stop()
      modifies this`state
      ensures state == Null
    {
      state := Null;
    }

    /**
     * ServeHTTP given the outcomes of Hijack, File, Dup and the header write.
     * Each failure abandons the request with the table and the trace untouched.
     */
    method ServeHTTP(hijack: Option<Conn>, fileOk: bool, dup: Option<nat>, writeOk: bool) returns (r: Served)
      requires Valid()
      // syscall.Dup returns a descriptor that is not open, and every registered one is
      requires dup.Some? ==> dup.value !in conns
      modifies this`conns, this`trace
      ensures Valid()
      ensures r.Registered? ==> r.fd !in old(conns)
      ensures r == HijackFailed <==> hijack.None?
      ensures r == FileFailed <==> hijack.Some? && !fileOk
      ensures r == DupFailed <==> hijack.Some? && fileOk && dup.None?
      ensures r == WriteFailed <==> hijack.Some? && fileOk && dup.Some? && !writeOk
      ensures !r.Registered? ==> conns == old(conns) && trace == old(trace)
      ensures r.Registered? ==>
        && r.fd == dup.value
        && conns == old(conns)[r.fd := hijack.value]
        && trace == old(trace) + [WriteHeader(hijack.value, WebMHeader), CloseFile(hijack.value), SinkAdd(r.fd)]
    {
      if hijack.None? {
        return HijackFailed;
      }
      var conn := hijack.value;
      if !fileOk {
        return FileFailed;
      }
      if dup.None? {
        return DupFailed;
      }
      var fd := dup.value;
      if !writeOk {
        return WriteFailed;
      }
      AppendAction(trace, WriteHeader(conn, WebMHeader));
      trace := trace + [WriteHeader(conn, WebMHeader)];
      AppendAction(trace, CloseFile(conn));
      trace := trace + [CloseFile(conn)];
      conns := conns[fd := conn];
      AppendAction(trace, SinkAdd(fd));
      trace := trace + [SinkAdd(fd)];
      r := Registered(fd);
    }

    /** removeFd, run when the sink drops a client: close the connection and the descriptor, delete the entry. */
    method RemoveFd(fd: nat)
      requires Valid()
      requires fd in conns
      modifies this`conns, this`trace
      ensures Valid()
      ensures conns == old(conns) - {fd}
      ensures trace == old(trace) + [CloseConn(old(conns)[fd]), CloseFd(fd)]
    {
      var conn := conns[fd];
      AppendAction(trace, CloseConn(conn));
      trace := trace + [CloseConn(conn)];
      AppendAction(trace, CloseFd(fd));
      trace := trace + [CloseFd(fd)];
      conns := conns - {fd};
    }
  }
}
