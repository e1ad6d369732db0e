/** "Append, then whoever holds the lock drains": the protocol behind all three writers. */
module Coalescing {
  import opened Sequences
  import opened Varint
  import opened Wrappers

  /** `committed` bytes are on their way to the peer in this order; `pending` ones wait for the
      holder of the lock, who is draining while `busy`. */
  datatype Writer = Writer(committed: seq<byte>, busy: bool, pending: seq<byte>)

  const IDLE := Writer([], false, [])

  function Append(w: Writer, bytes: seq<byte>): Writer {
    if w.busy then w.(pending := w.pending + bytes)
    else Writer(w.committed + w.pending + bytes, true, [])
  }

  /** The drainer has handed everything on: it takes what accumulated meanwhile, or lets go. */
  function Complete(w: Writer): Writer {
    if w.pending == [] then w.(busy := false)
    else Writer(w.committed + w.pending, true, [])
  }

  datatype Event = Appended(bytes: seq<byte>) | Completed

  function Run(events: seq<Event>): Option<Writer> {
    if events == [] then Some(IDLE)
    else
      match (Run(Front(events)), Last(events))
      case (None, _) => None
      case (Some(w), Appended(bytes)) => Some(Append(w, bytes))
      case (Some(w), Completed) => if w.busy then Some(Complete(w)) else None
  }

  function AppendedBytes(events: seq<Event>): seq<byte> {
    if events == [] then []
    else
      AppendedBytes(Front(events)) +
      match Last(events)
      case Appended(bytes) => bytes
      case Completed => []
  }

  /** In every run: no byte is lost, duplicated or reordered, and whenever the lock is free
      nothing is left behind. */
  lemma {:induction false} NothingStranded(events: seq<Event>)
    requires Run(events).Some?
    ensures var w := Run(events).value;
            w.committed + w.pending == AppendedBytes(events) && (!w.busy ==> w.pending == [])
  {
    if events == [] {
    } else {
      NothingStranded(Front(events));
    }
  }

  /** Once the callers stop appending, two completions commit everything and free the lock. */
  lemma DrainsInTwo(w: Writer)
    requires w.busy
    ensures var once := Complete(w);
            var last := if once.busy then Complete(once) else once;
            last == Writer(w.committed + w.pending, false, [])
  {
    assert w.pending == [] ==> w.committed + w.pending == w.committed;
  }

  // ------------------------------------------------- the listener's writer

  /** `output` and `written` are the lock holder's locals; `socket` is what the peer can read. */
  datatype RustWriter = RustWriter(
    socket: seq<byte>, locked: bool, output: seq<byte>, written: nat, accumulated: seq<byte>)
  {
    ghost predicate Valid() {
      && written <= |output|
      && (locked <==> written < |output|)
      && (!locked ==> output == [] && accumulated == [])
    }

    function Unsent(): seq<byte>
      requires written <= |output|
    {
      output[written..]
    }

    /** Everything appended and not lost, in order. */
    function Held(): seq<byte>
      requires written <= |output|
    {
      socket + Unsent() + accumulated
    }

    /** The refinement mapping: what the drainer holds is already committed. */
    function Abs(): Writer
      requires written <= |output|
    {
      Writer(socket + Unsent(), locked, accumulated)
    }

    /** `write_to_writer` up to its first await: append, and drain unless someone does. */
    function Write(bytes: seq<byte>): RustWriter {
      var appended := accumulated + bytes;
      if locked || appended == [] then this.(accumulated := appended)
      else RustWriter(socket, true, appended, 0, [])
    }

    /** The drainer's turn after the socket took `n` more bytes. */
    function Progress(n: nat): RustWriter
      requires written + n <= |output|
    {
      var total := written + n;
      var sent := socket + output[written..total];
      if total < |output| then this.(socket := sent, written := total)
      else RustWriter(sent, accumulated != [], accumulated, 0, [])
    }

    /** A response that cannot be encoded takes the accumulated bytes with it. */
    function DropAccumulated(): RustWriter {
      this.(accumulated := [])
    }

    /** The socket stopped being writable: the drainer returns with its remainder unsent. */
    function Abandon(): RustWriter {
      this.(locked := false, output := [], written := 0)
    }
  }

  const QUIET := RustWriter([], false, [], 0, [])

  /** What the socket reports to the drainer. */
  datatype Readiness =
    | Wrote(n: nat)
    | WouldBlock
    | WriteFailed
    | NotWritable

  /** Writing refines `Append`, for any frame (a frame is never empty). */
  lemma WriteRefines(w: RustWriter, bytes: seq<byte>)
    requires w.Valid() && bytes != []
    ensures w.Write(bytes).Valid()
    ensures w.Write(bytes).Abs() == Append(w.Abs(), bytes)
    ensures w.Write(bytes).socket == w.socket
  {
    var w' := w.Write(bytes);
    if !w.locked {
      assert w'.Unsent() == bytes && w.Unsent() == [];
      assert w.socket + [] + [] + bytes == w.socket + bytes;
    }
  }

  lemma WriteHolds(w: RustWriter, bytes: seq<byte>)
    requires w.Valid() && bytes != []
    ensures w.Write(bytes).Valid() && w.Write(bytes).Held() == w.Held() + bytes
  {
    WriteRefines(w, bytes);
    if w.locked {
      assert w.Held() + bytes == w.socket + w.Unsent() + (w.accumulated + bytes);
    }
  }

  /** A partial write is invisible above; the write that empties the drainer's buffer is `Complete`.
      The bytes still to be sent shrink by exactly the bytes written. */
  lemma ProgressRefines(w: RustWriter, n: nat)
    requires w.Valid() && w.locked && n <= |w.Unsent()|
    ensures var w' := w.Progress(n);
            && w'.Valid()
            && w'.Abs() == (if n < |w.Unsent()| then w.Abs() else Complete(w.Abs()))
            && w'.socket == w.socket + w.Unsent()[..n]
            && |w'.Unsent() + w'.accumulated| == |w.Unsent() + w.accumulated| - n
  {
    var w' := w.Progress(n);
    assert w.output[w.written..w.written + n] == w.Unsent()[..n];
    if n < |w.Unsent()| {
      assert w.Unsent()[..n] + w'.Unsent() == w.Unsent();
      assert w'.socket + w'.Unsent() == w.socket + (w.Unsent()[..n] + w'.Unsent());
    } else {
      assert w.Unsent()[..n] == w.Unsent();
      assert w'.Unsent() == w.accumulated;
      assert w'.accumulated == [];
    }
  }

  lemma ProgressHolds(w: RustWriter, n: nat)
    requires w.Valid() && w.locked && n <= |w.Unsent()|
    ensures w.Progress(n).Valid() && w.Progress(n).Held() == w.Held()
  {
    ProgressRefines(w, n);
    var w' := w.Progress(n);
    assert w'.Held() == w'.Abs().committed + w'.Abs().pending;
    assert w.Held() == w.Abs().committed + w.Abs().pending;
  }

  /** What the two error paths cost. A failed encode keeps every appended byte exactly when nothing
      had accumulated; a drainer that gives up always loses its remainder. */
  lemma ErrorPathsLose(w: RustWriter)
    requires w.Valid()
    ensures w.DropAccumulated().Valid()
    ensures w.DropAccumulated().Held() == w.Held() <==> w.accumulated == []
    ensures w.locked ==> w.Abandon().Held() != w.Held()
    ensures w.Abandon().written == 0 && !w.Abandon().locked && w.Abandon().Held() == w.socket + w.accumulated
  {
    assert |w.Held()| == |w.socket| + |w.Unsent()| + |w.accumulated|;
    assert |w.DropAccumulated().Held()| == |w.socket| + |w.Unsent()|;
    assert w.Abandon().Held() == w.socket + [] + w.accumulated == w.socket + w.accumulated;
  }

  /** ... as when a response that cannot be encoded comes while an earlier one waits for the drainer. */
  lemma FailedEncodeCanLose(sending: byte, waiting: byte)
    ensures var w := QUIET.Write([sending]).Write([waiting]);
            w.Valid() && w.Held() == [sending, waiting] && w.DropAccumulated().Held() == [sending]
  {
    WriteHolds(QUIET, [sending]);
    WriteHolds(QUIET.Write([sending]), [waiting]);
    assert QUIET.Held() + [sending] + [waiting] == [sending, waiting];
    assert QUIET.Write([sending]).Write([waiting]).DropAccumulated().Unsent() == [sending];
  }

  /** The writer object: one call per stretch between two awaits. */
  class ListenerWriter {
    var socket: seq<byte>
    var locked: bool
    var output: seq<byte>
    var written: nat
    var accumulated: seq<byte>

    ghost function State(): RustWriter
      reads this
    {
      RustWriter(socket, locked, output, written, accumulated)
    }

    constructor ()
      ensures State() == QUIET
    {
      socket, locked, output, written, accumulated := [], false, [], 0, [];
    }

    /** `write_to_writer`: `encoded` is the length-delimited response, if it could be encoded. */
    method WriteToWriter(encoded: Option<seq<byte>>) returns (accepted: bool)
      modifies this
      ensures accepted == encoded.Some?
      ensures State() == if accepted then old(State()).Write(encoded.value) else old(State()).DropAccumulated()
    {
      var vec := accumulated;
      accumulated := [];
      if encoded.None? {
        return false;
      }
      accumulated := vec + encoded.value;
      WriteToOutput();
      return true;
    }

    /** `write_to_output` up to its first await. */
    method WriteToOutput()
      modifies this
      ensures State() == old(State()).Write([])
    {
      if locked {
        assert accumulated + [] == accumulated;
        return;
      }
      assert accumulated + [] == accumulated;
      if accumulated != [] {
        locked := true;
        output, written := accumulated, 0;
        accumulated := [];
      }
    }

    /** The drainer resumes: one `writable` and one `try_write`. */
    method Resume(event: Readiness)
      requires State().Valid() && locked
      requires event.Wrote? ==> written + event.n <= |output|
      modifies this
      ensures State() ==
              match event
              case Wrote(n) => old(State()).Progress(n)
              case WouldBlock => old(State())
              case WriteFailed => old(State())
              case NotWritable => old(State()).Abandon()
    {
      if event.NotWritable? {
        locked, output, written := false, [], 0;
      } else if event.Wrote? {
        socket := socket + output[written..written + event.n];
        written := written + event.n;
        if written == |output| {
          output, accumulated := accumulated, [];
          written := 0;
          if output == [] {
            locked := false;
          }
        }
      }
    }
  }

  // ------------------------------- any number of tasks, in any interleaving

  /** A task appends one encoded response, or the lock holder's socket takes `n` bytes. */
  datatype TaskEvent = TaskWrites(frame: seq<byte>) | DrainerWrites(n: nat)

  function RunTasks(events: seq<TaskEvent>): Option<RustWriter> {
    if events == [] then Some(QUIET)
    else
      match (RunTasks(Front(events)), Last(events))
      case (None, _) => None
      case (Some(w), TaskWrites(frame)) => if frame == [] then None else Some(w.Write(frame))
      case (Some(w), DrainerWrites(n)) =>
        if w.locked && w.written + n <= |w.output| then Some(w.Progress(n)) else None
  }

  function Written(events: seq<TaskEvent>): seq<byte> {
    if events == [] then []
    else
      Written(Front(events)) +
      match Last(events)
      case TaskWrites(frame) => frame
      case DrainerWrites(_) => []
  }

  /** In every interleaving, sent ++ unsent ++ accumulated is the responses in append order, and a
      free lock means everything has been sent. */
  lemma {:induction false} NoResponseStranded(events: seq<TaskEvent>)
    requires RunTasks(events).Some?
    ensures var w := RunTasks(events).value;
            && w.Valid()
            && w.Held() == Written(events)
            && (!w.locked ==> w.socket == Written(events))
  {
    if events == [] {
    } else {
      var before, e := Front(events), Last(events);
      NoResponseStranded(before);
      var w := RunTasks(before).value;
      if e.TaskWrites? {
        WriteHolds(w, e.frame);
      } else {
        ProgressHolds(w, e.n);
        assert Written(events) == Written(before);
      }
    }
  }
}
