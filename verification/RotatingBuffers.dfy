/** The listener's read buffer: bytes accumulate, whole requests are split off the front. */
module RotatingBuffers {
  import opened Sequences
  import opened Varint
  import opened Wrappers
  import opened Framing

  /** The requests and the leftover of one pass over the buffer, or a malformed body. An overlong
      prefix stops the pass like a missing byte does. */
  function Requests<M>(c: Codec<M>, s: seq<byte>): Option<(seq<M>, seq<byte>)> {
    var p := Parse(c, s);
    if p.stop == BodyError then None else Some((p.msgs, p.rest))
  }

  /** In the middle of a pass: `results` are the requests in front of `position`. */
  ghost predicate HasTaken<M>(c: Codec<M>, buffer: seq<byte>, position: nat, results: seq<M>) {
    position <= |buffer| && Parse(c, buffer) == Prepend(results, Parse(c, buffer[position..]))
  }

  lemma TakesOneMore<M>(c: Codec<M>, buffer: seq<byte>, position: nat, results: seq<M>, start: nat, end: nat)
    requires HasTaken(c, buffer, position, results) && position < start <= end <= |buffer|
    requires Decode(buffer[position..]) == Complete(end - start, start - position)
    ensures var request := c.parse(buffer[start..end]);
            if request.None? then Requests(c, buffer) == None
            else HasTaken(c, buffer, end, results + [request.value])
  {
    var tail, size := buffer[position..], end - position;
    assert buffer[start..end] == tail[start - position..size];
    assert FirstFrame(tail) == Whole(buffer[start..end], size);
    if c.parse(buffer[start..end]).Some? {
      ParseStep(c, tail, results);
      assert tail[size..] == buffer[end..];
    }
  }

  lemma TakesNoMore<M>(c: Codec<M>, buffer: seq<byte>, position: nat, results: seq<M>)
    requires HasTaken(c, buffer, position, results) && !FirstFrame(buffer[position..]).Whole?
    ensures Requests(c, buffer) == Some((results, buffer[position..]))
  {
    ParseStuck(c, buffer[position..], results);
  }

  lemma NothingAtTheEnd<M>(c: Codec<M>, buffer: seq<byte>, position: nat, results: seq<M>)
    requires HasTaken(c, buffer, position, results)
    ensures position == |buffer| ==> Requests(c, buffer) == Some((results, buffer[position..]))
  {
    if position == |buffer| {
      TakesNoMore(c, buffer, position, results);
    }
  }

  datatype Taken<+M> = Incomplete | Malformed | Took(request: M, after: nat)

  /** One turn of the pass: the request at `position`, if a whole one lies there. */
  method TakeRequest<M>(c: Codec<M>, buffer: seq<byte>, position: nat, ghost results: seq<M>) returns (r: Taken<M>)
    requires HasTaken(c, buffer, position, results)
    ensures r.Incomplete? ==> Requests(c, buffer) == Some((results, buffer[position..]))
    ensures r.Malformed? ==> Requests(c, buffer) == None
    ensures r.Took? ==> position < r.after && HasTaken(c, buffer, r.after, results + [r.request])
  {
    var prefix := Decode(buffer[position..]);
    if !prefix.Complete? {
      TakesNoMore(c, buffer, position, results);
      return Taken.Incomplete;
    }
    var start := position + prefix.length;
    if start + prefix.value > |buffer| {
      TakesNoMore(c, buffer, position, results);
      return Taken.Incomplete;
    }
    var end := start + prefix.value;
    TakesOneMore(c, buffer, position, results, start, end);
    var request := c.parse(buffer[start..end]);
    if request.None? {
      return Malformed;
    }
    return Took(request.value, end);
  }

  datatype Listened<+M> = ReadSocketClosed | UnhandledError | ReceivedValues(values: seq<M>)

  class RotatingBuffer<M> {
    var backing: seq<byte>

    constructor ()
      ensures backing == []
    {
      backing := [];
    }

    /** Parses the buffered requests and keeps the incomplete tail. A malformed body loses the
        buffer together with the requests parsed in front of it. */
    method GetRequests(c: Codec<M>) returns (r: Result<seq<M>, Stop>)
      modifies this
      ensures var whole := Requests(c, old(backing));
              if whole.None? then r == Err(BodyError) && backing == []
              else r == Ok(whole.value.0) && backing == whole.value.1
    {
      var buffer := backing;
      backing := [];
      var results, position := [], 0;
      assert buffer[0..] == buffer;
      PrependEmpty(Parse(c, buffer));
      while position < |buffer|
        invariant HasTaken(c, buffer, position, results)
        invariant backing == []
      {
        var taken := TakeRequest(c, buffer, position, results);
        if taken.Incomplete? {
          break;
        }
        if taken.Malformed? {
          return Err(BodyError);
        }
        position := taken.after;
        results := results + [taken.request];
      }
      NothingAtTheEnd(c, buffer, position, results);
      if position != |buffer| {
        backing := backing + buffer[position..];
      }
      return Ok(results);
    }

    /** One readiness event: append what the socket gave, then parse. */
    method NextValues(c: Codec<M>, received: seq<byte>) returns (r: Listened<M>)
      modifies this
      ensures received == [] ==> r == ReadSocketClosed && backing == old(backing)
      ensures received != [] ==>
                var whole := Requests(c, old(backing) + received);
                if whole.None? then r == UnhandledError && backing == []
                else r == ReceivedValues(whole.value.0) && backing == whole.value.1
    {
      if received == [] {
        return ReadSocketClosed;
      }
      backing := backing + received;
      var requests := GetRequests(c);
      match requests
      case Ok(values) => return ReceivedValues(values);
      case Err(_) => return UnhandledError;
    }
  }

  /** Two passes are one pass over both chunks, malformed input included. */
  lemma RequestsAcrossChunks<M>(c: Codec<M>, a: seq<byte>, b: seq<byte>)
    ensures Requests(c, a + b) ==
            match Requests(c, a)
            case None => None
            case Some((first, rest)) =>
              match Requests(c, rest + b)
              case None => None
              case Some((second, left)) => Some((first + second, left))
  {
    ChunkingInvariance(c, a, b);
    ParseAccounts(c, a);
    var p := Parse(c, a);
    if p.stop == PrefixError {
      FirstFrameStable(p.rest, b);
      assert p.msgs + [] == p.msgs;
    }
  }

  /** A run of readiness events, each parsed behind the leftover of the one before it; a malformed
      body ends the run. */
  function ListenTurns<M>(c: Codec<M>, chunks: seq<seq<byte>>): Option<(seq<M>, seq<byte>)> {
    if chunks == [] then Some(([], []))
    else
      match ListenTurns(c, Front(chunks))
      case None => None
      case Some((done, rest)) =>
        match Requests(c, rest + Last(chunks))
        case None => None
        case Some((more, left)) => Some((done + more, left))
  }

  /** The rotating buffer refines the declarative parser: over any chunking it gives exactly the
      requests and the leftover of one pass over all the bytes, or fails exactly when that does. */
  lemma {:induction false} ListenerRefinesParser<M>(c: Codec<M>, chunks: seq<seq<byte>>)
    ensures ListenTurns(c, chunks) == Requests(c, Concat(chunks))
  {
    if chunks == [] {
    } else {
      var front := Front(chunks);
      ListenerRefinesParser(c, front);
      RequestsAcrossChunks(c, Concat(front), Last(chunks));
    }
  }

  /** A leftover is never a request the listener could already have handled. */
  lemma LeftoverIsIncomplete<M>(c: Codec<M>, s: seq<byte>)
    ensures match Requests(c, s)
            case None => true
            case Some((msgs, rest)) => FramesThen(c, s, msgs, rest) && !FirstFrame(rest).Whole?
  {
    ParseAccounts(c, s);
  }
}
