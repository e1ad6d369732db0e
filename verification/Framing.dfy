/** Length-delimited frames, and the one declarative parser every incremental reader refines. */
module Framing {
  import opened Sequences
  import opened Varint
  import opened Wrappers

  /** A message type's body encoding; protobuf itself is not part of this model. */
  datatype Codec<!M> = Codec(serialize: M -> seq<byte>, parse: seq<byte> -> Option<M>)

  /** The message's body parses back, and its length fits the 32-bit prefix. */
  ghost predicate Sendable<M>(c: Codec<M>, m: M) {
    |c.serialize(m)| < U32_LIMIT && c.parse(c.serialize(m)) == Some(m)
  }

  ghost predicate AllSendable<M>(c: Codec<M>, msgs: seq<M>) {
    forall i :: 0 <= i < |msgs| ==> Sendable(c, msgs[i])
  }

  function Frame(body: seq<byte>): seq<byte> {
    Encode(|body|) + body
  }

  function EncodeAll<M>(c: Codec<M>, msgs: seq<M>): seq<byte> {
    if msgs == [] then [] else Frame(c.serialize(msgs[0])) + EncodeAll(c, msgs[1..])
  }

  datatype NextFrame =
    | Whole(body: seq<byte>, size: nat)
    | Partial
    | BadPrefix

  function FirstFrame(s: seq<byte>): (f: NextFrame)
    ensures f.Whole? ==> 0 < f.size <= |s|
  {
    match Decode(s)
    case Complete(len, n) => if n + len <= |s| then Whole(s[n..n + len], n + len) else Partial
    case Incomplete => Partial
    case Overlong => BadPrefix
  }

  /** Why a parse stopped: the bytes ran out, a length prefix is overlong, or a body is malformed. */
  datatype Stop = NeedMore | PrefixError | BodyError

  datatype Parsed<+M> = Parsed(msgs: seq<M>, rest: seq<byte>, stop: Stop)

  function Prepend<M>(msgs: seq<M>, p: Parsed<M>): Parsed<M> {
    p.(msgs := msgs + p.msgs)
  }

  /** All messages at the front of `s`, and the bytes left over. */
  function Parse<M>(c: Codec<M>, s: seq<byte>): Parsed<M>
    decreases |s|
  {
    match FirstFrame(s)
    case Partial => Parsed([], s, NeedMore)
    case BadPrefix => Parsed([], s, PrefixError)
    case Whole(body, size) =>
      match c.parse(body)
      case None => Parsed([], s, BodyError)
      case Some(m) => Prepend([m], Parse(c, s[size..]))
  }

  /** Reads one message at `offset`, as the clients' delimited decoders do. */
  method DecodeDelimited<M>(c: Codec<M>, buffer: seq<byte>, offset: nat)
    returns (r: Result<(M, nat), Stop>)
    requires offset <= |buffer|
    ensures r.Err? ==> Parse(c, buffer[offset..]) == Parsed([], buffer[offset..], r.error)
    ensures r.Ok? ==> offset < r.value.1 <= |buffer|
    ensures r.Ok? ==> Parse(c, buffer[offset..]) == Prepend([r.value.0], Parse(c, buffer[r.value.1..]))
  {
    ghost var tail := buffer[offset..];
    var prefix := DecodeVarint(buffer, offset);
    if prefix == Incomplete {
      return Err(NeedMore);
    }
    if prefix == Overlong {
      return Err(PrefixError);
    }
    var start := offset + prefix.length;
    if start + prefix.value > |buffer| {
      return Err(NeedMore);
    }
    var body := buffer[start..start + prefix.value];
    assert body == tail[prefix.length..prefix.length + prefix.value];
    var message := c.parse(body);
    if message.None? {
      return Err(BodyError);
    }
    assert tail[FirstFrame(tail).size..] == buffer[start + prefix.value..];
    return Ok((message.value, start + prefix.value));
  }

  lemma PrependTwice<M>(done: seq<M>, m: M, p: Parsed<M>)
    ensures Prepend(done, Prepend([m], p)) == Prepend(done + [m], p)
  {
    assert done + ([m] + p.msgs) == (done + [m]) + p.msgs;
  }

  lemma PrependNothing<M>(done: seq<M>, rest: seq<byte>, stop: Stop)
    ensures Prepend(done, Parsed([], rest, stop)) == Parsed(done, rest, stop)
  {
    assert done + [] == done;
  }

  // ------------------------------------------------------- what a parse means

  /** Splits `s` into its leading whole frames and what follows them. */
  ghost predicate FramesThen<M>(c: Codec<M>, s: seq<byte>, msgs: seq<M>, rest: seq<byte>)
    decreases |msgs|
  {
    if msgs == [] then s == rest
    else
      var f := FirstFrame(s);
      f.Whole? && c.parse(f.body) == Some(msgs[0]) && FramesThen(c, s[f.size..], msgs[1..], rest)
  }

  /** Nothing is lost or kept twice: the consumed bytes are exactly the frames of the messages,
      the leftover is the untouched suffix, and after a clean stop it holds no whole frame. */
  lemma {:induction false} ParseAccounts<M>(c: Codec<M>, s: seq<byte>)
    ensures var p := Parse(c, s);
            && FramesThen(c, s, p.msgs, p.rest)
            && |p.rest| <= |s| && s[|s| - |p.rest|..] == p.rest
            && (p.stop == NeedMore <==> FirstFrame(p.rest) == Partial)
            && (p.stop == PrefixError <==> FirstFrame(p.rest) == BadPrefix)
            && (p.stop == BodyError ==> FirstFrame(p.rest).Whole? && c.parse(FirstFrame(p.rest).body) == None)
    decreases |s|
  {
    var f := FirstFrame(s);
    if f.Whole? && c.parse(f.body).Some? {
      ParseAccounts(c, s[f.size..]);
      assert Parse(c, s).msgs[1..] == Parse(c, s[f.size..]).msgs;
    }
  }

  /** One turn of a reader's loop. */
  lemma ParseStep<M>(c: Codec<M>, s: seq<byte>, done: seq<M>)
    requires FirstFrame(s).Whole? && c.parse(FirstFrame(s).body).Some?
    ensures var f := FirstFrame(s);
            Prepend(done, Parse(c, s)) == Prepend(done + [c.parse(f.body).value], Parse(c, s[f.size..]))
  {
    var f := FirstFrame(s);
    var m, after := c.parse(f.body).value, Parse(c, s[f.size..]);
    assert done + ([m] + after.msgs) == (done + [m]) + after.msgs;
  }

  /** The end of a reader's loop. */
  lemma ParseStuck<M>(c: Codec<M>, s: seq<byte>, done: seq<M>)
    requires !FirstFrame(s).Whole?
    ensures Prepend(done, Parse(c, s)) == Parsed(done, s, if FirstFrame(s) == Partial then NeedMore else PrefixError)
  {
    assert done + [] == done;
  }

  lemma FirstFrameStable(s: seq<byte>, more: seq<byte>)
    requires FirstFrame(s) != Partial
    ensures FirstFrame(s + more) == FirstFrame(s)
  {
    DecodeStable(s, more);
    if FirstFrame(s).Whole? {
      var d := Decode(s);
      assert (s + more)[d.length..d.length + d.value] == s[d.length..d.length + d.value];
    }
  }

  /** Chunking invariance, for arbitrary bytes: parsing `a` and carrying its leftover into `b`
      is parsing `a + b`, and an error found in `a` is the error of `a + b`. */
  lemma {:induction false} ChunkingInvariance<M>(c: Codec<M>, a: seq<byte>, b: seq<byte>)
    ensures var p := Parse(c, a);
            Parse(c, a + b) ==
            if p.stop == NeedMore then Prepend(p.msgs, Parse(c, p.rest + b))
            else p.(rest := p.rest + b)
    decreases |a|
  {
    var f := FirstFrame(a);
    if f == Partial {
      PrependEmpty(Parse(c, a + b));
    } else {
      FirstFrameStable(a, b);
      if f.Whole? && c.parse(f.body).Some? {
        assert (a + b)[f.size..] == a[f.size..] + b;
        ChunkingInvariance(c, a[f.size..], b);
        var p := Parse(c, a[f.size..]);
        PrependCons(c.parse(f.body).value, p.msgs, Parse(c, p.rest + b));
      }
    }
  }

  lemma PrependEmpty<M>(p: Parsed<M>)
    ensures Prepend([], p) == p
  {
    assert [] + p.msgs == p.msgs;
  }

  lemma PrependCons<M>(m: M, done: seq<M>, p: Parsed<M>)
    ensures Prepend([m], Prepend(done, p)) == Prepend([m] + done, p)
  {
    assert [m] + (done + p.msgs) == ([m] + done) + p.msgs;
  }

  // -------------------------------------------------------- encoded streams

  lemma FirstFrameOfFrame(body: seq<byte>, more: seq<byte>)
    requires |body| < U32_LIMIT
    ensures FirstFrame(Frame(body) + more) == Whole(body, |Frame(body)|)
    ensures forall cut :: 0 <= cut < |Frame(body)| ==> FirstFrame(Frame(body)[..cut]) == Partial
  {
    var e := Encode(|body|);
    assert Frame(body) + more == e + (body + more);
    VarintRoundTrip(|body|, body + more);
    assert (Frame(body) + more)[|e|..|e| + |body|] == body;
    forall cut | 0 <= cut < |Frame(body)| ensures FirstFrame(Frame(body)[..cut]) == Partial {
      if cut < |e| {
        assert Frame(body)[..cut] == e[..cut];
      } else {
        VarintRoundTrip(|body|, body[..cut - |e|]);
        assert Frame(body)[..cut] == e + body[..cut - |e|];
      }
    }
  }

  lemma {:induction false} EncodeAllAppend<M>(c: Codec<M>, a: seq<M>, b: seq<M>)
    ensures EncodeAll(c, a + b) == EncodeAll(c, a) + EncodeAll(c, b)
  {
    if a == [] {
      assert a + b == b;
    } else {
      assert (a + b)[1..] == a[1..] + b;
      EncodeAllAppend(c, a[1..], b);
    }
  }

  lemma EncodeAllNonEmpty<M>(c: Codec<M>, msgs: seq<M>)
    requires msgs != []
    ensures EncodeAll(c, msgs) != []
  {
    EncodeShape(|c.serialize(msgs[0])|);
  }

  lemma EncodeAllOne<M>(c: Codec<M>, m: M)
    ensures EncodeAll(c, [m]) == Frame(c.serialize(m))
  {
    assert [m][1..] == [];
  }

  lemma SplitFront(read: seq<byte>, unread: seq<byte>, front: seq<byte>, tail: seq<byte>)
    requires read + unread == front + tail
    ensures |read| < |front| ==> read == front[..|read|]
    ensures |read| >= |front| ==> read == front + read[|front|..] && read[|front|..] + unread == tail
  {
    var all := read + unread;
    if |read| < |front| {
      assert read == all[..|read|] == front[..|read|];
    } else {
      assert read[..|front|] == all[..|front|] == front;
      assert read[|front|..] + unread == all[|front|..] == tail;
    }
  }

  /** A reader of `read` has obtained a prefix of `queue`; its leftover with `unread` encodes the rest. */
  ghost predicate ReadsPrefix<M>(c: Codec<M>, queue: seq<M>, p: Parsed<M>, unread: seq<byte>) {
    && p.stop == NeedMore
    && p.msgs <= queue
    && p.rest + unread == EncodeAll(c, queue[|p.msgs|..])
    && (unread == [] ==> p.msgs == queue && p.rest == [])
  }

  lemma ReadsPrefixCons<M>(c: Codec<M>, queue: seq<M>, p: Parsed<M>, unread: seq<byte>)
    requires queue != [] && ReadsPrefix(c, queue[1..], p, unread)
    ensures ReadsPrefix(c, queue, Prepend([queue[0]], p), unread)
  {
    assert queue == [queue[0]] + queue[1..];
    assert queue[1..][|p.msgs|..] == queue[|p.msgs| + 1..];
  }

  lemma ParseFrame<M>(c: Codec<M>, m: M, more: seq<byte>)
    requires Sendable(c, m)
    ensures Parse(c, Frame(c.serialize(m)) + more) == Prepend([m], Parse(c, more))
  {
    var f := Frame(c.serialize(m));
    FirstFrameOfFrame(c.serialize(m), more);
    assert (f + more)[|f|..] == more;
  }

  /** Appends one length-delimited message: to an encoded stream it adds exactly that message, and
      behind any bytes the added part reads back as the message, whatever follows. */
  method EncodeDelimited<M>(c: Codec<M>, bytes: seq<byte>, message: M) returns (extended: seq<byte>)
    ensures extended == bytes + EncodeAll(c, [message])
    ensures forall msgs :: bytes == EncodeAll(c, msgs) ==> extended == EncodeAll(c, msgs + [message])
    ensures Sendable(c, message) ==>
              forall more :: Parse(c, extended[|bytes|..] + more) == Prepend([message], Parse(c, more))
  {
    var body := c.serialize(message);
    var prefix := EncodeVarint(|body|);
    extended := bytes + prefix;
    extended := extended + body;
    EncodeAllOne(c, message);
    assert extended == bytes + Frame(body);
    forall msgs | bytes == EncodeAll(c, msgs) ensures extended == EncodeAll(c, msgs + [message]) {
      EncodeAllAppend(c, msgs, [message]);
    }
    assert extended[|bytes|..] == Frame(body);
    if Sendable(c, message) {
      forall more ensures Parse(c, extended[|bytes|..] + more) == Prepend([message], Parse(c, more)) {
        ParseFrame(c, message, more);
      }
    }
  }

  /** A pipe that carries the encodings of `queue`: wherever the reader's bytes end, it obtains a
      prefix of the queue, and its leftover with the unread bytes encodes the rest. */
  lemma {:induction false} PipeRead<M>(c: Codec<M>, queue: seq<M>, read: seq<byte>, unread: seq<byte>)
    requires AllSendable(c, queue)
    requires read + unread == EncodeAll(c, queue)
    ensures ReadsPrefix(c, queue, Parse(c, read), unread)
    decreases |queue|
  {
    if queue == [] {
      assert read == [];
    } else {
      var m := queue[0];
      var body := c.serialize(m);
      assert Sendable(c, m);
      SplitFront(read, unread, Frame(body), EncodeAll(c, queue[1..]));
      if |read| < |Frame(body)| {
        FirstFrameOfFrame(body, []);
        assert queue[0..] == queue;
      } else {
        var more := read[|Frame(body)|..];
        ParseFrame(c, m, more);
        PipeRead(c, queue[1..], more, unread);
        ReadsPrefixCons(c, queue, Parse(c, more), unread);
      }
    }
  }

  function Concat(chunks: seq<seq<byte>>): seq<byte> {
    if chunks == [] then [] else Concat(Front(chunks)) + Last(chunks)
  }

  /** A whole run of reads: each chunk is parsed behind the leftover of the one before it. */
  function ReadAll<M>(c: Codec<M>, chunks: seq<seq<byte>>): Parsed<M> {
    if chunks == [] then Parsed([], [], NeedMore)
    else
      var before := ReadAll(c, Front(chunks));
      if before.stop != NeedMore then before
      else Prepend(before.msgs, Parse(c, before.rest + Last(chunks)))
  }

  /** However the socket cuts the stream, a run of reads obtains what one read of all bytes would. */
  lemma {:induction false} ReadAllIsParse<M>(c: Codec<M>, chunks: seq<seq<byte>>)
    ensures var run, whole := ReadAll(c, chunks), Parse(c, Concat(chunks));
            run.msgs == whole.msgs && run.stop == whole.stop
            && (run.stop == NeedMore ==> run.rest == whole.rest)
  {
    if chunks == [] {
    } else {
      var front := Front(chunks);
      ReadAllIsParse(c, front);
      ChunkingInvariance(c, Concat(front), Last(chunks));
    }
  }

  /** Every chunking of an encoded stream yields exactly its messages, once each, in order, and
      carries exactly the incomplete tail. */
  lemma AnyChunkingYieldsTheStream<M>(c: Codec<M>, msgs: seq<M>, last: M, cut: nat, chunks: seq<seq<byte>>)
    requires AllSendable(c, msgs) && |c.serialize(last)| < U32_LIMIT
    requires cut < |Frame(c.serialize(last))|
    requires Concat(chunks) == EncodeAll(c, msgs) + Frame(c.serialize(last))[..cut]
    ensures ReadAll(c, chunks) == Parsed(msgs, Frame(c.serialize(last))[..cut], NeedMore)
  {
    var body := c.serialize(last);
    var tail := Frame(body)[..cut];
    ReadAllIsParse(c, chunks);
    assert EncodeAll(c, msgs) + [] == EncodeAll(c, msgs);
    PipeRead(c, msgs, EncodeAll(c, msgs), []);
    ChunkingInvariance(c, EncodeAll(c, msgs), tail);
    FirstFrameOfFrame(body, []);
    assert [] + tail == tail;
  }
}
