/** Length-prefixed message framing over a byte stream, src/network/peer.rs.
    The buffered reader and writer and the socket between them are one FIFO byte stream
    that may accept or yield any number of bytes at each call. */
module Framing {

  import opened Prelude
  import opened HashOrder

  type Message = seq<Byte>

  const LENGTH_SIZE: nat := 4

  /** One more than the largest length a 32-bit prefix can state. */
  const LENGTH_LIMIT: nat := Pow256(LENGTH_SIZE)

  /** `to_be_bytes` of the low `size` bytes of `n`. */
  function ToBigEndian(n: nat, size: nat): (r: seq<Byte>)
    ensures |r| == size
  {
    if size == 0 then [] else ToBigEndian(n / 256, size - 1) + [(n % 256) as Byte]
  }

  lemma {:induction false} NumberRoundTrip(n: nat, size: nat)
    requires n < Pow256(size)
    ensures FromBigEndian(ToBigEndian(n, size)) == n
  {
    if size > 0 {
      NumberRoundTrip(n / 256, size - 1);
    }
  }

  lemma {:induction false} BytesRoundTrip(s: seq<Byte>)
    ensures ToBigEndian(FromBigEndian(s), |s|) == s
  {
    if s != [] {
      BytesRoundTrip(s[..|s| - 1]);
    }
  }

  /** `(self.msg_length as u32).to_be_bytes()`. */
  function LengthPrefix(n: nat): (r: seq<Byte>)
    ensures |r| == LENGTH_SIZE
  {
    ToBigEndian(n, LENGTH_SIZE)
  }

  /** The prefix is four bytes, the most significant one first. */
  lemma PrefixBytes(a: Byte, b: Byte, c: Byte, d: Byte)
    ensures LengthPrefix(((a as nat * 256 + b as nat) * 256 + c as nat) * 256 + d as nat) == [a, b, c, d]
  {
    var one, two, three := a as nat, a as nat * 256 + b as nat, (a as nat * 256 + b as nat) * 256 + c as nat;
    assert ToBigEndian(one, 1) == [] + [a];
    assert ToBigEndian(two, 2) == [a] + [b];
    assert ToBigEndian(three, 3) == [a, b] + [c];
  }

  lemma PrefixInjective(m: nat, n: nat)
    requires m < LENGTH_LIMIT && n < LENGTH_LIMIT && LengthPrefix(m) == LengthPrefix(n)
    ensures m == n
  {
    NumberRoundTrip(m, LENGTH_SIZE);
    NumberRoundTrip(n, LENGTH_SIZE);
  }

  function Frame(m: Message): seq<Byte> {
    LengthPrefix(|m|) + m
  }

  function Encode(ms: seq<Message>): seq<Byte> {
    if ms == [] then [] else Frame(ms[0]) + Encode(ms[1..])
  }

  /** The messages whose length prefix is not truncated and that the reader does not
      take for the end of the stream. */
  ghost predicate Sendable(ms: seq<Message>) {
    forall m | m in ms :: 0 < |m| < LENGTH_LIMIT
  }

  lemma {:induction false} EncodeSnoc(ms: seq<Message>, m: Message)
    ensures Encode(ms + [m]) == Encode(ms) + Frame(m)
  {
    if ms == [] {
      assert ms + [m] == [m];
    } else {
      EncodeSnoc(ms[1..], m);
      assert (ms + [m])[1..] == ms[1..] + [m];
    }
  }

  /** Every length fits its prefix. */
  ghost predicate Fitting(ms: seq<Message>) {
    forall m | m in ms :: |m| < LENGTH_LIMIT
  }

  lemma SendableFits(ms: seq<Message>)
    requires Sendable(ms)
    ensures Fitting(ms)
  {
  }

  /** Frames decode in one way only: a list of frames that starts the encoding of `b`
      is the encoding of the first messages of `b`. */
  lemma {:induction false} FramesDecodeUniquely(a: seq<Message>, rest: seq<Byte>, b: seq<Message>)
    requires Encode(a) + rest == Encode(b) && Fitting(a) && Fitting(b)
    ensures a <= b && rest == Encode(b[|a|..])
  {
    if a == [] {
      assert b[|a|..] == b;
      assert Encode(a) + rest == rest;
    } else {
      FirstFrame(a, rest, b);
      FramesDecodeUniquely(a[1..], rest, b[1..]);
      hide Encode, Fitting;
      assert a == [a[0]] + a[1..] && b == [b[0]] + b[1..];
      assert b[1..][|a| - 1..] == b[|a|..];
    }
  }

  lemma FirstFrame(a: seq<Message>, rest: seq<Byte>, b: seq<Message>)
    requires a != [] && Encode(a) + rest == Encode(b) && Fitting(a) && Fitting(b)
    ensures b != [] && b[0] == a[0] && Encode(a[1..]) + rest == Encode(b[1..]) && Fitting(a[1..]) && Fitting(b[1..])
  {
    hide Encode, Frame, Fitting;
    EncodeFirst(a);
    EncodeFirst(b);
    FittingParts(a);
    Assoc(Frame(a[0]), Encode(a[1..]), rest);
    FittingParts(b);
    SameFirstMessage(a[0], Encode(a[1..]) + rest, b[0], Encode(b[1..]));
  }

  lemma EncodeFirst(ms: seq<Message>)
    ensures ms != [] ==> Encode(ms) == Frame(ms[0]) + Encode(ms[1..])
    ensures Encode(ms) == [] <==> ms == []
  {
  }

  lemma FittingParts(ms: seq<Message>)
    requires ms != [] && Fitting(ms)
    ensures |ms[0]| < LENGTH_LIMIT && Fitting(ms[1..])
  {
  }

  lemma SameFirstMessage(m: Message, x: seq<Byte>, n: Message, y: seq<Byte>)
    requires Frame(m) + x == Frame(n) + y
    requires |m| < LENGTH_LIMIT && |n| < LENGTH_LIMIT
    ensures m == n && x == y
  {
    SplitFrame(m, x);
    SplitFrame(n, y);
    PrefixInjective(|m|, |n|);
  }

  lemma SplitFrame(m: Message, x: seq<Byte>)
    ensures var s := Frame(m) + x;
            && s[..LENGTH_SIZE] == LengthPrefix(|m|)
            && s[LENGTH_SIZE..LENGTH_SIZE + |m|] == m
            && s[LENGTH_SIZE + |m|..] == x
  {
  }

  datatype DecodeState = DecodingLength | DecodingPayload
  datatype SocketRead = Got(bytes: seq<Byte>) | ReadFailed
  datatype ReadResult = Continue | Received(message: Message) | ReadEof | ReadError

  /** The start of a frame that has been read but not handed out. */
  ghost function PartialFrame(state: DecodeState, msgLength: nat, read: seq<Byte>): seq<Byte> {
    if state == DecodingLength then read else LengthPrefix(msgLength) + read
  }

  class ReadContext {
    var buffer: seq<Byte>
    var msgLength: nat
    var readLength: nat
    var state: DecodeState

    /** Everything read from the stream, and every message handed out, since the start. */
    ghost var consumed: seq<Byte>
    ghost var delivered: seq<Message>

    ghost function Partial(): seq<Byte>
      requires readLength <= |buffer|
      reads this
    {
      PartialFrame(state, msgLength, buffer[..readLength])
    }

    /** The bookkeeping is in step with the stream; the buffer may be just full. */
    ghost predicate Filled()
      reads this
    {
      && readLength <= msgLength <= |buffer|
      && LENGTH_SIZE <= |buffer| && msgLength < LENGTH_LIMIT
      && (state == DecodingLength ==> msgLength == LENGTH_SIZE)
      && Sendable(delivered)
      && consumed == Encode(delivered) + Partial()
    }

    ghost predicate Valid()
      reads this
    {
      Filled() && (readLength < msgLength || (state == DecodingPayload && msgLength == 0))
    }

    constructor ()
      ensures Valid() && consumed == [] && delivered == []
    {
      buffer := [0, 0, 0, 0];
      msgLength := LENGTH_SIZE;
      readLength := 0;
      state := DecodingLength;
      consumed := [];
      delivered := [];
    }

    /** One call of `read`. The socket yields at most the bytes asked for. */
    method Read(io: SocketRead) returns (r: ReadResult)
      requires Valid()
      requires io.Got? ==> |io.bytes| <= msgLength - readLength
      modifies this
      ensures Valid()
      ensures consumed == old(consumed) + if io.Got? then io.bytes else []
      ensures delivered == old(delivered) + if r.Received? then [r.message] else []
      ensures r == ReadEof <==> io == Got([])
      ensures r == ReadError <==> io == ReadFailed
    {
      match io {
        case ReadFailed =>
          r := ReadError;
        case Got(bytes) =>
          if |bytes| == 0 {
            r := ReadEof;
            return;
          }
          FillBuffer(bytes);
          if readLength == msgLength {
            match state {
              case DecodingLength =>
                StartPayload();
                r := Continue;
              case DecodingPayload =>
                var payload := FinishPayload();
                r := Received(payload);
            }
          } else {
            r := Continue;
          }
      }
    }

    method FillBuffer(bytes: seq<Byte>)
      requires Valid() && |bytes| <= msgLength - readLength
      modifies this`consumed, this`buffer, this`readLength
      ensures Filled() && readLength == old(readLength) + |bytes|
      ensures consumed == old(consumed) + bytes
    {
      BufferAfterRead(buffer, readLength, bytes);
      PartialGrows(state, msgLength, Encode(delivered), buffer[..readLength], bytes);
      buffer := buffer[..readLength] + bytes + buffer[readLength + |bytes|..];
      readLength := readLength + |bytes|;
      consumed := consumed + bytes;
    }

    method StartPayload()
      requires Filled() && state == DecodingLength && readLength == msgLength
      modifies this`buffer, this`msgLength, this`readLength, this`state
      ensures Valid()
    {
      var length := FromBigEndian(buffer[0..LENGTH_SIZE]);
      ValueBound(buffer[0..LENGTH_SIZE]);
      BytesRoundTrip(buffer[0..LENGTH_SIZE]);
      assert Partial() == buffer[0..LENGTH_SIZE] == LengthPrefix(length);
      state := DecodingPayload;
      readLength := 0;
      msgLength := length;
      if |buffer| < msgLength {
        buffer := buffer + seq(msgLength - |buffer|, _ => 0);
      }
      assert Partial() == LengthPrefix(length);
    }

    method FinishPayload() returns (payload: Message)
      requires Filled() && state == DecodingPayload && 0 < readLength == msgLength
      modifies this`delivered, this`msgLength, this`readLength, this`state
      ensures Valid() && delivered == old(delivered) + [payload]
    {
      payload := buffer[0..msgLength];
      EncodeSnoc(delivered, payload);
      assert Partial() == Frame(payload);
      delivered := delivered + [payload];
      state := DecodingLength;
      readLength := 0;
      msgLength := LENGTH_SIZE;
    }
  }

  lemma BufferAfterRead(buffer: seq<Byte>, at: nat, bytes: seq<Byte>)
    requires at + |bytes| <= |buffer|
    ensures var b := buffer[..at] + bytes + buffer[at + |bytes|..];
            |b| == |buffer| && b[..at + |bytes|] == buffer[..at] + bytes
  {
  }

  lemma PartialGrows(state: DecodeState, msgLength: nat, before: seq<Byte>, read: seq<Byte>, bytes: seq<Byte>)
    ensures before + PartialFrame(state, msgLength, read + bytes) ==
            before + PartialFrame(state, msgLength, read) + bytes
  {
    assert PartialFrame(state, msgLength, read + bytes) == PartialFrame(state, msgLength, read) + bytes;
  }

  datatype WriteState = WritingLength | WritingPayload
  datatype WriterOutcome = Accepted(count: nat) | WriterFailed
  datatype WriteResult = Complete | ChanClosed | WriteEof | WriteError

  /** The writer takes at least one byte at every call. */
  ghost predicate Accepting(io: seq<WriterOutcome>) {
    forall o | o in io :: o.Accepted? && o.count > 0
  }

  class WriteContext {
    var queue: seq<Message>
    var disconnected: bool
    var lenBuffer: seq<Byte>
    var msgBuffer: Message
    var msgLength: nat
    var writtenLength: nat
    var state: WriteState

    /** Everything the writer accepted, in order. */
    var sent: seq<Byte>
    /** Every message taken off the queue. */
    ghost var taken: seq<Message>

    /** How much of the current frame, length and payload, has been written. */
    function Offset(): nat
      reads this
    {
      writtenLength + if state == WritingLength then 0 else LENGTH_SIZE
    }

    ghost function Unsent(): seq<Byte>
      requires Offset() <= |lenBuffer| + |msgBuffer|
      reads this
    {
      (lenBuffer + msgBuffer)[Offset()..]
    }

    ghost predicate Valid()
      reads this
    {
      && |lenBuffer| == LENGTH_SIZE
      && msgLength == |msgBuffer|
      && writtenLength <= PartLength()
      && (state == WritingLength ==> msgBuffer in taken)
      && sent + Unsent() == Encode(taken)
    }

    /** The bytes still to write, of the current frame and of the queue. */
    function Left(): int
      reads this
    {
      |lenBuffer| + |msgBuffer| - Offset() + |Encode(queue)|
    }

    /** How long the part of the frame being written is. */
    function PartLength(): nat
      reads this
    {
      if state == WritingLength then LENGTH_SIZE else msgLength
    }

    /** Nothing of the frames taken off the queue is left to write. */
    predicate Idle()
      reads this
    {
      state == WritingPayload && writtenLength == msgLength
    }

    constructor ()
      ensures Valid() && fresh(this)
      ensures sent == [] && taken == [] && queue == [] && !disconnected
    {
      queue := [];
      disconnected := false;
      lenBuffer := [0, 0, 0, 0];
      msgBuffer := [];
      msgLength := 0;
      writtenLength := 0;
      state := WritingPayload;
      sent := [];
      taken := [];
    }

    /** `Handle::write`, with the message already serialised. A message for a detached channel
        is dropped. */
    method Enqueue(m: Message, attached: bool)
      requires Valid()
      modifies this`queue
      ensures Valid() && queue == if attached then old(queue) + [m] else old(queue)
    {
      if attached {
        queue := queue + [m];
      }
    }

    /** `write`: send until the queue is empty, the writer refuses, or it fails. The writer's
        answers come from `io`; a writer with no answer left would block, an error too. */
    method Write(io: seq<WriterOutcome>) returns (r: WriteResult)
      requires Valid()
      modifies this
      ensures Valid() && disconnected == old(disconnected)
      ensures taken + queue == old(taken + queue)
      ensures old(sent) <= sent
      ensures r == Complete || r == ChanClosed ==> queue == [] && Idle()
      ensures r == ChanClosed ==> disconnected
      ensures Accepting(io) && old(Left()) <= |io| ==> r == Complete || r == ChanClosed
    {
      hide Encode;
      var i := 0;
      while true
        invariant 0 <= i <= |io|
        invariant Accepting(io) ==> Left() + i <= old(Left())
        invariant Valid() && disconnected == old(disconnected)
        invariant taken + queue == old(taken + queue)
        invariant old(sent) <= sent
        decreases |queue|, state == WritingLength, PartLength() - writtenLength
      {
        if state == WritingLength && writtenLength == LENGTH_SIZE {
          writtenLength := 0;
          state := WritingPayload;
        } else if Idle() {
          // flush; an error here keeps the queue as it is
          if i < |io| && io[i] == WriterFailed { return WriteError; }
          if queue == [] {
            return if disconnected then ChanClosed else Complete;
          }
          TakeMessage();
        } else {
          assert Left() > 0;
          if i == |io| || io[i] == WriterFailed {
            assert i < |io| ==> io[i] in io;
            return WriteError;
          }
          assert io[i] in io;
          var written := Emit(io[i].count);
          i := i + 1;
          if written == 0 { return WriteEof; }
        }
      }
    }

    /** The writer accepts at most `limit` of the next bytes of the length or the payload. */
    method Emit(limit: nat) returns (written: nat)
      requires Valid()
      modifies this`sent, this`writtenLength
      ensures Valid() && old(sent) <= sent
      ensures written == Min(limit, PartLength() - old(writtenLength))
      ensures writtenLength == old(writtenLength) + written && Left() == old(Left()) - written
    {
      hide Encode;
      written := Min(limit, PartLength() - writtenLength);
      var part := if state == WritingLength then lenBuffer else msgBuffer;
      SliceOfFrame(lenBuffer, msgBuffer, writtenLength, written);
      Emitted(sent, lenBuffer + msgBuffer, Offset(), written);
      sent := sent + part[writtenLength..writtenLength + written];
      writtenLength := writtenLength + written;
    }

    method TakeMessage()
      requires Valid() && Idle() && queue != []
      modifies this`taken, this`msgBuffer, this`queue, this`msgLength, this`lenBuffer, this`writtenLength, this`state
      ensures Valid() && state == WritingLength && queue == old(queue)[1..]
      ensures taken + queue == old(taken + queue) && Left() == old(Left())
    {
      EncodeFirst(queue);
      hide Encode;
      NextFrame(taken, queue, sent);
      assert Unsent() == [];
      taken := taken + [queue[0]];
      msgBuffer := queue[0];
      queue := queue[1..];
      msgLength := |msgBuffer|;
      lenBuffer := LengthPrefix(msgLength);
      writtenLength := 0;
      state := WritingLength;
    }
  }

  lemma NextFrame(taken: seq<Message>, queue: seq<Message>, sent: seq<Byte>)
    requires queue != []
    ensures taken + [queue[0]] + queue[1..] == taken + queue
    ensures sent + [] == Encode(taken) ==>
              sent + (LengthPrefix(|queue[0]|) + queue[0])[0..] == Encode(taken + [queue[0]])
  {
    EncodeSnoc(taken, queue[0]);
    assert Frame(queue[0])[0..] == Frame(queue[0]);
    assert sent + [] == sent;
  }

  lemma SliceOfFrame(length: seq<Byte>, payload: seq<Byte>, from: nat, n: nat)
    ensures from + n <= |length| ==> length[from..from + n] == (length + payload)[from..from + n]
    ensures from + n <= |payload| ==> payload[from..from + n] == (length + payload)[|length| + from..|length| + from + n]
  {
  }

  lemma Emitted(sent: seq<Byte>, frame: seq<Byte>, at: nat, n: nat)
    requires at + n <= |frame|
    ensures sent + frame[at..at + n] + frame[at + n..] == sent + frame[at..]
  {
    assert frame[at..] == frame[at..at + n] + frame[at + n..];
  }

  function Min(a: nat, b: nat): nat {
    if a <= b then a else b
  }

  /** What the reader holds back never contains a whole non-empty frame. */
  lemma PartialIsNoFrame(r: ReadContext, m: Message, rest: seq<Byte>)
    requires r.Valid() && 0 < |m| < LENGTH_LIMIT
    ensures r.Partial() != Frame(m) + rest
  {
    if r.state == DecodingPayload && r.Partial() == Frame(m) + rest {
      SplitFrame(m, rest);
      assert r.Partial()[..LENGTH_SIZE] == LengthPrefix(r.msgLength);
      PrefixInjective(r.msgLength, |m|);
    }
  }

  /** Whatever the partial reads and writes were, the reader has handed out the first of the
      messages queued so far, in order, none of them empty; and it has handed out all of them
      exactly when none is empty, every message is written and every byte read. */
  lemma DeliveredInOrder(w: WriteContext, r: ReadContext, ms: seq<Message>)
    requires w.Valid() && r.Valid()
    requires w.taken + w.queue == ms && Fitting(ms)
    requires r.consumed <= w.sent
    ensures r.delivered <= ms && Sendable(r.delivered)
    ensures r.delivered == ms <==> Sendable(ms) && w.queue == [] && w.Idle() && r.consumed == w.sent
  {
    var late := w.sent[|r.consumed|..];
    var rest := r.Partial() + late + w.Unsent();
    StreamSplits(Encode(r.delivered), r.Partial(), late, w.Unsent(), w.sent, Encode(w.taken));
    assert forall m | m in w.taken :: m in ms;
    FramesDecodeUniquely(r.delivered, rest, w.taken);
    assert r.delivered <= w.taken <= ms;
    assert r.delivered == ms <==> r.delivered == w.taken && w.queue == [];
    if Sendable(ms) {
      AllThrough(w, r, late);
    }
  }

  lemma StreamSplits(done: seq<Byte>, partial: seq<Byte>, late: seq<Byte>, unsent: seq<Byte>, sent: seq<Byte>, all: seq<Byte>)
    requires sent + unsent == all
    requires done + partial <= sent && late == sent[|done + partial|..]
    ensures done + (partial + late + unsent) == all
    ensures late == [] <==> done + partial == sent
  {
    assert sent == done + partial + late;
    assert done + (partial + late + unsent) == done + partial + late + unsent;
  }

  /** Nothing is held back, in flight or unwritten exactly when every message taken off the
      queue has been handed out. */
  lemma AllThrough(w: WriteContext, r: ReadContext, late: seq<Byte>)
    requires w.Valid() && r.Valid() && r.delivered <= w.taken
    requires Sendable(w.taken)
    requires r.Partial() + late + w.Unsent() == Encode(w.taken[|r.delivered|..])
    ensures r.delivered == w.taken <==> late == [] && w.Idle()
  {
    var missing := w.taken[|r.delivered|..];
    if missing == [] {
      assert r.delivered == w.taken && w.Unsent() == [];
    } else {
      assert missing[0] in w.taken;
      PartialIsNoFrame(r, missing[0], Encode(missing[1..]));
    }
  }

  /** An empty message is outside the protocol: once its prefix is read, the reader asks for
      no bytes, so its next successful read is an end of stream. */
  lemma EmptyMessageStalls(r: ReadContext, ms: seq<Message>)
    requires r.Valid() && Sendable(ms)
    requires r.consumed == Encode(ms + [[]])
    ensures r.delivered == ms && r.msgLength == r.readLength
  {
    var all := ms + [[]];
    FramesDecodeUniquely(r.delivered, r.Partial(), all);
    NoEmptyDelivered(r.delivered, ms);
    var missing := all[|r.delivered|..];
    if |r.delivered| < |ms| {
      assert missing[0] == ms[|r.delivered|];
      PartialIsNoFrame(r, missing[0], Encode(missing[1..]));
    } else {
      assert missing == [[]] && r.delivered == ms;
      assert r.Partial() == Frame([]);
      StalledAt(r);
    }
  }

  lemma NoEmptyDelivered(delivered: seq<Message>, ms: seq<Message>)
    requires Sendable(delivered) && delivered <= ms + [[]]
    ensures |delivered| <= |ms|
  {
    assert forall i | 0 <= i < |delivered| :: |delivered[i]| > 0 && delivered[i] == (ms + [[]])[i];
    assert (ms + [[]])[|ms|] == [];
  }

  lemma StalledAt(r: ReadContext)
    requires r.Valid() && r.Partial() == Frame([])
    ensures r.msgLength == r.readLength
  {
    assert Frame([])[..LENGTH_SIZE] == LengthPrefix(0);
    if r.state == DecodingPayload {
      assert r.Partial()[..LENGTH_SIZE] == LengthPrefix(r.msgLength);
      PrefixInjective(r.msgLength, 0);
    }
  }

  datatype Event = Send(message: Message) | Write(io: seq<WriterOutcome>) | Read(want: nat)

  /** Every message queued by a run. */
  function Sent(events: seq<Event>): seq<Message> {
    if events == [] then []
    else Sent(events[..|events| - 1]) +
         (if events[|events| - 1].Send? then [events[|events| - 1].message] else [])
  }

  /** Both ends of one stream: the reader has consumed what the writer sent up to `position`. */
  ghost predicate Connected(w: WriteContext, r: ReadContext, position: nat, ms: seq<Message>)
    reads w, r
  {
    && w.Valid() && r.Valid()
    && w.taken + w.queue == ms
    && position <= |w.sent| && r.consumed == w.sent[..position]
  }

  lemma PrefixExtends(s: seq<Byte>, n: nat, count: nat, longer: seq<Byte>)
    requires n + count <= |s|
    ensures s[..n] + s[n..n + count] == s[..n + count]
    ensures s <= longer ==> longer[..n] == s[..n]
  {
  }

  method Step(w: WriteContext, r: ReadContext, position: nat, event: Event, ghost ms: seq<Message>)
    returns (position': nat, received: seq<Message>)
    requires Connected(w, r, position, ms)
    modifies w, r
    ensures Connected(w, r, position', ms + if event.Send? then [event.message] else [])
    ensures r.delivered == old(r.delivered) + received
  {
    hide Encode, Sendable;
    position', received := position, [];
    match event {
      case Send(m) =>
        w.Enqueue(m, true);
      case Write(io) =>
        ghost var before := w.sent;
        var _ := w.Write(io);
        PrefixExtends(before, position, 0, w.sent);
      case Read(want) =>
        position', received := ReadSome(w, r, position, want, ms);
    }
  }

  method ReadSome(w: WriteContext, r: ReadContext, position: nat, want: nat, ghost ms: seq<Message>)
    returns (position': nat, received: seq<Message>)
    requires Connected(w, r, position, ms)
    modifies r
    ensures Connected(w, r, position', ms)
    ensures r.delivered == old(r.delivered) + received
    ensures position' == position + Min(want, Min(|w.sent| - position, old(r.msgLength - r.readLength)))
  {
    hide Encode, Sendable;
    received := [];
    var count := Min(want, Min(|w.sent| - position, r.msgLength - r.readLength));
    PrefixExtends(w.sent, position, count, w.sent);
    var result := r.Read(if count == 0 then ReadFailed else Got(w.sent[position..position + count]));
    position' := position + count;
    if result.Received? {
      received := [result.message];
    }
  }

  /** The two ends after any run over one stream: messages are queued, the writer is polled with
      any answers, and the reader with any number of the bytes in flight. */
  method Play(events: seq<Event>) returns (w: WriteContext, r: ReadContext, position: nat, received: seq<Message>)
    ensures fresh(w) && fresh(r) && Connected(w, r, position, Sent(events)) && received == r.delivered
  {
    hide Connected;
    w := new WriteContext();
    r := new ReadContext();
    received, position := [], 0;
    assert Connected(w, r, 0, []) by { NewlyConnected(w, r); }
    for k := 0 to |events|
      invariant fresh(w) && fresh(r)
      invariant Connected(w, r, position, Sent(events[..k]))
      invariant received == r.delivered
    {
      assert events[..k + 1][..k] == events[..k];
      var more;
      position, more := Step(w, r, position, events[k], Sent(events[..k]));
      received := received + more;
    }
    assert events[..|events|] == events;
  }

  lemma NewlyConnected(w: WriteContext, r: ReadContext)
    requires w.Valid() && r.Valid() && w.taken == [] && w.queue == [] && r.consumed == []
    ensures Connected(w, r, 0, [])
  {
  }

  /** After any run, `pending` counts the bytes and messages not yet through. Everything queued is
      received, in order, exactly if nothing is pending and no message was empty or too long; as
      long as none is too long, what is received are messages from the front, none of them
      empty. */
  method Converse(events: seq<Event>) returns (received: seq<Message>, pending: nat)
    ensures received == Sent(events) <==> Sendable(Sent(events)) && pending == 0
    ensures Sendable(received) && (Fitting(Sent(events)) ==> received <= Sent(events))
  {
    hide Encode, Sent;
    var w, r, position;
    w, r, position, received := Play(events);
    if Fitting(Sent(events)) {
      DeliveredInOrder(w, r, Sent(events));
    }
    pending := |w.queue| + (|w.sent| - position) + (if w.Idle() then 0 else 1);
  }

  /** With sendable messages the reader always asks for more. */
  lemma NeverStalls(w: WriteContext, r: ReadContext, position: nat, ms: seq<Message>)
    requires Connected(w, r, position, ms) && Sendable(ms)
    ensures r.readLength < r.msgLength
  {
    if r.state == DecodingPayload && r.msgLength == 0 {
      var late := w.sent[position..];
      var rest := r.Partial() + late + w.Unsent();
      StreamSplits(Encode(r.delivered), r.Partial(), late, w.Unsent(), w.sent, Encode(w.taken));
      assert forall m | m in w.taken :: m in ms;
      FramesDecodeUniquely(r.delivered, rest, w.taken);
      var missing := w.taken[|r.delivered|..];
      assert rest[..LENGTH_SIZE] == LengthPrefix(0) && rest != [];
      EncodeFirst(missing);
      SplitFrame(missing[0], Encode(missing[1..]));
      assert missing[0] in ms;
      PrefixInjective(0, |missing[0]|);
    }
  }

  /** From any state of a run with sendable messages, a writer that accepts something at each call
      and a reader that gets a byte at each call bring everything through. */
  method Finish(w: WriteContext, r: ReadContext, position: nat, ghost ms: seq<Message>)
    returns (position': nat, received: seq<Message>)
    requires Connected(w, r, position, ms) && Sendable(ms)
    modifies w, r
    ensures Connected(w, r, position', ms) && position' == |w.sent|
    ensures r.delivered == old(r.delivered) + received == ms
  {
    hide Encode, Sendable;
    ghost var before := w.sent;
    var _ := w.Write(seq(w.Left(), _ => Accepted(1)));
    PrefixExtends(before, position, 0, w.sent);
    position', received := position, [];
    while position' < |w.sent|
      invariant Connected(w, r, position', ms) && w.queue == [] && w.Idle()
      invariant r.delivered == old(r.delivered) + received
    {
      NeverStalls(w, r, position', ms);
      var more;
      position', more := ReadSome(w, r, position', 1, ms);
      received := received + more;
    }
    SendableFits(ms);
    DeliveredInOrder(w, r, ms);
  }

  /** So any run can be brought to an end at which everything is received. */
  method ConverseFully(events: seq<Event>) returns (received: seq<Message>)
    requires Sendable(Sent(events))
    ensures received == Sent(events)
  {
    hide Connected, Sendable, Sent;
    var w, r, position, more;
    w, r, position, received := Play(events);
    position, more := Finish(w, r, position, Sent(events));
    received := received + more;
  }
}
