/** The adaptive websocket connection (pkg/vxproto/ws.go): packets framed by a marker and a
    32-bit little-endian length, and a sticky fallback to unframed messages. */
module Framing {
  import opened Basics

  const MARKER: Bytes := [0xf0, 0xa0, 0x60, 0x30]
  const TWO_TO_THE_32 := 0x1_0000_0000

  /** The four little-endian bytes of uint32(n). */
  function ToLittleEndian(n: nat): (b: Bytes)
    ensures |b| == 4
  {
    var low, mid, high := n / 0x100, n / 0x100 / 0x100, n / 0x100 / 0x100 / 0x100;
    [n % 0x100, low % 0x100, mid % 0x100, high % 0x100]
  }

  function FromLittleEndian(b: Bytes): nat
    requires |b| == 4
  {
    b[0] as int + 0x100 * (b[1] as int + 0x100 * (b[2] as int + 0x100 * (b[3] as int)))
  }

  function Frame(payload: Bytes): Bytes {
    MARKER + ToLittleEndian(|payload|) + payload
  }

  /** What an endpoint remembers between calls. */
  datatype Side = Side(buffer: Option<Bytes>, original: bool)

  /** The message holds at least one whole frame. */
  predicate LooksFramed(m: Bytes) {
    8 <= |m| && MARKER <= m && FromLittleEndian(m[4..8]) <= |m| - 8
  }

  function Encode(side: Side, payload: Bytes): Bytes {
    if side.original then payload else Frame(payload)
  }

  /** One read from a buffer: the data for the caller and the endpoint afterwards. */
  function Extract(buffer: Bytes, original: bool): (Bytes, Side) {
    if original || !LooksFramed(buffer) then (buffer, Side(None, true))
    else
      var end := FromLittleEndian(buffer[4..8]) + 8;
      (buffer[8..end], Side(if |buffer| == end then None else Some(buffer[end..]), false))
  }

  // ---- One frame ----

  lemma LittleEndianRoundTrip(n: nat)
    ensures FromLittleEndian(ToLittleEndian(n)) == n % TWO_TO_THE_32
  {
    var low := n / 0x100;
    var mid := low / 0x100;
    var high := mid / 0x100;
    var top := high / 0x100;
    assert n == FromLittleEndian(ToLittleEndian(n)) + TWO_TO_THE_32 * top;
  }

  lemma FrameHeader(payload: Bytes, rest: Bytes)
    ensures var m := Frame(payload) + rest;
            8 <= |m| && MARKER <= m && m[4..8] == ToLittleEndian(|payload|) && m[8..] == payload + rest
            && |m| == 8 + |payload| + |rest|
  {
    var m := Frame(payload) + rest;
    assert m == MARKER + (ToLittleEndian(|payload|) + (payload + rest));
    assert m[4..] == ToLittleEndian(|payload|) + (payload + rest);
    assert m[4..8] == m[4..][..4];
    assert m[8..] == m[4..][4..];
  }

  /** A frame, whatever follows it in the buffer, is read back as its payload if and only if
      the payload length fits the 32-bit length field. */
  lemma FrameReadBack(payload: Bytes, rest: Bytes)
    ensures var (data, side) := Extract(Frame(payload) + rest, false);
            data == payload && side == Side(if rest == [] then None else Some(rest), false)
            <==> |payload| < TWO_TO_THE_32
  {
    var m := Frame(payload) + rest;
    FrameIsRead(payload, rest);
    var n := |payload| % TWO_TO_THE_32;
    if |payload| < TWO_TO_THE_32 {
      assert (payload + rest)[..n] == payload && (payload + rest)[n..] == rest;
    } else {
      assert |(payload + rest)[..n]| < |payload|;
    }
  }

  lemma FrameIsRead(payload: Bytes, rest: Bytes)
    ensures var (m, n) := (payload + rest, |payload| % TWO_TO_THE_32);
            Extract(Frame(payload) + rest, false)
            == (m[..n], Side(if |m| == n then None else Some(m[n..]), false))
  {
    var m := Frame(payload) + rest;
    FrameHeader(payload, rest);
    LittleEndianRoundTrip(|payload|);
    var end := FromLittleEndian(m[4..8]) + 8;
    assert m[8..end] == m[8..][..end - 8];
    assert m[end..] == m[8..][end - 8..];
  }

  /** An unframed message reaches a framing endpoint unchanged, and makes it fall back, if and
      only if the message does not happen to hold a whole frame. */
  lemma RawReadBack(m: Bytes)
    ensures Extract(m, false) == (m, Side(None, true)) <==> !LooksFramed(m)
  {
  }

  // ---- One message with several frames ----

  function Frames(payloads: seq<Bytes>): Bytes {
    if payloads == [] then [] else Frame(payloads[0]) + Frames(payloads[1..])
  }

  /** n reads from one buffer. */
  function ReadMany(side: Side, n: nat): (seq<Bytes>, Side)
    decreases n
  {
    if n == 0 || side.buffer.None? then ([], side)
    else
      var (data, side') := Extract(side.buffer.value, side.original);
      var (more, last) := ReadMany(side', n - 1);
      ([data] + more, last)
  }

  lemma {:induction false} ConcatenatedFrames(payloads: seq<Bytes>)
    requires payloads != []
    requires forall p <- payloads :: |p| < TWO_TO_THE_32
    ensures ReadMany(Side(Some(Frames(payloads)), false), |payloads|) == (payloads, Side(None, false))
  {
    FrameReadBack(payloads[0], Frames(payloads[1..]));
    assert payloads == [payloads[0]] + payloads[1..];
    if payloads[1..] != [] {
      FrameHeader(payloads[1], Frames(payloads[2..]));
      assert Frames(payloads[1..]) == Frame(payloads[1]) + Frames(payloads[2..]);
      ConcatenatedFrames(payloads[1..]);
    }
  }

  // ---- Two endpoints and everything they wrote and read ----

  /** One direction: messages under way, payloads written at one end and read at the other. */
  datatype Lane = Lane(net: seq<Bytes>, wrote: seq<Bytes>, got: seq<Bytes>)

  datatype Session = Session(a: Side, b: Side, ab: Lane, ba: Lane)

  datatype Event = WriteA(payload: Bytes) | WriteB(payload: Bytes) | ReadA | ReadB

  function Send(side: Side, lane: Lane, payload: Bytes): Lane {
    lane.(net := lane.net + [Encode(side, payload)], wrote := lane.wrote + [payload])
  }

  predicate CanReceive(side: Side, lane: Lane) {
    side.buffer.Some? || lane.net != []
  }

  function Receive(side: Side, lane: Lane): (Side, Lane)
    requires CanReceive(side, lane)
  {
    if side.buffer.Some? then
      var (data, side') := Extract(side.buffer.value, side.original);
      (side', lane.(got := lane.got + [data]))
    else
      var (data, side') := Extract(lane.net[0], side.original);
      (side', lane.(net := lane.net[1..], got := lane.got + [data]))
  }

  predicate Enabled(s: Session, e: Event) {
    match e
    case ReadA => CanReceive(s.a, s.ba)
    case ReadB => CanReceive(s.b, s.ab)
    case _ => true
  }

  function Step(s: Session, e: Event): Session
    requires Enabled(s, e)
  {
    match e
    case WriteA(payload) => s.(ab := Send(s.a, s.ab, payload))
    case WriteB(payload) => s.(ba := Send(s.b, s.ba, payload))
    case ReadA => var (a, ba) := Receive(s.a, s.ba); s.(a := a, ba := ba)
    case ReadB => var (b, ab) := Receive(s.b, s.ab); s.(b := b, ab := ab)
  }

  function Start(originalA: bool, originalB: bool): Session {
    Session(Side(None, originalA), Side(None, originalB), Lane([], [], []), Lane([], [], []))
  }

  /** The session after the run; nothing if the run reads where nothing has arrived. */
  function Run(start: Session, run: seq<Event>): Option<Session>
    decreases |run|
  {
    if run == [] then Some(start)
    else
      var n := |run| - 1;
      match Run(start, run[..n])
      case None => None
      case Some(s) => if Enabled(s, run[n]) then Some(Step(s, run[n])) else None
  }

  predicate PayloadsFit(run: seq<Event>) {
    forall e <- run :: (e.WriteA? || e.WriteB?) ==> |e.payload| < TWO_TO_THE_32
  }

  /** The messages under way are the frames of what was written and not yet read. */
  ghost predicate LaneInSync(lane: Lane) {
    && |lane.wrote| == |lane.got| + |lane.net|
    && lane.got <= lane.wrote
    && (forall w <- lane.wrote :: |w| < TWO_TO_THE_32)
    && (forall i :: 0 <= i < |lane.net| ==> lane.net[i] == Frame(lane.wrote[|lane.got| + i]))
  }

  lemma SendInSync(lane: Lane, payload: Bytes)
    requires LaneInSync(lane) && |payload| < TWO_TO_THE_32
    ensures LaneInSync(Send(Side(None, false), lane, payload))
  {
  }

  lemma ReceiveInSync(lane: Lane)
    requires LaneInSync(lane) && lane.net != []
    ensures var (side, lane') := Receive(Side(None, false), lane);
            side == Side(None, false) && LaneInSync(lane')
  {
    var payload := lane.wrote[|lane.got|];
    FrameReadBack(payload, []);
    assert Frame(payload) + [] == lane.net[0];
    var lane' := Receive(Side(None, false), lane).1;
    assert lane'.got == lane.got + [payload];
    assert forall i :: 0 <= i < |lane'.net| ==> lane'.net[i] == lane.net[i + 1];
  }

  /** Two framing endpoints stay framing in every interleaving, never hold a partial buffer,
      and each reads a prefix of what the other wrote; nothing is lost under way. */
  lemma {:induction false} FramedSession(run: seq<Event>)
    requires PayloadsFit(run) && Run(Start(false, false), run).Some?
    ensures var s := Run(Start(false, false), run).value;
            && s.a == Side(None, false) && s.b == Side(None, false)
            && LaneInSync(s.ab) && LaneInSync(s.ba)
    decreases |run|
  {
    if run != [] {
      var n := |run| - 1;
      FramedSession(run[..n]);
      assert run[n] in run;
      FramedStep(Run(Start(false, false), run[..n]).value, run[n]);
    }
  }

  lemma FramedStep(s: Session, e: Event)
    requires s.a == Side(None, false) && s.b == Side(None, false) && LaneInSync(s.ab) && LaneInSync(s.ba)
    requires Enabled(s, e) && (e.WriteA? || e.WriteB? ==> |e.payload| < TWO_TO_THE_32)
    ensures var s' := Step(s, e);
            && s'.a == Side(None, false) && s'.b == Side(None, false)
            && LaneInSync(s'.ab) && LaneInSync(s'.ba)
  {
    match e
    case WriteA(payload) => SendInSync(s.ab, payload);
    case WriteB(payload) => SendInSync(s.ba, payload);
    case ReadA => ReceiveInSync(s.ba);
    case ReadB => ReceiveInSync(s.ab);
  }

  /** The messages under way, and everything read, are what was written, unframed. */
  ghost predicate RawInSync(lane: Lane) {
    lane.wrote == lane.got + lane.net
  }

  /** A framing endpoint A facing an unframed peer B: if B's first message holds no whole frame,
      A reads exactly what B writes and falls back with its first read; if it does hold one,
      already the first read differs from what was written. */
  lemma {:induction false} FallbackSession(run: seq<Event>)
    requires Run(Start(false, true), run).Some?
    ensures var s := Run(Start(false, true), run).value;
            if s.ba.wrote == [] || !LooksFramed(s.ba.wrote[0])
            then s.a == Side(None, s.ba.got != []) && s.b.original && RawInSync(s.ba)
            else s.b.original && (if s.ba.got == [] then s.a == Side(None, false) && RawInSync(s.ba)
                                  else s.ba.got[0] != s.ba.wrote[0])
    decreases |run|
  {
    if run != [] {
      var n := |run| - 1;
      FallbackSession(run[..n]);
      var s := Run(Start(false, true), run[..n]).value;
      var s' := Step(s, run[n]);
      if run[n].ReadA? && (s.ba.wrote == [] || !LooksFramed(s.ba.wrote[0]) || s.ba.got == []) {
        assert s.ba.wrote == s.ba.got + s.ba.net;
        if s.ba.wrote != [] && !LooksFramed(s.ba.wrote[0]) {
          assert s'.ba.got + s'.ba.net == s.ba.wrote;
        }
      }
    }
  }

  /** The sticky mode: once an endpoint has fallen back, no read brings framing back. */
  lemma {:induction false} FallbackIsSticky(start: Session, run: seq<Event>)
    requires Run(start, run).Some?
    ensures start.a.original ==> Run(start, run).value.a.original
    ensures start.b.original ==> Run(start, run).value.b.original
    decreases |run|
  {
    if run != [] {
      FallbackIsSticky(start, run[..|run| - 1]);
    }
  }

  /** A misread input: the peer's first message is itself the frame of some text x. */
  lemma FrameOfTextMisread(x: Bytes)
    requires |x| < TWO_TO_THE_32
    ensures var (side, lane) := Receive(Side(None, false), Lane([Frame(x)], [Frame(x)], []));
            side == Side(None, false) && lane.got == [x] && x != Frame(x)
  {
    FrameReadBack(x, []);
    assert Frame(x) + [] == Frame(x);
  }

  // ---- What becomes of the bytes, misread or not ----

  function Joined(messages: seq<Bytes>): Bytes {
    if messages == [] then [] else messages[0] + Joined(messages[1..])
  }

  lemma {:induction false} JoinedNext(messages: seq<Bytes>, m: Bytes)
    ensures Joined(messages + [m]) == Joined(messages) + m
  {
    if messages == [] {
      assert [] + [m] == [m] && m + [] == m;
    } else {
      assert (messages + [m])[1..] == messages[1..] + [m];
      JoinedNext(messages[1..], m);
      ConcatAssoc(messages[0], Joined(messages[1..]), m);
    }
  }

  lemma {:induction false} FramesNext(payloads: seq<Bytes>, p: Bytes)
    ensures Frames(payloads + [p]) == Frames(payloads) + Frame(p)
  {
    if payloads == [] {
      assert [] + [p] == [p] && Frame(p) + [] == Frame(p);
    } else {
      assert (payloads + [p])[1..] == payloads[1..] + [p];
      FramesNext(payloads[1..], p);
      ConcatAssoc(Frame(payloads[0]), Frames(payloads[1..]), Frame(p));
    }
  }

  lemma FourBytesBack(b: Bytes)
    requires |b| == 4
    ensures ToLittleEndian(FromLittleEndian(b)) == b
  {
    var n := FromLittleEndian(b);
    var b0: int, b1: int, b2: int, b3: int := b[0], b[1], b[2], b[3];
    assert n == b0 + 0x100 * (b1 + 0x100 * (b2 + 0x100 * b3));
    assert n / 0x100 == b1 + 0x100 * (b2 + 0x100 * b3);
    assert n / 0x100 / 0x100 == b2 + 0x100 * b3;
  }

  /** What a framing endpoint takes off the buffer is the frame of what it delivers; an endpoint
      that is not framing, or falls back, takes off and delivers everything. */
  lemma ExtractTakes(buffer: Bytes, original: bool)
    ensures var (data, side) := Extract(buffer, original);
            if side.original then data == buffer && side.buffer.None?
            else !original && buffer == Frame(data) + Rest(side)
  {
    if original || !LooksFramed(buffer) {
      RawReadBack(buffer);
    } else {
      var len := FromLittleEndian(buffer[4..8]);
      var data := buffer[8..len + 8];
      FourBytesBack(buffer[4..8]);
      assert buffer[..4] == MARKER;
      assert buffer == (buffer[..4] + (buffer[4..8] + data)) + buffer[len + 8..];
      assert Frame(data) == buffer[..4] + (buffer[4..8] + data);
    }
  }

  function Rest(side: Side): Bytes {
    if side.buffer.Some? then side.buffer.value else []
  }

  /** The bytes of the messages that arrived are those of the frames of the first m payloads, of
      the further payloads as they are, and of the buffer. */
  ghost predicate BytesKept(side: Side, lane: Lane, m: nat) {
    && m <= |lane.got| && |lane.net| <= |lane.wrote|
    && lane.net == lane.wrote[|lane.wrote| - |lane.net|..]
    && Joined(lane.wrote[..|lane.wrote| - |lane.net|]) == Frames(lane.got[..m]) + Joined(lane.got[m..]) + Rest(side)
    && (if side.original then side.buffer.None? else m == |lane.got|)
  }

  lemma TookBytes(before: Bytes, got: seq<Bytes>, m: nat, buffer: Bytes, original: bool)
    requires m <= |got| && (!original ==> m == |got|)
    requires before == Frames(got[..m]) + Joined(got[m..]) + buffer
    ensures var (data, side) := Extract(buffer, original);
            var m' := if side.original then m else m + 1;
            && m' <= |got + [data]| && (!side.original ==> m' == |got + [data]|)
            && before == Frames((got + [data])[..m']) + Joined((got + [data])[m'..]) + Rest(side)
  {
    var (data, side) := Extract(buffer, original);
    ExtractTakes(buffer, original);
    var got' := got + [data];
    if side.original {
      assert got'[..m] == got[..m] && got'[m..] == got[m..] + [data];
      JoinedNext(got[m..], data);
      ConcatAssoc(Frames(got[..m]), Joined(got[m..]), data);
      assert before + [] == before;
    } else {
      assert got'[..m + 1] == got[..m] + [data] && got'[m + 1..] == [] && got[m..] == [];
      FramesNext(got[..m], data);
      assert Frames(got[..m]) + Joined([]) == Frames(got[..m]);
      ConcatAssoc(Frames(got[..m]), Frame(data), Rest(side));
      assert Frames(got'[..m + 1]) + Joined([]) == Frames(got'[..m + 1]);
    }
  }

  lemma ReceiveKeepsBytes(side: Side, lane: Lane, m: nat)
    requires BytesKept(side, lane, m) && CanReceive(side, lane)
    ensures var (side', lane') := Receive(side, lane);
            BytesKept(side', lane', if side'.original then m else m + 1)
  {
    if side.buffer.Some? {
      FromBufferKeepsBytes(side, lane, m);
    } else {
      FromNetKeepsBytes(side, lane, m);
    }
  }

  lemma FromBufferKeepsBytes(side: Side, lane: Lane, m: nat)
    requires BytesKept(side, lane, m) && side.buffer.Some?
    ensures var (data, side') := Extract(side.buffer.value, side.original);
            BytesKept(side', lane.(got := lane.got + [data]), if side'.original then m else m + 1)
  {
    var before := Joined(lane.wrote[..|lane.wrote| - |lane.net|]);
    TookBytes(before, lane.got, m, side.buffer.value, side.original);
    ExtractTakes(side.buffer.value, side.original);
  }

  lemma FromNetKeepsBytes(side: Side, lane: Lane, m: nat)
    requires BytesKept(side, lane, m) && side.buffer.None? && lane.net != []
    ensures var (data, side') := Extract(lane.net[0], side.original);
            BytesKept(side', Lane(lane.net[1..], lane.wrote, lane.got + [data]), if side'.original then m else m + 1)
  {
    var k := |lane.wrote| - |lane.net|;
    ArrivedBytes(side, lane, m);
    TookBytes(Joined(lane.wrote[..k + 1]), lane.got, m, lane.net[0], side.original);
    ExtractTakes(lane.net[0], side.original);
    assert |lane.wrote| - |lane.net[1..]| == k + 1;
  }

  /** The next message arrives. */
  lemma ArrivedBytes(side: Side, lane: Lane, m: nat)
    requires BytesKept(side, lane, m) && side.buffer.None? && lane.net != []
    ensures var k := |lane.wrote| - |lane.net|;
            && Joined(lane.wrote[..k + 1]) == Frames(lane.got[..m]) + Joined(lane.got[m..]) + lane.net[0]
            && lane.wrote[k + 1..] == lane.net[1..]
  {
    var k := |lane.wrote| - |lane.net|;
    assert lane.wrote[..k + 1] == lane.wrote[..k] + [lane.net[0]];
    JoinedNext(lane.wrote[..k], lane.net[0]);
    var before := Frames(lane.got[..m]) + Joined(lane.got[m..]);
    assert before + [] == before;
    assert lane.wrote[k..][1..] == lane.wrote[k + 1..];
  }

  lemma RawSendKeepsBytes(side: Side, peer: Side, lane: Lane, m: nat, payload: Bytes)
    requires BytesKept(side, lane, m) && peer.original
    ensures BytesKept(side, Send(peer, lane, payload), m)
  {
    var lane' := Send(peer, lane, payload);
    var k := |lane.wrote| - |lane.net|;
    assert lane'.wrote[..k] == lane.wrote[..k] && lane'.wrote[k..] == lane.wrote[k..] + [payload];
  }

  /** Reads of A after which it was still framing. */
  function FramedReads(start: Session, run: seq<Event>): nat
    decreases |run|
  {
    if run == [] then 0
    else
      var n := |run| - 1;
      var s := Run(start, run);
      FramedReads(start, run[..n]) + if run[n].ReadA? && s.Some? && !s.value.a.original then 1 else 0
  }

  /** A framing endpoint A facing an unframed peer, whatever the peer writes and however much of it
      is misread: no byte is lost, doubled or moved. What arrived at A is the frames of what A
      delivered while framing, then what it delivered since, then what it still holds. */
  lemma {:induction false} NoByteLost(run: seq<Event>)
    requires Run(Start(false, true), run).Some?
    ensures var s := Run(Start(false, true), run).value;
            s.b.original && BytesKept(s.a, s.ba, FramedReads(Start(false, true), run))
    decreases |run|
  {
    if run != [] {
      var start, n := Start(false, true), |run| - 1;
      NoByteLost(run[..n]);
      StepKeepsBytes(Run(start, run[..n]).value, run[n], FramedReads(start, run[..n]));
    }
  }

  lemma StepKeepsBytes(s: Session, e: Event, m: nat)
    requires Enabled(s, e) && s.b.original && BytesKept(s.a, s.ba, m)
    ensures var s' := Step(s, e);
            s'.b.original && BytesKept(s'.a, s'.ba, m + if e.ReadA? && !s'.a.original then 1 else 0)
  {
    match e
    case WriteA(payload) =>
    case WriteB(payload) => RawSendKeepsBytes(s.a, s.b, s.ba, m, payload);
    case ReadA => ReceiveKeepsBytes(s.a, s.ba, m);
    case ReadB =>
  }

  /** Whether A had fallen back, write by write. */
  function ModesOfA(start: Session, run: seq<Event>): seq<bool>
    decreases |run|
  {
    if run == [] then []
    else
      var n := |run| - 1;
      var s := Run(start, run[..n]);
      ModesOfA(start, run[..n]) + if run[n].WriteA? && s.Some? then [s.value.a.original] else []
  }

  ghost predicate AsWritten(lane: Lane, modes: seq<bool>) {
    && |modes| == |lane.wrote| == |lane.got| + |lane.net|
    && forall i :: 0 <= i < |modes| ==>
         (lane.got + lane.net)[i] == if modes[i] then lane.wrote[i] else Frame(lane.wrote[i])
  }

  lemma RawReceiveIs(side: Side, lane: Lane, modes: seq<bool>)
    requires side == Side(None, true) && CanReceive(side, lane) && AsWritten(lane, modes)
    ensures var (side', lane') := Receive(side, lane);
            side' == side && AsWritten(lane', modes)
  {
    var lane' := Receive(side, lane).1;
    assert lane'.got + lane'.net == lane.got + lane.net;
  }

  /** What the unframed peer reads of A: a payload as A wrote it if and only if A had fallen back
      by then, else its whole frame. */
  lemma {:induction false} RawPeerReadsIff(run: seq<Event>)
    requires Run(Start(false, true), run).Some?
    ensures var s := Run(Start(false, true), run).value;
            var modes := ModesOfA(Start(false, true), run);
            && s.b == Side(None, true) && AsWritten(s.ab, modes)
            && forall i :: 0 <= i < |s.ab.got| ==> (s.ab.got[i] == s.ab.wrote[i] <==> modes[i])
    decreases |run|
  {
    if run != [] {
      var start, n := Start(false, true), |run| - 1;
      RawPeerReadsIff(run[..n]);
      var s, modes := Run(start, run[..n]).value, ModesOfA(start, run[..n]);
      match run[n]
      case WriteA(payload) => SendAsWritten(s.a, s.ab, modes, payload);
      case WriteB(_) =>
      case ReadA =>
      case ReadB => RawReceiveIs(s.b, s.ab, modes);
      AsWrittenReads(Run(start, run).value.ab, ModesOfA(start, run));
    }
  }

  lemma SendAsWritten(side: Side, lane: Lane, modes: seq<bool>, payload: Bytes)
    requires AsWritten(lane, modes)
    ensures AsWritten(Send(side, lane, payload), modes + [side.original])
  {
    var lane' := Send(side, lane, payload);
    assert lane'.got + lane'.net == (lane.got + lane.net) + [Encode(side, payload)];
  }

  lemma AsWrittenReads(lane: Lane, modes: seq<bool>)
    requires AsWritten(lane, modes)
    ensures forall i :: 0 <= i < |lane.got| ==> (lane.got[i] == lane.wrote[i] <==> modes[i])
  {
    forall i | 0 <= i < |lane.got| ensures lane.got[i] == lane.wrote[i] <==> modes[i] {
      assert lane.got[i] == (lane.got + lane.net)[i];
      assert |Frame(lane.wrote[i])| == |lane.wrote[i]| + 8;
    }
  }

  // ---- The connection as the program keeps it ----

  /** The transport in one direction: whole binary messages, in order. */
  class Pipe {
    var messages: seq<Bytes>

    constructor ()
      ensures messages == []
    {
      messages := [];
    }
  }

  class WsConnection {
    var buffer: Option<Bytes>
    var original: bool
    var closed: bool

    constructor (original: bool)
      ensures View() == Side(None, original) && !closed
    {
      this.buffer, this.original, this.closed := None, original, false;
    }

    ghost function View(): Side
      reads this
    {
      Side(buffer, original)
    }

    /** `netOk` tells whether the transport delivers the next message. Without a buffer the read
        blocks until there is one. */
    method Read(net: Pipe, netOk: bool) returns (data: Option<Bytes>)
      requires !closed && buffer.None? && netOk ==> net.messages != []
      modifies this, net
      ensures old(closed) ==> data.None? && closed && View() == old(View()) && net.messages == old(net.messages)
      ensures !old(closed) && old(buffer).None? && !netOk ==>
                data.None? && closed && View() == old(View()) && net.messages == old(net.messages)
      ensures !old(closed) && (old(buffer).Some? || netOk) ==>
                var (side, lane) := Receive(old(View()), Lane(old(net.messages), [], []));
                !closed && data.Some? && View() == side && lane == Lane(net.messages, [], [data.value])
    {
      if closed {
        return None;
      }
      if buffer.None? {
        if !netOk {
          closed := true;
          return None;
        }
        buffer := Some(net.messages[0]);
        net.messages := net.messages[1..];
      }
      var buf := buffer.value;
      if original {
        buffer := None;
        return Some(buf);
      }
      if |buf| < 8 {
        original, buffer := true, None;
        return Some(buf);
      }
      if !(MARKER <= buf) {
        original, buffer := true, None;
        return Some(buf);
      }
      var packetLen := FromLittleEndian(buf[4..8]);
      if |buf| - 8 < packetLen {
        original, buffer := true, None;
        return Some(buf);
      } else if |buf| - 8 == packetLen {
        buffer := None;
        assert buf[8..] == buf[8..packetLen + 8];
        return Some(buf[8..]);
      } else {
        buffer := Some(buf[packetLen + 8..]);
        return Some(buf[8..packetLen + 8]);
      }
    }

    /** A failing transport closes the connection and delivers nothing. */
    method Write(net: Pipe, netOk: bool, data: Bytes) returns (ok: bool)
      modifies this, net
      ensures View() == old(View())
      ensures ok == (!old(closed) && netOk) && closed == (old(closed) || !netOk)
      ensures net.messages == if ok then Send(old(View()), Lane(old(net.messages), [], []), data).net
                              else old(net.messages)
    {
      if closed {
        return false;
      }
      var message: Bytes := [];
      if !original {
        message := message + MARKER;
        message := message + ToLittleEndian(|data|);
      }
      message := message + data;
      if !netOk {
        closed := true;
        return false;
      }
      assert message == Encode(View(), data);
      net.messages := net.messages + [message];
      return true;
    }
  }
}
