/** The packet router of a module socket (pkg/vxproto/router.go): a bounded queue of
    packets beside a list of receivers that wait for a packet of their own. */
module Router {
  import opened Basics

  const CAPACITY := 100

  datatype PacketType = Data | File | Text | Msg | Action | Control

  datatype Packet = Packet(src: string, pType: PacketType, payload: Bytes)

  // ---- The abstract router. A waiter is known by the identity `who` of its blocker. ----

  datatype Waiter<B> = Waiter(who: B, src: string, pType: PacketType, closed: bool)

  datatype State<B> = State(receiver: seq<Packet>, queue: seq<Waiter<B>>, down: bool)

  predicate Wants(src: string, pType: PacketType, p: Packet) {
    (src == p.src || src == "") && pType == p.pType
  }

  predicate Takes<B>(w: Waiter<B>, p: Packet) {
    Wants(w.src, w.pType, p) && !w.closed
  }

  /** Position of the first waiter that takes p; the length of the queue if there is none. */
  function FirstTaker<B>(queue: seq<Waiter<B>>, p: Packet): (i: nat)
    ensures i <= |queue|
    ensures i < |queue| ==> Takes(queue[i], p)
    ensures forall k :: 0 <= k < i ==> !Takes(queue[k], p)
  {
    if queue == [] || Takes(queue[0], p) then 0 else 1 + FirstTaker(queue[1..], p)
  }

  /** Position of the first packet wanted by (src, pType); the length if there is none. */
  function FirstWanted(ps: seq<Packet>, src: string, pType: PacketType): (i: nat)
    ensures i <= |ps|
    ensures i < |ps| ==> Wants(src, pType, ps[i])
    ensures forall k :: 0 <= k < i ==> !Wants(src, pType, ps[k])
  {
    if ps == [] || Wants(src, pType, ps[0]) then 0 else 1 + FirstWanted(ps[1..], src, pType)
  }

  lemma FirstWantedIs(ps: seq<Packet>, src: string, pType: PacketType, i: nat)
    requires i <= |ps| && (i < |ps| ==> Wants(src, pType, ps[i]))
    requires forall k :: 0 <= k < i ==> !Wants(src, pType, ps[k])
    ensures FirstWanted(ps, src, pType) == i
  {
  }

  function IndexOf<B(==)>(queue: seq<Waiter<B>>, who: B): (i: nat)
    ensures i <= |queue|
    ensures i < |queue| ==> queue[i].who == who
    ensures forall k :: 0 <= k < i ==> queue[k].who != who
  {
    if queue == [] || queue[0].who == who then 0 else 1 + IndexOf(queue[1..], who)
  }

  datatype Routed<B> = HandedTo(who: B) | Queued | Refused

  /** The send into the receive queue blocks while the queue is full. */
  predicate HasRoom<B>(s: State<B>, p: Packet) {
    FirstTaker(s.queue, p) < |s.queue| || s.down || |s.receiver| < CAPACITY
  }

  function Route<B>(s: State<B>, p: Packet): (State<B>, Routed<B>) {
    var i := FirstTaker(s.queue, p);
    if i < |s.queue| then (s.(queue := RemoveAt(s.queue, i)), HandedTo(s.queue[i].who))
    else if s.down then (s, Refused)
    else (s.(receiver := s.receiver + [p]), Queued)
  }

  function Lookup<B>(s: State<B>, src: string, pType: PacketType): (State<B>, Option<Packet>) {
    var i := FirstWanted(s.receiver, src, pType);
    if i < |s.receiver| then (s.(receiver := RemoveAt(s.receiver, i)), Some(s.receiver[i]))
    else (s, None)
  }

  function AddWaiter<B>(s: State<B>, who: B, src: string, pType: PacketType): (State<B>, Option<Packet>) {
    var (s', found) := Lookup(s, src, pType);
    if found.Some? then (s', found)
    else (s.(queue := s.queue + [Waiter(who, src, pType, false)]), None)
  }

  function DelWaiter<B(==)>(s: State<B>, who: B): State<B> {
    var i := IndexOf(s.queue, who);
    if i < |s.queue| then s.(queue := RemoveAt(s.queue, i)) else s
  }

  /** Waiters on `src` are closed; they stay listed until they remove themselves. */
  function Unlock<B>(s: State<B>, src: string): State<B> {
    s.(queue := seq(|s.queue|, i requires 0 <= i < |s.queue| =>
                      if s.queue[i].src == src then s.queue[i].(closed := true) else s.queue[i]))
  }

  function UnlockAll<B>(s: State<B>): State<B> {
    s.(queue := seq(|s.queue|, i requires 0 <= i < |s.queue| => s.queue[i].(closed := true)))
  }

  function Close<B>(s: State<B>): State<B> {
    UnlockAll(s).(down := true, receiver := [])
  }

  // ---- Runs ----

  /** One mutex-protected section of the router, or a read at the head of the queue by the
      module's own loop, or a control packet pushed straight into the queue by the hub. */
  datatype Event<B> =
    | RoutePacket(p: Packet)
    | PushControl(p: Packet)
    | AddBlocker(who: B, src: string, pType: PacketType)
    | DelBlocker(who: B)
    | UnlockSrc(src: string)
    | UnlockEvery
    | CloseControl
    | DropHead
    | ReadHead

  /** How a packet left the router. */
  datatype Exit<B> = HandOff(who: B) | FoundFor(who: B) | Head | Dropped

  datatype Departure<B> = Departure(packet: Packet, exit: Exit<B>)

  /** A router with the packets it accepted and the packets that left it, both in order. */
  datatype History<B> = History(s: State<B>, accepted: seq<Packet>, left: seq<Departure<B>>)

  /** Closing a blocker twice is a crash of the program, reading an empty queue blocks, and
      no receive call of a module waits for control packets. */
  predicate Enabled<B(==)>(s: State<B>, e: Event<B>) {
    match e
    case RoutePacket(p) => HasRoom(s, p)
    case PushControl(p) => p.pType == Control && |s.receiver| < CAPACITY
    case AddBlocker(who, _, pType) => pType != Control && IndexOf(s.queue, who) == |s.queue|
    case DelBlocker(_) => true
    case UnlockSrc(src) => forall w <- s.queue :: w.src == src ==> !w.closed
    case UnlockEvery => forall w <- s.queue :: !w.closed
    case CloseControl => !s.down
    case DropHead => s.down && s.receiver != []
    case ReadHead => s.receiver != []
  }

  function DropAll<B>(ps: seq<Packet>): seq<Departure<B>> {
    seq(|ps|, i requires 0 <= i < |ps| => Departure(ps[i], Dropped))
  }

  function Step<B(==)>(h: History<B>, e: Event<B>): History<B>
    requires Enabled(h.s, e)
  {
    match e
    case RoutePacket(p) =>
      var (s, how) := Route(h.s, p);
      (match how
       case HandedTo(who) => History(s, h.accepted + [p], h.left + [Departure(p, HandOff(who))])
       case Queued => History(s, h.accepted + [p], h.left)
       case Refused => h.(s := s))
    case PushControl(p) => History(h.s.(receiver := h.s.receiver + [p]), h.accepted + [p], h.left)
    case AddBlocker(who, src, pType) =>
      var (s, found) := AddWaiter(h.s, who, src, pType);
      h.(s := s, left := if found.Some? then h.left + [Departure(found.value, FoundFor(who))] else h.left)
    case DelBlocker(who) => h.(s := DelWaiter(h.s, who))
    case UnlockSrc(src) => h.(s := Unlock(h.s, src))
    case UnlockEvery => h.(s := UnlockAll(h.s))
    case CloseControl => h.(s := h.s.(down := true))
    case DropHead => TakeHead(h, Dropped)
    case ReadHead => TakeHead(h, Head)
  }

  function TakeHead<B>(h: History<B>, exit: Exit<B>): History<B>
    requires h.s.receiver != []
  {
    h.(s := h.s.(receiver := h.s.receiver[1..]), left := h.left + [Departure(h.s.receiver[0], exit)])
  }

  /** The router after the run; nothing if some event of the run was not enabled. */
  function Run<B(==)>(run: seq<Event<B>>): Option<History<B>>
    decreases |run|
  {
    if run == [] then Some(History(State([], [], false), [], []))
    else
      var n := |run| - 1;
      match Run(run[..n])
      case None => None
      case Some(h) => if Enabled(h.s, run[n]) then Some(Step(h, run[n])) else None
  }

  // ---- Closing: the mutex is held for unlocking only, the rest is steps of its own ----

  function DropHeads<B>(h: History<B>, n: nat): History<B>
    requires n <= |h.s.receiver|
    decreases n
  {
    if n == 0 then h else DropHeads(TakeHead(h, Dropped), n - 1)
  }

  lemma {:induction false} DropHeadsIs<B>(h: History<B>)
    ensures DropHeads(h, |h.s.receiver|)
            == h.(s := h.s.(receiver := []), left := h.left + DropAll(h.s.receiver))
    decreases |h.s.receiver|
  {
    var all := h.s.receiver;
    if all == [] {
      assert h.left + DropAll<B>(all) == h.left;
    } else {
      DropHeadsIs(TakeHead(h, Dropped));
      assert DropAll<B>(all) == [Departure(all[0], Dropped)] + DropAll(all[1..]);
      ConcatAssoc(h.left, [Departure(all[0], Dropped)], DropAll(all[1..]));
    }
  }

  /** A close that nothing interrupts is: unlock everything, go down, drop what is queued. */
  lemma CloseIsSteps<B>(h: History<B>)
    requires Enabled(h.s, UnlockEvery) && !h.s.down
    ensures var down := Step(Step(h, UnlockEvery), CloseControl);
            DropHeads(down, |h.s.receiver|) == h.(s := Close(h.s), left := h.left + DropAll(h.s.receiver))
  {
    DropHeadsIs(Step(Step(h, UnlockEvery), CloseControl));
  }

  // ---- What every run keeps ----

  predicate HasKey(p: Packet, src: string, pType: PacketType) {
    p.src == src && p.pType == pType
  }

  function OfKey(ps: seq<Packet>, src: string, pType: PacketType): seq<Packet> {
    if ps == [] then []
    else (if HasKey(ps[0], src, pType) then [ps[0]] else []) + OfKey(ps[1..], src, pType)
  }

  function Packets<B>(ds: seq<Departure<B>>): seq<Packet> {
    seq(|ds|, i requires 0 <= i < |ds| => ds[i].packet)
  }

  /** No queued packet is wanted by an open waiter, and nobody waits for control packets. */
  ghost predicate NoneMissed<B>(s: State<B>) {
    && (forall w, p :: w in s.queue && p in s.receiver ==> !Takes(w, p))
    && (forall w :: w in s.queue ==> w.pType != Control)
    && (forall i, j :: 0 <= i < j < |s.queue| ==> s.queue[i].who != s.queue[j].who)
  }

  /** For each source and type: what was accepted is what left followed by what is queued. */
  ghost predicate InOrder<B>(h: History<B>) {
    forall src, t :: Balanced(h.accepted, Packets(h.left), h.s.receiver, src, t)
  }

  ghost predicate Balanced(accepted: seq<Packet>, left: seq<Packet>, queued: seq<Packet>, src: string, t: PacketType) {
    OfKey(accepted, src, t) == OfKey(left, src, t) + OfKey(queued, src, t)
  }

  lemma {:induction false} OfKeyConcat(a: seq<Packet>, b: seq<Packet>, src: string, t: PacketType)
    ensures OfKey(a + b, src, t) == OfKey(a, src, t) + OfKey(b, src, t)
  {
    if a == [] {
      assert a + b == b;
    } else {
      assert (a + b)[1..] == a[1..] + b;
      OfKeyConcat(a[1..], b, src, t);
      ConcatAssoc(if HasKey(a[0], src, t) then [a[0]] else [], OfKey(a[1..], src, t), OfKey(b, src, t));
    }
  }

  lemma {:induction false} OfKeyNone(a: seq<Packet>, src: string, t: PacketType)
    requires forall p :: p in a ==> !HasKey(p, src, t)
    ensures OfKey(a, src, t) == []
  {
    if a != [] {
      OfKeyNone(a[1..], src, t);
    }
  }

  lemma TakingFirstOfKey(before: seq<Packet>, p: Packet, after: seq<Packet>, src: string, t: PacketType)
    requires HasKey(p, src, t) ==> forall q :: q in before ==> !HasKey(q, src, t)
    ensures OfKey(before + ([p] + after), src, t) == OfKey([p], src, t) + OfKey(before + after, src, t)
  {
    OfKeyConcat(before, [p] + after, src, t);
    OfKeyConcat([p], after, src, t);
    OfKeyConcat(before, after, src, t);
    if HasKey(p, src, t) {
      OfKeyNone(before, src, t);
      NothingBefore(OfKey([p], src, t) + OfKey(after, src, t));
      NothingBefore(OfKey(after, src, t));
    } else {
      OfKeyNone([p], src, t);
      NothingBefore(OfKey(after, src, t));
      NothingBefore(OfKey(before, src, t) + OfKey(after, src, t));
    }
  }

  lemma NothingBefore<T>(a: seq<T>)
    ensures [] + a == a
  {
  }

  /** Taking out the first packet wanted by (wsrc, wt) takes the first packet of its own key
      and nothing of any other key. */
  lemma FirstWantedIsFirstOfKey(ps: seq<Packet>, wsrc: string, wt: PacketType, src: string, t: PacketType)
    requires FirstWanted(ps, wsrc, wt) < |ps|
    ensures var i := FirstWanted(ps, wsrc, wt);
            OfKey(ps, src, t) == OfKey([ps[i]], src, t) + OfKey(RemoveAt(ps, i), src, t)
  {
    var i := FirstWanted(ps, wsrc, wt);
    assert ps == ps[..i] + ([ps[i]] + ps[i + 1..]);
    TakingFirstOfKey(ps[..i], ps[i], ps[i + 1..], src, t);
  }

  /** Waiters and packets may only go away, and waiters may only be closed. */
  lemma FewerKeepNoneMissed<B>(s: State<B>, s': State<B>, at: seq<nat>)
    requires NoneMissed(s) && |at| == |s'.queue|
    requires forall i, j :: 0 <= i < j < |at| ==> at[i] < at[j]
    requires forall i :: 0 <= i < |at| ==> at[i] < |s.queue|
    requires forall i :: 0 <= i < |at| ==>
               s'.queue[i] == s.queue[at[i]] || s'.queue[i] == s.queue[at[i]].(closed := true)
    requires forall p :: p in s'.receiver ==> p in s.receiver
    ensures NoneMissed(s')
  {
    forall w | w in s'.queue ensures w.pType != Control && forall p :: p in s'.receiver ==> !Takes(w, p) {
      var i :| 0 <= i < |s'.queue| && s'.queue[i] == w;
      assert s.queue[at[i]] in s.queue;
    }
  }

  lemma RemovalKeepsNoneMissed<B>(s: State<B>, i: nat)
    requires NoneMissed(s) && i < |s.queue|
    ensures NoneMissed(s.(queue := RemoveAt(s.queue, i)))
  {
    FewerKeepNoneMissed(s, s.(queue := RemoveAt(s.queue, i)),
                        seq(|s.queue| - 1, k requires 0 <= k => if k < i then k else k + 1));
  }

  lemma ClosingKeepsNoneMissed<B>(s: State<B>, s': State<B>)
    requires NoneMissed(s) && |s'.queue| == |s.queue|
    requires forall i :: 0 <= i < |s.queue| ==>
               s'.queue[i] == s.queue[i] || s'.queue[i] == s.queue[i].(closed := true)
    requires forall p :: p in s'.receiver ==> p in s.receiver
    ensures NoneMissed(s')
  {
    FewerKeepNoneMissed(s, s', seq(|s.queue|, k requires 0 <= k => k));
  }

  lemma QueueingKeepsNoneMissed<B>(s: State<B>, p: Packet)
    requires NoneMissed(s) && forall w :: w in s.queue ==> !Takes(w, p)
    ensures NoneMissed(s.(receiver := s.receiver + [p]))
  {
  }

  lemma WaitingKeepsNoneMissed<B>(s: State<B>, w: Waiter<B>)
    requires NoneMissed(s) && w.pType != Control && IndexOf(s.queue, w.who) == |s.queue|
    requires forall p :: p in s.receiver ==> !Takes(w, p)
    ensures NoneMissed(s.(queue := s.queue + [w]))
  {
  }

  lemma StepKeepsNoneMissed<B>(h: History<B>, e: Event<B>)
    requires Enabled(h.s, e) && NoneMissed(h.s)
    ensures NoneMissed(Step(h, e).s)
  {
    match e
    case RoutePacket(p) =>
      var i := FirstTaker(h.s.queue, p);
      if i < |h.s.queue| {
        RemovalKeepsNoneMissed(h.s, i);
      } else if !h.s.down {
        QueueingKeepsNoneMissed(h.s, p);
      }
    case PushControl(p) =>
      QueueingKeepsNoneMissed(h.s, p);
    case AddBlocker(who, src, pType) =>
      var i := FirstWanted(h.s.receiver, src, pType);
      if i < |h.s.receiver| {
        ClosingKeepsNoneMissed(h.s, h.s.(receiver := RemoveAt(h.s.receiver, i)));
      } else {
        WaitingKeepsNoneMissed(h.s, Waiter(who, src, pType, false));
      }
    case DelBlocker(who) =>
      var i := IndexOf(h.s.queue, who);
      if i < |h.s.queue| {
        RemovalKeepsNoneMissed(h.s, i);
      }
    case UnlockSrc(src) => ClosingKeepsNoneMissed(h.s, Unlock(h.s, src));
    case UnlockEvery => ClosingKeepsNoneMissed(h.s, UnlockAll(h.s));
    case CloseControl => ClosingKeepsNoneMissed(h.s, h.s.(down := true));
    case DropHead => ClosingKeepsNoneMissed(h.s, h.s.(receiver := h.s.receiver[1..]));
    case ReadHead => ClosingKeepsNoneMissed(h.s, h.s.(receiver := h.s.receiver[1..]));
  }

  lemma BalancedPush(accepted: seq<Packet>, left: seq<Packet>, queued: seq<Packet>, p: Packet,
                     src: string, t: PacketType)
    requires Balanced(accepted, left, queued, src, t)
    ensures Balanced(accepted + [p], left, queued + [p], src, t)
  {
    OfKeyConcat(accepted, [p], src, t);
    OfKeyConcat(queued, [p], src, t);
  }

  lemma BalancedTake(accepted: seq<Packet>, left: seq<Packet>, queued: seq<Packet>,
                     taken: seq<Packet>, rest: seq<Packet>, src: string, t: PacketType)
    requires Balanced(accepted, left, queued, src, t)
    requires OfKey(queued, src, t) == OfKey(taken, src, t) + OfKey(rest, src, t)
    ensures Balanced(accepted, left + taken, rest, src, t)
  {
    OfKeyConcat(left, taken, src, t);
    ConcatAssoc(OfKey(left, src, t), OfKey(taken, src, t), OfKey(rest, src, t));
  }

  /** A packet handed straight to a waiter overtakes no queued packet of its key. */
  lemma BalancedHandOff(s: State, i: nat, accepted: seq<Packet>, left: seq<Packet>, p: Packet,
                        src: string, t: PacketType)
    requires NoneMissed(s) && i < |s.queue| && Takes(s.queue[i], p)
    requires Balanced(accepted, left, s.receiver, src, t)
    ensures Balanced(accepted + [p], left + [p], s.receiver, src, t)
  {
    OfKeyConcat(accepted, [p], src, t);
    OfKeyConcat(left, [p], src, t);
    if HasKey(p, src, t) {
      assert s.queue[i] in s.queue;
      OfKeyNone(s.receiver, src, t);
    } else {
      OfKeyNone([p], src, t);
    }
  }

  lemma PacketsConcat<B>(a: seq<Departure<B>>, b: seq<Departure<B>>)
    ensures Packets(a + b) == Packets(a) + Packets(b)
  {
  }

  lemma OnePacket<B>(p: Packet, exit: Exit<B>)
    ensures Packets([Departure(p, exit)]) == [p]
  {
  }

  /** The packets `taken` out of the queue leave in the order of their key. */
  lemma TakingKeepsOrder<B>(h: History<B>, h': History<B>, out: seq<Departure<B>>)
    requires InOrder(h)
    requires h'.accepted == h.accepted && h'.left == h.left + out
    requires forall src, t :: OfKey(h.s.receiver, src, t) == OfKey(Packets(out), src, t) + OfKey(h'.s.receiver, src, t)
    ensures InOrder(h')
  {
    PacketsConcat(h.left, out);
    forall src, t ensures Balanced(h'.accepted, Packets(h'.left), h'.s.receiver, src, t) {
      BalancedTake(h.accepted, Packets(h.left), h.s.receiver, Packets(out), h'.s.receiver, src, t);
    }
  }

  lemma QueueingKeepsOrder<B>(h: History<B>, p: Packet)
    requires InOrder(h)
    ensures InOrder(History(h.s.(receiver := h.s.receiver + [p]), h.accepted + [p], h.left))
  {
    forall src, t ensures Balanced(h.accepted + [p], Packets(h.left), h.s.receiver + [p], src, t) {
      BalancedPush(h.accepted, Packets(h.left), h.s.receiver, p, src, t);
    }
  }

  lemma HandOffKeepsOrder<B>(h: History<B>, p: Packet)
    requires NoneMissed(h.s) && InOrder(h) && FirstTaker(h.s.queue, p) < |h.s.queue|
    ensures InOrder(Step(h, RoutePacket(p)))
  {
    var i := FirstTaker(h.s.queue, p);
    var d := Departure(p, HandOff(h.s.queue[i].who));
    PacketsConcat(h.left, [d]);
    OnePacket(p, d.exit);
    forall src, t ensures Balanced(h.accepted + [p], Packets(h.left + [d]), h.s.receiver, src, t) {
      BalancedHandOff(h.s, i, h.accepted, Packets(h.left), p, src, t);
    }
  }

  lemma LookupKeepsOrder<B>(h: History<B>, who: B, wsrc: string, wt: PacketType)
    requires Enabled(h.s, AddBlocker(who, wsrc, wt)) && InOrder(h)
    ensures InOrder(Step(h, AddBlocker(who, wsrc, wt)))
  {
    var queued := h.s.receiver;
    var i := FirstWanted(queued, wsrc, wt);
    if i < |queued| {
      OnePacket(queued[i], FoundFor(who));
      forall src, t
        ensures OfKey(queued, src, t) == OfKey([queued[i]], src, t) + OfKey(RemoveAt(queued, i), src, t)
      {
        FirstWantedIsFirstOfKey(queued, wsrc, wt, src, t);
      }
      TakingKeepsOrder(h, Step(h, AddBlocker(who, wsrc, wt)), [Departure(queued[i], FoundFor(who))]);
    }
  }

  lemma HeadKeepsOrder<B>(h: History<B>, exit: Exit<B>)
    requires h.s.receiver != [] && InOrder(h)
    ensures InOrder(TakeHead(h, exit))
  {
    var queued := h.s.receiver;
    OnePacket<B>(queued[0], exit);
    assert queued == [queued[0]] + queued[1..];
    forall src, t
      ensures OfKey(queued, src, t) == OfKey([queued[0]], src, t) + OfKey(queued[1..], src, t)
    {
      OfKeyConcat([queued[0]], queued[1..], src, t);
    }
    TakingKeepsOrder(h, TakeHead(h, exit), [Departure(queued[0], exit)]);
  }

  lemma StepKeepsOrder<B>(h: History<B>, e: Event<B>)
    requires Enabled(h.s, e) && NoneMissed(h.s) && InOrder(h)
    ensures InOrder(Step(h, e))
  {
    match e
    case RoutePacket(p) =>
      if FirstTaker(h.s.queue, p) < |h.s.queue| {
        HandOffKeepsOrder(h, p);
      } else if !h.s.down {
        QueueingKeepsOrder(h, p);
      }
    case PushControl(p) => QueueingKeepsOrder(h, p);
    case AddBlocker(who, src, pType) => LookupKeepsOrder(h, who, src, pType);
    case DelBlocker(_) =>
    case UnlockSrc(_) =>
    case UnlockEvery =>
    case CloseControl =>
    case DropHead => HeadKeepsOrder(h, Dropped);
    case ReadHead => HeadKeepsOrder(h, Head);
  }

  /** Over every run: no waiter is ever missed, and the packets of one source and type leave
      exactly in the order they were accepted, each once. */
  lemma {:induction false} EveryRunKeepsOrder<B>(run: seq<Event<B>>)
    requires Run(run).Some?
    ensures NoneMissed(Run(run).value.s) && InOrder(Run(run).value)
    decreases |run|
  {
    if run != [] {
      var n := |run| - 1;
      EveryRunKeepsOrder(run[..n]);
      StepKeepsNoneMissed(Run(run[..n]).value, run[n]);
      StepKeepsOrder(Run(run[..n]).value, run[n]);
    }
  }

  // ---- Who is served ----

  /** A blocked receive gets nothing once its source is unlocked: no later packet is handed to
      it, and every packet goes to the longest-waiting of the other open waiters it suits. */
  lemma UnlockedIsPassedOver<B>(s: State<B>, src: string, p: Packet)
    ensures var queue := Unlock(s, src).queue;
            var i := FirstTaker(queue, p);
            && (i < |queue| ==> Takes(s.queue[i], p) && s.queue[i].src != src)
            && (forall k :: 0 <= k < i ==> Takes(s.queue[k], p) ==> s.queue[k].src == src)
  {
    var queue := Unlock(s, src).queue;
    forall k | 0 <= k < FirstTaker(queue, p) && Takes(s.queue[k], p) ensures s.queue[k].src == src {
      assert !Takes(queue[k], p);
    }
  }

  /** Between two events a listed waiter stays listed unless it is handed a packet it wants or
      removes itself, and a closed one is never handed anything. */
  lemma WaiterLeavesOnlyServedOrRemoved<B>(h: History<B>, e: Event<B>, w: Waiter<B>)
    requires Enabled(h.s, e) && NoneMissed(h.s) && w in h.s.queue
    ensures || w in Step(h, e).s.queue || w.(closed := true) in Step(h, e).s.queue
            || e == DelBlocker(w.who)
            || (e.RoutePacket? && Takes(w, e.p)
                && Step(h, e).left == h.left + [Departure(e.p, HandOff(w.who))])
  {
    var s' := Step(h, e).s;
    var k :| 0 <= k < |h.s.queue| && h.s.queue[k] == w;
    match e
    case RoutePacket(p) => StaysListed(h.s.queue, FirstTaker(h.s.queue, p), k);
    case DelBlocker(who) => StaysListed(h.s.queue, IndexOf(h.s.queue, who), k);
    case PushControl(_) => assert s'.queue == h.s.queue;
    case ReadHead => assert s'.queue == h.s.queue;
    case AddBlocker(_, _, _) => assert s'.queue[k] == w;
    case UnlockSrc(_) => assert s'.queue[k] in s'.queue;
    case UnlockEvery => assert s'.queue[k] in s'.queue;
    case CloseControl => assert s'.queue == h.s.queue;
    case DropHead => assert s'.queue == h.s.queue;
  }

  lemma StaysListed<T>(q: seq<T>, i: nat, k: nat)
    requires k < |q|
    ensures i < |q| && i != k ==> q[k] in RemoveAt(q, i)
  {
    if i < |q| && i != k {
      assert q[k] == RemoveAt(q, i)[if k < i then k else k - 1];
    }
  }

  // ---- The router as the program keeps it ----

  class RecvBlocker {
    const src: string
    const pType: PacketType
    var closed: bool

    constructor (src: string, pType: PacketType)
      ensures this.src == src && this.pType == pType && !closed
    {
      this.src, this.pType, closed := src, pType, false;
    }

    ghost function View(): Waiter<RecvBlocker>
      reads this
    {
      Waiter(this, src, pType, closed)
    }
  }

  class RecvRouter {
    var receiver: seq<Packet>
    var queue: seq<RecvBlocker>
    var control: bool // true once the control channel is closed

    constructor ()
      ensures View() == State([], [], false)
    {
      receiver, queue, control := [], [], false;
    }

    ghost function Waiters(): (ws: seq<Waiter<RecvBlocker>>)
      reads this, queue
      ensures |ws| == |queue|
      ensures forall i :: 0 <= i < |ws| ==> ws[i] == queue[i].View()
    {
      seq(|queue|, i requires 0 <= i < |queue| reads this, queue => queue[i].View())
    }

    ghost function View(): State<RecvBlocker>
      reads this, queue
    {
      State(receiver, Waiters(), control)
    }

    method RoutePacket(packet: Packet) returns (taker: RecvBlocker?, ok: bool)
      requires HasRoom(View(), packet)
      modifies this
      ensures View() == Route(old(View()), packet).0
      ensures match Route(old(View()), packet).1
              case HandedTo(who) => ok && taker == who
              case Queued => ok && taker == null
              case Refused => !ok && taker == null
    {
      var idx := 0;
      while idx < |queue|
        invariant 0 <= idx <= |queue|
        invariant forall k :: 0 <= k < idx ==> !Takes(Waiters()[k], packet)
        invariant receiver == old(receiver) && queue == old(queue) && control == old(control)
      {
        var b := queue[idx];
        if (b.src == packet.src || b.src == "") && b.pType == packet.pType && !b.closed {
          queue := queue[..idx] + queue[idx + 1..];
          assert Waiters() == RemoveAt(old(Waiters()), idx);
          return b, true;
        }
        idx := idx + 1;
      }
      if control {
        return null, false;
      }
      receiver := receiver + [packet];
      assert Waiters() == old(Waiters());
      return null, true;
    }

    method Drain() returns (drained: seq<Packet>)
      modifies this`receiver
      ensures drained == old(receiver) && receiver == []
    {
      drained := [];
      var queueLen := |receiver|;
      var idx := 0;
      while idx < queueLen
        invariant 0 <= idx <= queueLen == |old(receiver)|
        invariant drained == old(receiver)[..idx] && receiver == old(receiver)[idx..]
      {
        drained := drained + [receiver[0]];
        receiver := receiver[1..];
        idx := idx + 1;
      }
    }

    method Refill(packets: seq<Packet>)
      modifies this`receiver
      ensures receiver == old(receiver) + packets
    {
      var idx := 0;
      while idx < |packets|
        invariant 0 <= idx <= |packets| && receiver == old(receiver) + packets[..idx]
      {
        TakeNext(packets, idx);
        ConcatAssoc(old(receiver), packets[..idx], [packets[idx]]);
        receiver := receiver + [packets[idx]];
        idx := idx + 1;
      }
    }

    /** Drains the whole queue, takes out the first match and puts the rest back. */
    method LookupPacket(src: string, pType: PacketType) returns (found: Option<Packet>)
      modifies this`receiver
      ensures View() == Lookup(old(View()), src, pType).0
      ensures found == Lookup(old(View()), src, pType).1
    {
      if receiver == [] {
        return None;
      }
      var drained := Drain();
      found := None;
      var idx := 0;
      while idx < |drained|
        invariant 0 <= idx <= |drained|
        invariant found == None && drained == old(receiver)
        invariant forall k :: 0 <= k < idx ==> !Wants(src, pType, drained[k])
      {
        if (src == drained[idx].src || src == "") && pType == drained[idx].pType {
          found := Some(drained[idx]);
          drained := drained[..idx] + drained[idx + 1..];
          break;
        }
        idx := idx + 1;
      }
      FirstWantedIs(old(receiver), src, pType, idx);
      Refill(drained);
      assert Waiters() == old(Waiters());
    }

    method AddBlocker(blocker: RecvBlocker) returns (found: Option<Packet>)
      requires !blocker.closed
      modifies this
      ensures View() == AddWaiter(old(View()), blocker, blocker.src, blocker.pType).0
      ensures found == AddWaiter(old(View()), blocker, blocker.src, blocker.pType).1
    {
      found := LookupPacket(blocker.src, blocker.pType);
      if found.Some? {
        return;
      }
      ghost var ws := Waiters();
      queue := queue + [blocker];
      assert Waiters() == ws + [blocker.View()];
    }

    method DelBlocker(blocker: RecvBlocker)
      modifies this
      ensures View() == DelWaiter(old(View()), blocker)
    {
      var idx := 0;
      while idx < |queue|
        invariant 0 <= idx <= |queue|
        invariant forall k :: 0 <= k < idx ==> queue[k] != blocker
        invariant receiver == old(receiver) && queue == old(queue) && control == old(control)
      {
        if queue[idx] == blocker {
          queue := queue[..idx] + queue[idx + 1..];
          assert Waiters() == RemoveAt(old(Waiters()), idx);
          return;
        }
        idx := idx + 1;
      }
      assert Waiters() == old(Waiters());
    }

    method UnlockSrc(src: string)
      requires NoDuplicates(queue)
      requires forall b :: b in queue && b.src == src ==> !b.closed
      modifies queue
      ensures View() == Unlock(old(View()), src)
    {
      var idx := 0;
      while idx < |queue|
        invariant 0 <= idx <= |queue|
        invariant forall k :: 0 <= k < |queue| ==>
                    queue[k].closed == (old(queue[k].closed) || (k < idx && queue[k].src == src))
      {
        if queue[idx].src == src {
          assert !queue[idx].closed; // closing its channel a second time would panic
          queue[idx].closed := true;
        }
        idx := idx + 1;
      }
      assert Waiters() == Unlock(old(View()), src).queue;
    }

    method UnlockEvery()
      requires NoDuplicates(queue)
      requires forall b :: b in queue ==> !b.closed
      modifies queue
      ensures View() == UnlockAll(old(View()))
    {
      var idx := 0;
      while idx < |queue|
        invariant 0 <= idx <= |queue|
        invariant forall k :: 0 <= k < |queue| ==> queue[k].closed == (k < idx)
      {
        queue[idx].closed := true;
        idx := idx + 1;
      }
      assert Waiters() == UnlockAll(old(View())).queue;
    }

    method CloseRouter()
      requires !control && NoDuplicates(queue)
      requires forall b :: b in queue ==> !b.closed
      modifies this, queue
      ensures View() == Close(old(View()))
    {
      UnlockEvery();
      ghost var ws := Waiters();
      control := true;
      var queueLen := |receiver|;
      var i := 0;
      while i < queueLen
        invariant 0 <= i <= queueLen && receiver == old(receiver)[i..]
        invariant control && queue == old(queue) && Waiters() == ws
      {
        receiver := receiver[1..];
        i := i + 1;
      }
    }
  }
}
