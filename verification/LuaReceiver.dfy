/** The receive loop of a Lua module (pkg/lua/module.go): every packet it takes is acknowledged
    to its sender, either by a send or a receive while its callback runs or when the callback is
    done. */
module LuaReceiver {
  import opened Basics
  import Hub

  // ---- The loop as a state machine; a packet is known by its position among those taken ----

  datatype Phase = Waiting | InCallback(p: nat) | Returned

  /** `held` is the packet not yet acknowledged; `acks` counts the acknowledgements per packet. */
  datatype State = State(held: Option<nat>, srcs: seq<string>, acks: seq<nat>, phase: Phase, sync: bool)

  const START := State(None, [], [], Waiting, false)

  /** One section under the packet mutex, or one turn of the loop's select. The loop can still
      take a packet after the module was told to close, as long as it waits in its select. */
  datatype Event =
    | TakePacket(src: string)
    | TakeNothing                 // the receiver was closed
    | TryUnlock(peer: string)     // the script sends to peer or waits to receive from it ("": from anyone), at any time
    | CallbackDone
    | StopModule                  // the packet taken was the request to stop
    | UseSync(on: bool)
    | Quit

  predicate Enabled(s: State, e: Event) {
    match e
    case TakePacket(_) => s.phase.Waiting? && !s.sync
    case TakeNothing => s.phase.Waiting? && !s.sync
    case TryUnlock(_) => true
    case CallbackDone => s.phase.InCallback?
    case StopModule => s.phase.InCallback?
    case UseSync(_) => s.phase.Waiting?
    case Quit => s.phase.Waiting?
  }

  function Ack(s: State): State {
    if s.held.None? || s.held.value >= |s.acks| then s
    else s.(held := None, acks := s.acks[s.held.value := s.acks[s.held.value] + 1])
  }

  function Step(s: State, e: Event): State {
    match e
    case TakePacket(src) =>
      var p := |s.srcs|;
      Ack(s).(held := Some(p), srcs := s.srcs + [src], acks := Ack(s).acks + [0], phase := InCallback(p))
    case TakeNothing => s.(phase := Returned)
    case TryUnlock(peer) =>
      if s.held.Some? && s.held.value < |s.srcs| && (s.srcs[s.held.value] == peer || peer == "") then Ack(s) else s
    case CallbackDone => Ack(s).(held := None, phase := Waiting)
    case StopModule => Ack(s).(held := None, phase := Returned)
    case UseSync(on) => s.(sync := on)
    case Quit => s.(phase := Returned)
  }

  function Run(run: seq<Event>): Option<State>
    decreases |run|
  {
    if run == [] then Some(START)
    else
      var n := |run| - 1;
      match Run(run[..n])
      case None => None
      case Some(s) => if Enabled(s, run[n]) then Some(Step(s, run[n])) else None
  }

  /** Only the packet in hand may lack its acknowledgement, and only while its callback runs. */
  ghost predicate AckedOnce(s: State) {
    && |s.acks| == |s.srcs|
    && (forall i :: 0 <= i < |s.acks| ==> s.acks[i] == if s.held == Some(i) then 0 else 1)
    && (s.held.Some? ==> s.phase == InCallback(s.held.value) && s.held.value == |s.srcs| - 1)
  }

  lemma {:induction false} EveryRunAcksOnce(run: seq<Event>)
    requires Run(run).Some?
    ensures AckedOnce(Run(run).value)
    decreases |run|
  {
    if run != [] {
      var n := |run| - 1;
      EveryRunAcksOnce(run[..n]);
      var s := Run(run[..n]).value;
      assert s.held.Some? ==> s.acks[s.held.value] == 0;
    }
  }

  lemma AckedOnceStays(s: State)
    requires AckedOnce(s)
    ensures AckedOnce(Ack(s).(held := None))
  {
  }

  /** Whenever the loop waits again or has returned, every packet it took was acknowledged exactly
      once; at any time no packet was acknowledged twice, so a one-slot channel never blocks. */
  lemma NothingOwedBetweenPackets(run: seq<Event>)
    requires Run(run).Some?
    ensures var s := Run(run).value;
            && (forall i :: 0 <= i < |s.acks| ==> s.acks[i] <= 1)
            && (!s.phase.InCallback? ==> s.held == None && forall i :: 0 <= i < |s.acks| ==> s.acks[i] == 1)
  {
    EveryRunAcksOnce(run);
  }

  /** A packet is acknowledged before its callback ends if and only if the script sent something to
      its source in the meantime, or waited to receive from it or from anyone. */
  lemma {:induction false} EarlyAckIff(s: State, peers: seq<string>)
    requires AckedOnce(s) && s.phase.InCallback? && s.held == Some(|s.srcs| - 1) && s.srcs != []
    ensures var src := s.srcs[|s.srcs| - 1];
            AfterCalls(s, peers).held.None? <==> src in peers || "" in peers
    ensures AfterCalls(s, peers).srcs == s.srcs && AfterCalls(s, peers).phase == s.phase
    ensures AckedOnce(AfterCalls(s, peers))
    decreases |peers|
  {
    if peers != [] {
      var n := |peers| - 1;
      EarlyAckIff(s, peers[..n]);
      assert peers == peers[..n] + [peers[n]];
    }
  }

  function AfterCalls(s: State, peers: seq<string>): State
    decreases |peers|
  {
    if peers == [] then s else Step(AfterCalls(s, peers[..|peers| - 1]), TryUnlock(peers[|peers| - 1]))
  }

  // ---- The loop as the program keeps it ----

  datatype PacketKind = Payload | ControlMsg(msg: Hub.Control) | StopRequest

  class Packet {
    const src: string
    const kind: PacketKind
    var acks: nat // tokens put into the acknowledgement channel

    constructor (src: string, kind: PacketKind)
      ensures this.src == src && this.kind == kind && acks == 0
    {
      this.src, this.kind, acks := src, kind, 0;
    }

    /** The channel has one slot: a second acknowledgement would block. */
    method SetAck()
      requires acks == 0
      modifies this
      ensures acks == 1
    {
      acks := acks + 1;
    }
  }

  ghost function Sources(taken: seq<Packet>): (srcs: seq<string>)
    ensures |srcs| == |taken| && forall i :: 0 <= i < |taken| ==> srcs[i] == taken[i].src
  {
    seq(|taken|, i requires 0 <= i < |taken| => taken[i].src)
  }

  ghost function Acks(taken: seq<Packet>): (acks: seq<nat>)
    reads taken
    ensures |acks| == |taken| && forall i :: 0 <= i < |taken| ==> acks[i] == taken[i].acks
  {
    seq(|taken|, i requires 0 <= i < |taken| reads taken => taken[i].acks)
  }

  class LuaModule {
    var packet: Packet?
    var agents: Hub.Roster
    ghost var taken: seq<Packet> // every packet the loop took
    ghost var phase: Phase

    constructor ()
      ensures Valid() && View() == START && agents == map[]
    {
      packet, agents, taken, phase := null, map[], [], Waiting;
    }

    /** The state of the loop, outside synchronous mode. */
    ghost function View(): State
      reads this, taken
    {
      State(if packet == null then None else if taken == [] then None else Some(|taken| - 1),
            Sources(taken), Acks(taken), phase, false)
    }

    ghost predicate Valid()
      reads this, taken
    {
      NoDuplicates(taken) && (packet != null ==> taken != [] && packet == taken[|taken| - 1]) && AckedOnce(View())
    }

    /** The packet held is acknowledged and forgotten. */
    method Release()
      requires Valid()
      modifies this`packet, packet
      ensures packet == null && Valid() && View() == Ack(old(View())).(held := None)
    {
      AckedOnceStays(View());
      if packet != null {
        packet.SetAck();
        packet := null;
        assert Acks(taken) == old(Acks(taken))[|taken| - 1 := 1];
      }
      assert Acks(taken) == Ack(old(View())).acks;
      assert View() == Ack(old(View())).(held := None);
    }

    /** setPacket with the next packet: the one held before, if any, is acknowledged first. */
    method TakeNextPacket(p: Packet)
      requires Valid() && phase == Waiting && p !in taken && p.acks == 0
      modifies this`packet, this`taken, this`phase, packet
      ensures packet == p && taken == old(taken) + [p] && Valid()
      ensures View() == Step(old(View()), TakePacket(p.src))
    {
      ghost var was := View();
      Release();
      packet := p;
      taken := taken + [p];
      phase := InCallback(|taken| - 1);
      assert Sources(taken) == was.srcs + [p.src];
      assert Acks(taken) == Ack(was).acks + [0];
    }

    method TryPacketUnlock(peer: string)
      requires Valid()
      modifies this`packet, packet
      ensures Valid() && View() == Step(old(View()), TryUnlock(peer))
    {
      if packet != null && (packet.src == peer || peer == "") {
        Release();
      }
    }

    /** The callback of a packet: whatever it does, to this loop it is a series of sends and
        receives. */
    method Callback(calls: seq<string>)
      requires Valid()
      modifies this`packet, packet
      ensures Valid() && View() == AfterCalls(old(View()), calls) && (packet == null || packet == old(packet))
    {
      var i := 0;
      while i < |calls|
        invariant 0 <= i <= |calls| && Valid() && View() == AfterCalls(old(View()), calls[..i])
        invariant packet == null || packet == old(packet)
      {
        TryPacketUnlock(calls[i]);
        assert calls[..i + 1][..i] == calls[..i];
        i := i + 1;
      }
      assert calls[..|calls|] == calls;
    }

    /** setPacket(nil) at the end of a turn, after which the loop goes on or returns. */
    method Finish(stop: bool)
      requires Valid() && phase.InCallback?
      modifies this`packet, this`phase, packet
      ensures packet == null && Valid() && View() == Step(old(View()), if stop then StopModule else CallbackDone)
    {
      Release();
      phase := if stop then Returned else Waiting;
    }

    /** The callback for an agent that came: it is on the list before the script is told. */
    method AgentConnected(info: Hub.AgentInfo, calls: seq<string>)
      requires Valid()
      modifies this`packet, this`agents, packet
      ensures Valid() && View() == AfterCalls(old(View()), calls) && (packet == null || packet == old(packet))
      ensures agents == Hub.ApplyOne(old(agents), Hub.Connected(info))
    {
      agents := agents[info.dst := info];
      Callback(calls);
    }

    /** The callback for an agent that went: it is on the list until the script was told. */
    method AgentDisconnected(info: Hub.AgentInfo, calls: seq<string>)
      requires Valid()
      modifies this`packet, this`agents, packet
      ensures Valid() && View() == AfterCalls(old(View()), calls) && (packet == null || packet == old(packet))
      ensures agents == Hub.ApplyOne(old(agents), Hub.Disconnected(info))
    {
      Callback(calls);
      agents := agents - {info.dst};
    }

    /** What the packet is for: a payload or a change of agents goes to the script. */
    method Dispatch(kind: PacketKind, calls: seq<string>)
      requires Valid() && !kind.StopRequest?
      modifies this`packet, this`agents, packet
      ensures Valid() && View() == AfterCalls(old(View()), calls) && (packet == null || packet == old(packet))
      ensures agents == if kind.ControlMsg? then Hub.ApplyOne(old(agents), kind.msg) else old(agents)
    {
      match kind {
        case Payload => Callback(calls);
        case ControlMsg(Connected(info)) => AgentConnected(info, calls);
        case ControlMsg(Disconnected(info)) => AgentDisconnected(info, calls);
      }
    }

    lemma CallsKeepPhase(s: State, calls: seq<string>)
      ensures AfterCalls(s, calls).phase == s.phase
      decreases |calls|
    {
    }

    /** One turn of the loop with a packet: false when it was the request to stop. */
    method HandlePacket(p: Packet, calls: seq<string>) returns (goOn: bool)
      requires Valid() && phase == Waiting && p !in taken && p.acks == 0
      modifies this, p, packet
      ensures Valid() && packet == null && taken == old(taken) + [p]
      ensures goOn == !p.kind.StopRequest?
      ensures var inHand := Step(old(View()), TakePacket(p.src));
              View() == if goOn then Step(AfterCalls(inHand, calls), CallbackDone) else Step(inHand, StopModule)
      ensures agents == if p.kind.ControlMsg? then Hub.ApplyOne(old(agents), p.kind.msg) else old(agents)
    {
      TakeNextPacket(p);
      goOn := !p.kind.StopRequest?;
      if goOn {
        CallsKeepPhase(View(), calls);
        Dispatch(p.kind, calls);
      }
      Finish(!goOn);
    }
  }
}
