/** The queues of packets that cannot be delivered yet (pkg/vxproto/proto.go): a pass over a
    queue reads the old packets while it refills the same backing array. */
module Deferred {
  import opened Basics

  const MAX_QUEUE := 5000 // MaxSizePacketQueue
  const TTL := 60         // DeferredPacketTTLSeconds

  datatype Packet = Packet(modName: string, src: string, dst: string, ts: int, payload: Bytes)

  // ---- Where a packet goes ----

  /** What the hub knows when it looks at one packet: its tables, the verdict of the agent's
      connection policy on the packet, and the clock. */
  datatype World = World(closed: bool, routes: map<string, string>, agents: map<string, string>,
                         modules: map<string, map<string, string>>, admitted: bool, now: int)

  datatype Fate = Dropped | ToAgent(src: string) | ToModule(token: string) | DeferReceived | DeferSent

  predicate Expired(w: World, p: Packet) {
    w.now - p.ts >= TTL
  }

  /** The module of that name for the group, else the shared one, else the only one if the group
      is unknown. */
  function FindModule(w: World, name: string, gid: string): Option<string> {
    if name !in w.modules then None
    else
      var groups := w.modules[name];
      if gid in groups then Some(groups[gid])
      else if "" in groups then Some(groups[""])
      else if gid == "" && |groups| == 1 then
        assert exists g :: g in groups by { NonEmptyHasKey(groups); }
        OnlyKeyUnique(groups);
        var g :| g in groups;
        Some(groups[g])
      else None
  }

  lemma NonEmptyHasKey(m: map<string, string>)
    requires |m| == 1
    ensures exists k :: k in m
  {
    assert |m.Keys| == 1;
  }

  lemma OnlyKeyUnique(m: map<string, string>)
    requires |m| == 1
    ensures forall j, k :: j in m && k in m ==> j == k
  {
    forall j, k | j in m && k in m ensures j == k {
      var rest := m.Keys - {j};
      assert |rest| == 0;
      assert k !in rest;
    }
  }

  function SendFate(w: World, p: Packet): Fate {
    if w.closed then Dropped
    else if p.dst !in w.routes || w.routes[p.dst] !in w.agents then DeferSent
    else if !w.admitted then Dropped
    else ToAgent(w.routes[p.dst])
  }

  function ReceiveFate(w: World, p: Packet): Fate {
    if w.closed then Dropped
    else if p.dst in w.routes then SendFate(w, p)
    else if p.dst !in w.agents then DeferReceived
    else if !w.admitted then Dropped
    else
      match FindModule(w, p.modName, w.agents[p.dst])
      case None => DeferReceived
      case Some(token) => ToModule(token)
  }

  // ---- Queues as values ----

  function Defer(q: seq<Packet>, p: Packet): (r: seq<Packet>)
    ensures |q| <= MAX_QUEUE ==> |r| <= MAX_QUEUE
  {
    (if |q| >= MAX_QUEUE then q[1..] else q) + [p]
  }

  function DeferAll(q: seq<Packet>, ps: seq<Packet>): seq<Packet>
    decreases |ps|
  {
    if ps == [] then q else Defer(DeferAll(q, ps[..|ps| - 1]), ps[|ps| - 1])
  }

  lemma DeferAllNext(q: seq<Packet>, ps: seq<Packet>, p: Packet)
    ensures DeferAll(q, ps + [p]) == Defer(DeferAll(q, ps), p)
  {
    assert (ps + [p])[..|ps|] == ps;
  }

  /** The newest packets survive, at most MAX_QUEUE of them. */
  lemma {:induction false} DeferAllKeepsNewest(q: seq<Packet>, ps: seq<Packet>)
    requires |q| <= MAX_QUEUE
    ensures var all := q + ps;
            DeferAll(q, ps) == if |all| <= MAX_QUEUE then all else all[|all| - MAX_QUEUE..]
    decreases |ps|
  {
    if ps == [] {
      assert q + ps == q;
    } else {
      var n := |ps| - 1;
      DeferAllKeepsNewest(q, ps[..n]);
      assert q + ps == (q + ps[..n]) + [ps[n]];
    }
  }

  /** The packets among the first n of a pass that meet fate `f`, in order. `world(i)` is the
      state of the hub when packet i is looked at; `receiving` tells which queue it is. */
  function WithFate(world: nat -> World, receiving: bool, ps: seq<Packet>, n: nat, f: Fate): (r: seq<Packet>)
    requires n <= |ps|
    ensures |r| <= n
  {
    if n == 0 then []
    else
      var before := WithFate(world, receiving, ps, n - 1, f);
      if FateOf(world(n - 1), receiving, ps[n - 1]) == f then before + [ps[n - 1]] else before
  }

  lemma {:induction false} WithFatePrefix(world: nat -> World, receiving: bool, ps: seq<Packet>, qs: seq<Packet>,
                                          n: nat, f: Fate)
    requires n <= |ps|
    ensures WithFate(world, receiving, ps + qs, n, f) == WithFate(world, receiving, ps, n, f)
  {
    if n > 0 {
      WithFatePrefix(world, receiving, ps, qs, n - 1, f);
    }
  }

  function FateOf(w: World, receiving: bool, p: Packet): Fate {
    if Expired(w, p) then Dropped else if receiving then ReceiveFate(w, p) else SendFate(w, p)
  }

  /** A pass over the send queue defers nothing to the receive queue. */
  lemma {:induction false} SendPassStaysInItsQueue(world: nat -> World, ps: seq<Packet>, n: nat)
    requires n <= |ps|
    ensures WithFate(world, false, ps, n, DeferReceived) == []
  {
    if n > 0 {
      SendPassStaysInItsQueue(world, ps, n - 1);
    }
  }

  // ---- Queues as the program keeps them: a slice of a backing array ----

  class PacketQueue {
    var store: array<Packet>
    var start: nat
    var len: nat

    constructor ()
      ensures Valid() && Contents() == [] && fresh(store)
    {
      store, start, len := new Packet[0], 0, 0;
    }

    ghost predicate Valid()
      reads this
    {
      start + len <= store.Length && len <= MAX_QUEUE
    }

    ghost function Contents(): seq<Packet>
      requires Valid()
      reads this, store
    {
      store[start..start + len]
    }

    /** append(queue, p) after the eviction of the oldest packet from a full queue. Within the
        capacity the packet is written in place, behind the slice; beyond it the queue moves. */
    method Append(p: Packet)
      requires Valid()
      modifies this, store
      ensures Valid() && Contents() == Defer(old(Contents()), p)
      ensures store == old(store) || fresh(store)
      ensures old(len) < MAX_QUEUE && old(start + len) < old(store).Length ==>
                store == old(store) && start == old(start) && len == old(len) + 1
      ensures store == old(store) <==> old(start + len) < old(store).Length
      ensures store == old(store) ==> start + len == old(start + len) + 1
      ensures forall i :: 0 <= i < old(store).Length && i != old(start + len) ==> old(store)[i] == old(store[i])
    {
      if len >= MAX_QUEUE {
        start, len := start + 1, len - 1;
      }
      if start + len < store.Length {
        store[start + len] := p;
      } else {
        Move(p);
      }
      len := len + 1;
    }

    /** The slice moves to the start of a bigger array; p comes right behind it. */
    method Move(p: Packet)
      requires Valid()
      modifies this
      ensures fresh(store) && start == 0 && len == old(len) < store.Length && Valid()
      ensures store[..len] == old(Contents()) && store[len] == p
    {
      var bigger := new Packet[2 * len + 1](i requires 0 <= i < 2 * len + 1 reads this, store
                                              requires start + len <= store.Length =>
                                              if i < len then store[start + i] else p);
      store, start := bigger, 0;
    }

    // ---- Appends in the middle of a pass ----

    /** The packets of the pass from the i-th on still lie where they were, and what was appended
        since the pass began has not reached them. */
    ghost predicate Unread(all: seq<Packet>, i: nat)
      reads this, store
    {
      && Valid() && len <= i <= |all| <= MAX_QUEUE && start + |all| <= store.Length
      && forall k :: i <= k < |all| ==> store[start + k] == all[k]
    }

    /** An append behind the slice leaves the unread packets alone if and only if the slice is
        still shorter than what was read, or the append writes what the next packet is anyway. */
    method AppendAmid(x: Packet, ghost all: seq<Packet>, ghost i: nat)
      requires Unread(all, i) && i < |all|
      modifies this, store
      ensures Valid() && store == old(store) && start == old(start)
      ensures Contents() == old(Contents()) + [x]
      ensures (forall k :: i <= k < |all| ==> store[start + k] == all[k]) <==> old(len) < i || x == all[i]
    {
      Append(x);
      assert store[start + old(len)] == Contents()[old(len)];
    }

    /** Where the next append goes when `log` was appended since the pass over n packets began. */
    ghost predicate Placed(pq: array<Packet>, lo: nat, n: nat, log: seq<Packet>)
      reads this, store
    {
      && Valid() && n <= MAX_QUEUE && lo + n <= pq.Length
      && (|log| < n ==> store == pq && start == lo && len == |log|)
      && (store == pq ==> start + len == lo + |log|)
      && Contents() == DeferAll([], log)
    }

    /** The slice `pq` from `lo` on that the pass reads: entry by entry what was appended has taken
        the place of the packets `snap` of the pass. */
    ghost predicate Overlaid(pq: array<Packet>, lo: nat, snap: seq<Packet>, log: seq<Packet>)
      reads this, store, pq
    {
      Placed(pq, lo, |snap|, log) && Entries(pq[..], lo, snap, log)
    }

    method AppendTo(pq: array<Packet>, lo: nat, ghost snap: seq<Packet>, ghost log: seq<Packet>, p: Packet)
      requires Overlaid(pq, lo, snap, log)
      modifies this, store
      ensures Overlaid(pq, lo, snap, log + [p])
      ensures store == old(store) || fresh(store)
    {
      ghost var was := pq[..];
      Place(pq, lo, |snap|, log, p);
      EntriesNext(was, pq[..], lo, snap, log, p);
    }

    method Place(pq: array<Packet>, lo: nat, ghost n: nat, ghost log: seq<Packet>, p: Packet)
      requires Placed(pq, lo, n, log)
      modifies this, store
      ensures Placed(pq, lo, n, log + [p])
      ensures store == old(store) || fresh(store)
      ensures |log| < n ==> pq[lo + |log|] == p
      ensures forall j :: lo <= j < lo + n && j != lo + |log| ==> pq[j] == old(pq[j])
    {
      DeferAllNext([], log, p);
      Append(p);
      if |log| < n {
        assert Contents()[|log|] == p;
      }
    }

    method AppendAll(pq: array<Packet>, lo: nat, ghost snap: seq<Packet>, ghost log: seq<Packet>, ps: seq<Packet>)
      requires Overlaid(pq, lo, snap, log)
      modifies this, store
      ensures Overlaid(pq, lo, snap, log + ps)
      ensures store == old(store) || fresh(store)
    {
      var i := 0;
      assert log + ps[..0] == log;
      while i < |ps|
        invariant 0 <= i <= |ps| && Overlaid(pq, lo, snap, log + ps[..i])
        invariant store == old(store) || fresh(store)
      {
        TakeNext(ps, i);
        ConcatAssoc(log, ps[..i], [ps[i]]);
        AppendTo(pq, lo, snap, log + ps[..i], ps[i]);
        i := i + 1;
      }
      assert ps[..i] == ps;
    }
  }

  class DeferredQueues {
    const rpqueue: PacketQueue
    const spqueue: PacketQueue

    constructor ()
      ensures Valid() && rpqueue.Contents() == [] && spqueue.Contents() == []
    {
      rpqueue := new PacketQueue();
      spqueue := new PacketQueue();
    }

    ghost predicate Valid()
      reads this, rpqueue, spqueue
    {
      && rpqueue != spqueue && rpqueue.Valid() && spqueue.Valid()
      && rpqueue.store != spqueue.store
    }

    /** One packet of a pass over the receive queue. */
    method Redeliver(w: World, p: Packet)
      requires Valid()
      requires rpqueue.len < MAX_QUEUE && rpqueue.start + rpqueue.len < rpqueue.store.Length
      modifies rpqueue, spqueue, rpqueue.store, spqueue.store
      ensures Valid()
      ensures rpqueue.Contents() == if FateOf(w, true, p) == DeferReceived then old(rpqueue.Contents()) + [p]
                                    else old(rpqueue.Contents())
      ensures spqueue.Contents() == if FateOf(w, true, p) == DeferSent then Defer(old(spqueue.Contents()), p)
                                    else old(spqueue.Contents())
      ensures rpqueue.store == old(rpqueue.store) && rpqueue.start == old(rpqueue.start)
      ensures spqueue.store == old(spqueue.store) || fresh(spqueue.store)
      ensures forall i :: old(rpqueue.start + rpqueue.len) < i < rpqueue.store.Length ==>
                rpqueue.store[i] == old(rpqueue.store[i])
    {
      if !Expired(w, p) {
        match ReceiveFate(w, p)
        case DeferReceived => rpqueue.Append(p);
        case DeferSent => spqueue.Append(p);
        case _ =>
      }
    }

    /** One packet of a pass over the send queue. */
    method Resend(w: World, p: Packet)
      requires Valid()
      requires spqueue.len < MAX_QUEUE && spqueue.start + spqueue.len < spqueue.store.Length
      modifies spqueue, spqueue.store
      ensures Valid()
      ensures spqueue.Contents() == if FateOf(w, false, p) == DeferSent then old(spqueue.Contents()) + [p]
                                    else old(spqueue.Contents())
      ensures spqueue.store == old(spqueue.store) && spqueue.start == old(spqueue.start)
      ensures forall i :: old(spqueue.start + spqueue.len) < i < spqueue.store.Length ==>
                spqueue.store[i] == old(spqueue.store[i])
    {
      if !Expired(w, p) {
        var fate := SendFate(w, p);
        if fate == DeferSent {
          spqueue.Append(p);
        }
      }
    }

    /** One pass over the receive queue, with no appends but its own: `visited` lists the packets
        it looked at. What is deferred again is written over entries already read. */
    method DrainReceived(world: nat -> World) returns (visited: seq<Packet>)
      requires Valid()
      modifies rpqueue, spqueue, rpqueue.store, spqueue.store
      ensures Valid()
      ensures visited == old(rpqueue.Contents())
      ensures rpqueue.Contents() == WithFate(world, true, visited, |visited|, DeferReceived)
      ensures spqueue.Contents()
              == DeferAll(old(spqueue.Contents()), WithFate(world, true, visited, |visited|, DeferSent))
    {
      var n := rpqueue.len;
      ghost var all := rpqueue.Contents();
      rpqueue.len := 0;
      visited := RedeliverAll(world, n, all);
    }

    /** The loop of the pass: the old packets lie in the n entries from the start of the slice. */
    method RedeliverAll(world: nat -> World, n: nat, ghost all: seq<Packet>) returns (visited: seq<Packet>)
      requires Valid() && rpqueue.len == 0 && n == |all| <= MAX_QUEUE
      requires rpqueue.start + n <= rpqueue.store.Length
      requires forall k :: rpqueue.start <= k < rpqueue.start + n ==> rpqueue.store[k] == all[k - rpqueue.start]
      modifies rpqueue, spqueue, rpqueue.store, spqueue.store
      ensures Valid() && visited == all
      ensures rpqueue.Contents() == WithFate(world, true, all, n, DeferReceived)
      ensures spqueue.Contents() == DeferAll(old(spqueue.Contents()), WithFate(world, true, all, n, DeferSent))
    {
      visited := [];
      var i := 0;
      while i < n
        invariant 0 <= i <= n && visited == all[..i]
        invariant Unread(all, i) && rpqueue.store == old(rpqueue.store) && rpqueue.start == old(rpqueue.start)
        invariant spqueue.store == old(spqueue.store) || fresh(spqueue.store)
        invariant rpqueue.Contents() == WithFate(world, true, all, i, DeferReceived)
        invariant spqueue.Contents() == DeferAll(old(spqueue.Contents()), WithFate(world, true, all, i, DeferSent))
      {
        DeferAllNext(old(spqueue.Contents()), WithFate(world, true, all, i, DeferSent), all[i]);
        var p := RedeliverNext(world(i), i, all);
        TakeNext(all, i);
        visited := visited + [p];
        i := i + 1;
      }
      assert all[..n] == all;
    }

    ghost predicate Unread(all: seq<Packet>, i: nat)
      reads this, rpqueue, spqueue, rpqueue.store
    {
      Valid() && rpqueue.Unread(all, i)
    }

    method RedeliverNext(w: World, i: nat, ghost all: seq<Packet>) returns (p: Packet)
      requires Unread(all, i) && i < |all|
      modifies rpqueue, spqueue, rpqueue.store, spqueue.store
      ensures Unread(all, i + 1) && p == all[i]
      ensures rpqueue.Contents() == if FateOf(w, true, p) == DeferReceived then old(rpqueue.Contents()) + [p]
                                    else old(rpqueue.Contents())
      ensures spqueue.Contents() == if FateOf(w, true, p) == DeferSent then Defer(old(spqueue.Contents()), p)
                                    else old(spqueue.Contents())
      ensures rpqueue.store == old(rpqueue.store) && rpqueue.start == old(rpqueue.start)
      ensures spqueue.store == old(spqueue.store) || fresh(spqueue.store)
    {
      p := rpqueue.store[rpqueue.start + i];
      Redeliver(w, p);
      assert |rpqueue.Contents()| == rpqueue.len;
    }

    /** One pass over the send queue, with no appends but its own. */
    method DrainSent(world: nat -> World) returns (visited: seq<Packet>)
      requires Valid()
      modifies spqueue, spqueue.store
      ensures Valid()
      ensures visited == old(spqueue.Contents())
      ensures spqueue.Contents() == WithFate(world, false, visited, |visited|, DeferSent)
      ensures rpqueue.Contents() == old(rpqueue.Contents())
    {
      var n := spqueue.len;
      ghost var all := spqueue.Contents();
      spqueue.len := 0;
      visited := ResendAll(world, n, all);
    }

    method ResendAll(world: nat -> World, n: nat, ghost all: seq<Packet>) returns (visited: seq<Packet>)
      requires n == |all| && UnreadSent(all, 0)
      modifies spqueue, spqueue.store
      ensures Valid() && visited == all
      ensures spqueue.Contents() == WithFate(world, false, all, n, DeferSent)
    {
      visited := [];
      var i := 0;
      while i < n
        invariant 0 <= i <= n == |all| && visited == all[..i]
        invariant UnreadSent(all, i) && spqueue.store == old(spqueue.store) && spqueue.start == old(spqueue.start)
        invariant spqueue.Contents() == WithFate(world, false, all, i, DeferSent)
      {
        var p := ResendNext(world(i), i, all);
        TakeNext(all, i);
        visited := visited + [p];
        i := i + 1;
      }
      assert all[..n] == all;
    }

    ghost predicate UnreadSent(all: seq<Packet>, i: nat)
      reads this, rpqueue, spqueue, spqueue.store
    {
      Valid() && spqueue.Unread(all, i)
    }

    method ResendNext(w: World, i: nat, ghost all: seq<Packet>) returns (p: Packet)
      requires UnreadSent(all, i) && i < |all|
      modifies spqueue, spqueue.store
      ensures UnreadSent(all, i + 1) && p == all[i]
      ensures spqueue.Contents() == if FateOf(w, false, p) == DeferSent then old(spqueue.Contents()) + [p]
                                    else old(spqueue.Contents())
      ensures spqueue.store == old(spqueue.store) && spqueue.start == old(spqueue.start)
    {
      p := spqueue.store[spqueue.start + i];
      Resend(w, p);
      assert |spqueue.Contents()| == spqueue.len;
    }

    // ---- Passes with appends from outside ----

    /** The state in the middle of a pass over the receive queue; `sent` is what the send queue held
        at first. */
    ghost predicate Receiving(pass: Pass, pq: array<Packet>, lo: nat, visited: seq<Packet>, sent: seq<Packet>)
      reads this, rpqueue, spqueue, rpqueue.store, spqueue.store, pq
    {
      && Valid() && spqueue.store != pq && pass.receiving && SawSoFar(pass, visited)
      && rpqueue.Overlaid(pq, lo, pass.snap, Appended(pass, |visited|))
      && spqueue.Contents() == DeferAll(sent, WithFate(pass.world, true, visited, |visited|, DeferSent))
    }

    method ReceiveOne(ghost pass: Pass, w: World, out: seq<Packet>, pq: array<Packet>, lo: nat,
                      visited: seq<Packet>, ghost sent: seq<Packet>)
      returns (visited': seq<Packet>)
      requires Receiving(pass, pq, lo, visited, sent) && |visited| < |pass.snap|
      requires w == pass.world(|visited|) && out == pass.outside(|visited|)
      modifies rpqueue, rpqueue.store, spqueue, spqueue.store
      ensures Receiving(pass, pq, lo, visited', sent) && |visited'| == |visited| + 1
      ensures rpqueue.store == old(rpqueue.store) || fresh(rpqueue.store)
      ensures spqueue.store == old(spqueue.store) || fresh(spqueue.store)
    {
      var p := ReadOne(w, out, pq, lo, |visited|, pass.snap, Appended(pass, |visited|));
      SawNext(pass, visited, p);
      SentNext(pass.world, sent, visited, p);
      visited' := visited + [p];
    }

    /** Appends from outside, and then the next packet of the pass. */
    method ReadOne(w: World, out: seq<Packet>, pq: array<Packet>, lo: nat, i: nat,
                   ghost snap: seq<Packet>, ghost log: seq<Packet>)
      returns (p: Packet)
      requires i < |snap| && Valid() && spqueue.store != pq && rpqueue.Overlaid(pq, lo, snap, log)
      modifies rpqueue, rpqueue.store, spqueue, spqueue.store
      ensures Valid() && spqueue.store != pq && p == EntryAt(log + out, snap, i)
      ensures rpqueue.Overlaid(pq, lo, snap,
                               if FateOf(w, true, p) == DeferReceived then (log + out) + [p] else log + out)
      ensures spqueue.Contents() == if FateOf(w, true, p) == DeferSent then Defer(old(spqueue.Contents()), p)
                                    else old(spqueue.Contents())
      ensures rpqueue.store == old(rpqueue.store) || fresh(rpqueue.store)
      ensures spqueue.store == old(spqueue.store) || fresh(spqueue.store)
    {
      rpqueue.AppendAll(pq, lo, snap, log, out);
      p := pq[lo + i];
      PutBack(w, p, pq, lo, snap, log + out);
    }

    method PutBack(w: World, p: Packet, pq: array<Packet>, lo: nat, ghost snap: seq<Packet>, ghost log: seq<Packet>)
      requires Valid() && spqueue.store != pq && rpqueue.Overlaid(pq, lo, snap, log)
      modifies rpqueue, rpqueue.store, spqueue, spqueue.store
      ensures Valid() && spqueue.store != pq
      ensures rpqueue.Overlaid(pq, lo, snap, if FateOf(w, true, p) == DeferReceived then log + [p] else log)
      ensures spqueue.Contents() == if FateOf(w, true, p) == DeferSent then Defer(old(spqueue.Contents()), p)
                                    else old(spqueue.Contents())
      ensures rpqueue.store == old(rpqueue.store) || fresh(rpqueue.store)
      ensures spqueue.store == old(spqueue.store) || fresh(spqueue.store)
    {
      if !Expired(w, p) {
        var fate := ReceiveFate(w, p);
        if fate == DeferReceived {
          rpqueue.AppendTo(pq, lo, snap, log, p);
        } else if fate == DeferSent {
          spqueue.Append(p);
        }
      }
    }

    /** A pass over the receive queue in which outside(i) is appended before the i-th read. */
    method DrainReceivedAmid(world: nat -> World, outside: nat -> seq<Packet>) returns (visited: seq<Packet>)
      requires Valid()
      modifies rpqueue, spqueue, rpqueue.store, spqueue.store
      ensures Valid() && |visited| == |old(rpqueue.Contents())|
      ensures var pass := Pass(true, world, outside, old(rpqueue.Contents()));
              SawSoFar(pass, visited) && rpqueue.Contents() == DeferAll([], Appended(pass, |visited|))
      ensures spqueue.Contents()
              == DeferAll(old(spqueue.Contents()), WithFate(world, true, visited, |visited|, DeferSent))
    {
      var pq, lo, n := rpqueue.store, rpqueue.start, rpqueue.len;
      ghost var pass := Pass(true, world, outside, rpqueue.Contents());
      rpqueue.len := 0;
      visited := ReceiveAll(pass, world, outside, pq, lo, n);
    }

    method ReceiveAll(ghost pass: Pass, world: nat -> World, outside: nat -> seq<Packet>,
                      pq: array<Packet>, lo: nat, n: nat)
      returns (visited: seq<Packet>)
      requires n == |pass.snap| && pass.world == world && pass.outside == outside
      requires spqueue.Valid() && Receiving(pass, pq, lo, [], spqueue.Contents())
      modifies rpqueue, spqueue, rpqueue.store, spqueue.store
      ensures Receiving(pass, pq, lo, visited, old(spqueue.Contents())) && |visited| == n
    {
      ghost var sent := spqueue.Contents();
      visited := [];
      while |visited| < n
        invariant |visited| <= n && Receiving(pass, pq, lo, visited, sent)
        invariant rpqueue.store == old(rpqueue.store) || fresh(rpqueue.store)
        invariant spqueue.store == old(spqueue.store) || fresh(spqueue.store)
      {
        visited := ReceiveOne(pass, world(|visited|), outside(|visited|), pq, lo, visited, sent);
      }
    }

    /** The state in the middle of a pass over the send queue. */
    ghost predicate Sending(pass: Pass, pq: array<Packet>, lo: nat, visited: seq<Packet>)
      reads this, rpqueue, spqueue, spqueue.store, pq
    {
      && Valid() && rpqueue.store != pq && !pass.receiving && SawSoFar(pass, visited)
      && spqueue.Overlaid(pq, lo, pass.snap, Appended(pass, |visited|))
    }

    method SendOne(ghost pass: Pass, w: World, out: seq<Packet>, pq: array<Packet>, lo: nat, visited: seq<Packet>)
      returns (visited': seq<Packet>)
      requires Sending(pass, pq, lo, visited) && |visited| < |pass.snap|
      requires w == pass.world(|visited|) && out == pass.outside(|visited|)
      modifies spqueue, spqueue.store
      ensures Sending(pass, pq, lo, visited') && |visited'| == |visited| + 1
      ensures spqueue.store == old(spqueue.store) || fresh(spqueue.store)
    {
      var p := ReadSent(w, out, pq, lo, |visited|, pass.snap, Appended(pass, |visited|));
      SawNext(pass, visited, p);
      visited' := visited + [p];
    }

    method ReadSent(w: World, out: seq<Packet>, pq: array<Packet>, lo: nat, i: nat,
                    ghost snap: seq<Packet>, ghost log: seq<Packet>)
      returns (p: Packet)
      requires i < |snap| && Valid() && rpqueue.store != pq && spqueue.Overlaid(pq, lo, snap, log)
      modifies spqueue, spqueue.store
      ensures Valid() && p == EntryAt(log + out, snap, i)
      ensures spqueue.Overlaid(pq, lo, snap,
                               if FateOf(w, false, p) == DeferSent then (log + out) + [p] else log + out)
      ensures spqueue.store == old(spqueue.store) || fresh(spqueue.store)
    {
      spqueue.AppendAll(pq, lo, snap, log, out);
      p := pq[lo + i];
      if !Expired(w, p) {
        var fate := SendFate(w, p);
        if fate == DeferSent {
          spqueue.AppendTo(pq, lo, snap, log + out, p);
        }
      }
    }

    /** A pass over the send queue in which outside(i) is appended before the i-th read: such
        appends come above all from passes over the receive queue. */
    method DrainSentAmid(world: nat -> World, outside: nat -> seq<Packet>) returns (visited: seq<Packet>)
      requires Valid()
      modifies spqueue, spqueue.store
      ensures Valid() && |visited| == |old(spqueue.Contents())|
      ensures var pass := Pass(false, world, outside, old(spqueue.Contents()));
              SawSoFar(pass, visited) && spqueue.Contents() == DeferAll([], Appended(pass, |visited|))
      ensures rpqueue.Contents() == old(rpqueue.Contents())
    {
      var pq, lo, n := spqueue.store, spqueue.start, spqueue.len;
      ghost var pass := Pass(false, world, outside, spqueue.Contents());
      spqueue.len := 0;
      visited := SendAll(pass, world, outside, pq, lo, n);
    }

    method SendAll(ghost pass: Pass, world: nat -> World, outside: nat -> seq<Packet>,
                   pq: array<Packet>, lo: nat, n: nat)
      returns (visited: seq<Packet>)
      requires n == |pass.snap| && pass.world == world && pass.outside == outside
      requires Sending(pass, pq, lo, [])
      modifies spqueue, spqueue.store
      ensures Sending(pass, pq, lo, visited) && |visited| == n
    {
      visited := [];
      while |visited| < n
        invariant |visited| <= n && Sending(pass, pq, lo, visited)
        invariant spqueue.store == old(spqueue.store) || fresh(spqueue.store)
      {
        visited := SendOne(pass, world(|visited|), outside(|visited|), pq, lo, visited);
      }
    }
  }

  // ---- What a pass sees when packets are appended from outside ----

  function EntryAt(log: seq<Packet>, snap: seq<Packet>, i: nat): Packet
    requires i < |snap|
  {
    if i < |log| then log[i] else snap[i]
  }

  ghost predicate Entries(pq: seq<Packet>, lo: nat, snap: seq<Packet>, log: seq<Packet>) {
    lo + |snap| <= |pq| && forall j :: lo <= j < lo + |snap| ==> pq[j] == EntryAt(log, snap, j - lo)
  }

  lemma EntriesNext(was: seq<Packet>, now: seq<Packet>, lo: nat, snap: seq<Packet>, log: seq<Packet>, p: Packet)
    requires Entries(was, lo, snap, log) && |now| == |was|
    requires |log| < |snap| ==> now[lo + |log|] == p
    requires forall j :: lo <= j < lo + |snap| && j != lo + |log| ==> now[j] == was[j]
    ensures Entries(now, lo, snap, log + [p])
  {
  }

  /** A pass over the receive or the send queue, which holds `snap` when it begins; outside(i) is
      what others append before its i-th read. */
  datatype Pass = Pass(receiving: bool, world: nat -> World, outside: nat -> seq<Packet>, snap: seq<Packet>)

  /** The fate that brings a packet back to the queue of the pass. */
  function OwnFate(pass: Pass): Fate {
    if pass.receiving then DeferReceived else DeferSent
  }

  /** Everything appended, from outside and by the pass itself, up to and with its i-th packet. */
  function Appended(pass: Pass, i: nat): seq<Packet>
    requires i <= |pass.snap|
  {
    if i == 0 then []
    else
      var log := Appended(pass, i - 1) + pass.outside(i - 1);
      var p := EntryAt(log, pass.snap, i - 1);
      if FateOf(pass.world(i - 1), pass.receiving, p) == OwnFate(pass) then log + [p] else log
  }

  function Seen(pass: Pass, i: nat): Packet
    requires i < |pass.snap|
  {
    EntryAt(Appended(pass, i) + pass.outside(i), pass.snap, i)
  }

  ghost predicate SawSoFar(pass: Pass, visited: seq<Packet>) {
    |visited| <= |pass.snap| && forall i :: 0 <= i < |visited| ==> visited[i] == Seen(pass, i)
  }

  lemma SawNext(pass: Pass, visited: seq<Packet>, p: Packet)
    requires SawSoFar(pass, visited) && |visited| < |pass.snap|
    requires p == Seen(pass, |visited|)
    ensures SawSoFar(pass, visited + [p])
  {
  }

  lemma SentNext(world: nat -> World, sent: seq<Packet>, visited: seq<Packet>, p: Packet)
    ensures var n := |visited|;
            var before := DeferAll(sent, WithFate(world, true, visited, n, DeferSent));
            DeferAll(sent, WithFate(world, true, visited + [p], n + 1, DeferSent)) ==
            if FateOf(world(n), true, p) == DeferSent then Defer(before, p) else before
  {
    DeferAllNext(sent, WithFate(world, true, visited, |visited|, DeferSent), p);
    WithFatePrefix(world, true, visited, [p], |visited|, DeferSent);
  }

  /** The guard of one append, at an index of the shared array when so many packets were read: it
      lands on one already read, or behind them all, or writes what is there. */
  predicate MeetsGuard(snap: seq<Packet>, read: nat, index: nat, x: Packet) {
    index < read || |snap| <= index || x == snap[index]
  }

  /** Every append of the pass meets its guard: those of outside(i) after i reads, that of the i-th
      packet itself after i + 1. */
  ghost predicate EachMeetsGuard(pass: Pass) {
    forall i :: 0 <= i < |pass.snap| ==> StepMeetsGuard(pass, i)
  }

  ghost predicate StepMeetsGuard(pass: Pass, i: nat)
    requires i < |pass.snap|
  {
    var before, after := Appended(pass, i), Appended(pass, i + 1);
    forall m :: |before| <= m < |after| ==>
      MeetsGuard(pass.snap, if m < |before| + |pass.outside(i)| then i else i + 1, m, after[m])
  }

  lemma {:induction false} AppendedGrows(pass: Pass, i: nat, j: nat)
    requires i <= j <= |pass.snap|
    ensures Appended(pass, i) <= Appended(pass, j)
    ensures i < j ==> Appended(pass, i) + pass.outside(i) <= Appended(pass, j)
    decreases j
  {
    if i < j {
      AppendedGrows(pass, i, j - 1);
    }
  }

  /** When an entry was appended, and after how many reads. */
  lemma {:induction false} AppendedWhen(pass: Pass, i: nat, m: nat)
    returns (j: nat)
    requires i <= |pass.snap| && m < |Appended(pass, i)|
    ensures j < i && |Appended(pass, j)| <= m < |Appended(pass, j + 1)|
    ensures Appended(pass, j + 1)[m] == Appended(pass, i)[m]
    decreases i
  {
    if m < |Appended(pass, i - 1)| {
      AppendedGrows(pass, i - 1, i);
      j := AppendedWhen(pass, i - 1, m);
    } else {
      j := i - 1;
    }
  }

  /** A pass visits exactly the packets it began with if and only if each append in the meantime
      met its guard. */
  lemma PassSparedIff(pass: Pass)
    ensures (forall i :: 0 <= i < |pass.snap| ==> Seen(pass, i) == pass.snap[i])
            <==> EachMeetsGuard(pass)
  {
    if EachMeetsGuard(pass) {
      forall i | 0 <= i < |pass.snap| ensures Seen(pass, i) == pass.snap[i] {
        GuardedIsSpared(pass, i);
      }
    }
    if forall i :: 0 <= i < |pass.snap| ==> Seen(pass, i) == pass.snap[i] {
      forall i | 0 <= i < |pass.snap| ensures StepMeetsGuard(pass, i) {
        SparedIsGuarded(pass, i);
      }
    }
  }

  lemma GuardedIsSpared(pass: Pass, i: nat)
    requires i < |pass.snap| && EachMeetsGuard(pass)
    ensures Seen(pass, i) == pass.snap[i]
  {
    var log := Appended(pass, i);
    AppendedGrows(pass, i, i + 1);
    if i < |log| {
      var j := AppendedWhen(pass, i, i);
      assert StepMeetsGuard(pass, j);
      assert Appended(pass, j + 1)[i] == log[i];
    } else if i < |log| + |pass.outside(i)| {
      assert StepMeetsGuard(pass, i);
      assert Appended(pass, i + 1)[i] == (log + pass.outside(i))[i];
    }
  }

  lemma SparedIsGuarded(pass: Pass, i: nat)
    requires i < |pass.snap| && forall k :: 0 <= k < |pass.snap| ==> Seen(pass, k) == pass.snap[k]
    ensures StepMeetsGuard(pass, i)
  {
    var before, after := Appended(pass, i), Appended(pass, i + 1);
    AppendedGrows(pass, i, i + 1);
    forall m | |before| <= m < |after|
      ensures MeetsGuard(pass.snap, if m < |before| + |pass.outside(i)| then i else i + 1, m, after[m])
    {
      if m == i {
        assert m < |before| + |pass.outside(i)| ==> Seen(pass, i) == after[i];
      } else if i < m < |pass.snap| {
        AppendedGrows(pass, i + 1, m);
        assert Seen(pass, m) == after[m];
      }
    }
  }

  /** One append from outside is enough: two packets wait, another is appended before the first
      read, and the pass reads the newcomer in place of the first packet. */
  lemma OneAppendTooMany(receiving: bool, world: nat -> World, a: Packet, b: Packet, x: Packet)
    requires x != a
    ensures Seen(Pass(receiving, world, i => if i == 0 then [x] else [], [a, b]), 0) == x
  {
  }
}
