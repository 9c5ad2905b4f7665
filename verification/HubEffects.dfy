/** What the operations of the registry change, what they leave alone and what undoes them
    (pkg/vxproto/proto.go), whatever the order in which a loop visits the agents. */
module HubEffects {
  import opened Basics
  import opened Hub
  import Deferred

  // ---- Agents ----

  /** The control messages a module has still to process, with what was added to them. */
  ghost predicate Told(before: map<string, Groups>, after: map<string, Groups>, agid: string, msgs: seq<Control>) {
    && after.Keys == before.Keys
    && forall n, g :: n in before && g in before[n] ==>
         g in after[n] && after[n][g] == before[n][g].(pending :=
           before[n][g].pending + if Matches(g, agid) then msgs else [])
  }

  /** An agent that comes and goes leaves the tables as they were, and every module whose group
      matches has been told of both, in that order. */
  lemma AgentComesAndGoes(md5: Digest, h: State, info: AgentInfo)
    requires Consistent(md5, h) && !h.closed && info.src !in h.agents && info.dst !in h.routes
    ensures var (up, ok) := AddAgent(h, info);
            var down := DelAgent(up, info.src);
            && ok && up.agents == h.agents[info.src := info] && up.routes == h.routes[info.dst := info.src]
            && down.agents == h.agents && down.routes == h.routes && down.topics == h.topics
            && Told(h.modules, down.modules, info.gid, [Connected(info), Disconnected(info)])
  {
    var up := AddAgent(h, info).0;
    assert up.agents - {info.src} == h.agents;
    assert forall d :: d in h.routes ==> h.routes[d] != info.src;
    assert (map d | d in up.routes && up.routes[d] != info.src :: up.routes[d]) == h.routes;
    ToldTwice(h.modules, info.gid, Connected(info), Disconnected(info));
  }

  lemma ToldTwice(before: map<string, Groups>, agid: string, first: Control, second: Control)
    ensures Told(before, Notify(Notify(before, first, agid), second, agid), agid, [first, second])
  {
    forall n, g | n in before && g in before[n]
      ensures before[n][g].(pending := before[n][g].pending + if Matches(g, agid) then [first, second] else [])
           == NotifyGroups(NotifyGroups(before[n], first, agid), second, agid)[g]
    {
      var p := before[n][g].pending;
      ConcatAssoc(p, [first], [second]);
      assert p + [] == p;
    }
  }

  /** Deleting agents one after the other, in any order: they and the routes to them are gone. */
  lemma {:induction false} DelAgentsIs(h: State, order: seq<string>)
    requires NoDuplicates(order) && forall s :: s in order ==> s in h.agents
    ensures var h' := DelAgents(h, order);
            && h'.agents == (map s | s in h.agents && s !in order :: h.agents[s])
            && h'.routes == (map d | d in h.routes && h.routes[d] !in order :: h.routes[d])
            && h'.topics == h.topics && h'.closed == h.closed
    decreases |order|
  {
    if order != [] {
      var src, rest := order[0], order[1..];
      assert forall s :: s in order <==> s == src || s in rest;
      assert src !in rest;
      DelAgentsIs(DelAgent(h, src), rest);
    }
  }

  /** All agents of that id go, and no others. */
  lemma DropAgentIs(md5: Digest, h: State, aid: string, order: seq<string>)
    requires Consistent(md5, h) && !h.closed && IsOrder(order, WithId(h.agents, aid))
    ensures var h' := Step(md5, h, DropAgent(aid, order));
            && h'.agents == (map s | s in h.agents && h.agents[s].id != aid :: h.agents[s])
            && h'.routes == (map d | d in h.routes && h.agents[h.routes[d]].id != aid :: h.routes[d])
  {
    DelAgentsIs(h, order);
  }

  /** A closed hub has no agents and no routes. */
  lemma HubCloseIs(md5: Digest, h: State, order: seq<string>)
    requires Consistent(md5, h) && IsOrder(order, h.agents.Keys)
    ensures var h' := Step(md5, h, HubClose(order));
            h'.closed && h'.agents == map[] && h'.routes == map[]
  {
    DelAgentsIs(h.(closed := true), order);
  }

  lemma {:induction false} MoveAgentsIs(h: State, order: seq<string>, gid: string)
    requires NoDuplicates(order) && forall s :: s in order ==> s in h.agents
    ensures var h' := MoveAgents(h, order, gid);
            && h'.agents == (map s | s in h.agents :: if s in order then h.agents[s].(gid := gid) else h.agents[s])
            && h'.routes == h.routes && h'.topics == h.topics && h'.closed == h.closed
    decreases |order|
  {
    if order != [] {
      var src, rest := order[0], order[1..];
      assert forall s :: s in order <==> s == src || s in rest;
      assert src !in rest;
      MoveAgentsIs(MoveOne(h, src, gid), rest, gid);
    }
  }

  /** All agents of that id end up in the group, no others move, and no route changes. */
  lemma MoveAgentIs(md5: Digest, h: State, aid: string, gid: string, order: seq<string>)
    requires !h.closed && IsOrder(order, ToMove(h.agents, aid, gid))
    ensures var h' := Step(md5, h, MoveAgent(aid, gid, order));
            && h'.agents == (map s | s in h.agents ::
                               if h.agents[s].id == aid then h.agents[s].(gid := gid) else h.agents[s])
            && h'.routes == h.routes && h'.topics == h.topics
  {
    MoveAgentsIs(h, order, gid);
  }

  // ---- Routes, modules, topics ----

  lemma RouteComesAndGoes(h: State, dst: string, src: string)
    requires AddRoute(h, dst, src).1
    ensures DelRoute(AddRoute(h, dst, src).0, dst) == (h, true)
  {
    assert h.routes[dst := src] - {dst} == h.routes;
  }

  /** A module that starts and stops leaves the registry as it was, unless its token was still
      subscribed to some topic: exactly those subscriptions are gone. */
  lemma ModuleComesAndGoes(md5: Digest, h: State, name: string, gid: string, roster: Roster)
    requires Consistent(md5, h) && !h.closed && gid !in GroupsOf(h, name)
    ensures var token := MakeToken(md5, name, gid);
            var (up, ok) := AddModule(md5, h, name, gid, roster);
            var (down, ok') := DelModule(md5, up, name, gid);
            && ok && ok' && gid in GroupsOf(up, name) && GroupsOf(up, name)[gid].agents == roster
            && (down == h <==> forall t :: !Subscribed(h.topics, t, token))
  {
    var token := MakeToken(md5, name, gid);
    var up := AddModule(md5, h, name, gid, roster).0;
    var down := DelModule(md5, up, name, gid).0;
    ModulesBack(md5, h, name, gid, roster);
    UnsubscribeAllConsistent(md5, h.topics, token);
    if forall t :: !Subscribed(h.topics, t, token) {
      NothingToUnsubscribe(md5, h.topics, token);
    }
  }

  lemma ModulesBack(md5: Digest, h: State, name: string, gid: string, roster: Roster)
    requires Consistent(md5, h) && !h.closed && gid !in GroupsOf(h, name)
    ensures var up := AddModule(md5, h, name, gid, roster).0;
            DelModule(md5, up, name, gid).0 == h.(topics := UnsubscribeAll(h.topics, MakeToken(md5, name, gid)))
  {
    var groups := GroupsOf(h, name);
    var module' := Module(MakeToken(md5, name, gid), [], roster);
    PutAndTake(groups, gid, module');
    PutBack(h.modules, name, groups[gid := module']);
  }

  lemma PutAndTake<V>(m: map<string, V>, k: string, v: V)
    requires k !in m
    ensures m[k := v] - {k} == m
  {
  }

  lemma PutBack(modules: map<string, Groups>, name: string, groups: Groups)
    ensures name in modules ==> modules[name := groups][name := modules[name]] == modules
    ensures name !in modules ==> modules[name := groups] - {name} == modules
  {
  }

  lemma NothingToUnsubscribe(md5: Digest, topics: map<string, Topic>, token: string)
    requires TopicsConsistent(md5, topics) && forall t :: !Subscribed(topics, t, token)
    ensures UnsubscribeAll(topics, token) == topics
  {
    forall t | t in topics ensures Without(topics[t].subscriptions, token) == topics[t].subscriptions {
      assert !Subscribed(topics, t, token);
      NothingToRemove(topics[t].subscriptions, token);
    }
  }

  lemma {:induction false} NothingToRemove(subs: seq<string>, token: string)
    requires token !in subs
    ensures Without(subs, token) == subs
  {
    if subs != [] {
      NothingToRemove(subs[1..], token);
    }
  }

  /** A second start under a name and group that are taken is refused and leaves the tables alone,
      but the module that is registered there loses its subscriptions: nothing changes if and only
      if it had none. */
  lemma RefusedStartIs(md5: Digest, h: State, name: string, gid: string, before: map<string, AgentInfo>)
    requires Consistent(md5, h) && gid in GroupsOf(h, name) && DistinctDestinations(before)
    ensures var token := GroupsOf(h, name)[gid].token;
            var h' := Registered(md5, h, name, gid, before);
            && h' == h.(topics := h'.topics)
            && (forall t, x :: Subscribed(h'.topics, t, x) <==> Subscribed(h.topics, t, x) && x != token)
            && (h' == h <==> forall t :: !Subscribed(h.topics, t, token))
  {
    var token := MakeToken(md5, name, gid);
    UnsubscribeAllConsistent(md5, h.topics, token);
    if forall t :: !Subscribed(h.topics, t, token) {
      NothingToUnsubscribe(md5, h.topics, token);
    }
  }

  // ---- Who gets a packet ----

  /** A packet from an agent is handed only to a module that was told of that agent: the rule that
      picks the receiver and the rule that picks whom to notify agree on the group. */
  lemma DeliveredOnlyToNotified(w: Deferred.World, p: Deferred.Packet, token: string)
    requires Deferred.ReceiveFate(w, p) == Deferred.ToModule(token)
    ensures p.dst in w.agents && p.modName in w.modules
    ensures exists g :: g in w.modules[p.modName] && w.modules[p.modName][g] == token && Matches(g, w.agents[p.dst])
  {
  }

  /** What the receive path looks up, in a hub. */
  ghost predicate Mirrors(w: Deferred.World, h: State) {
    && w.agents == (map s | s in h.agents :: h.agents[s].gid)
    && w.modules.Keys == h.modules.Keys
    && (forall n :: n in h.modules ==>
          w.modules[n] == map g | g in h.modules[n] :: h.modules[n][g].token)
  }

  /** After any run: a packet from a registered agent, handed to a module that has processed its
      control messages, reaches one that has this very agent on its list. */
  lemma DeliveredToOneWhoKnows(md5: Digest, run: seq<Action>, w: Deferred.World, p: Deferred.Packet, token: string)
    requires Run(md5, run).Some? && Mirrors(w, Run(md5, run).value.h)
    requires Deferred.ReceiveFate(w, p) == Deferred.ToModule(token)
    requires forall g :: g in GroupsOf(Run(md5, run).value.h, p.modName) ==>
               GroupsOf(Run(md5, run).value.h, p.modName)[g].pending == []
    ensures var h := Run(md5, run).value.h;
            && p.dst in h.agents
            && exists g :: g in GroupsOf(h, p.modName) && Knows(GroupsOf(h, p.modName)[g], token, h.agents[p.dst])
  {
    var h := Run(md5, run).value.h;
    DeliveredOnlyToNotified(w, p, token);
    var g :| g in w.modules[p.modName] && w.modules[p.modName][g] == token && Matches(g, w.agents[p.dst]);
    CaughtUpModuleKnowsItsAgents(md5, run, p.modName, g);
    ListedInRoster(h.agents, g, p.dst);
    assert Knows(GroupsOf(h, p.modName)[g], token, h.agents[p.dst]);
  }

  ghost predicate Knows(m: Module, token: string, info: AgentInfo) {
    m.token == token && info.dst in m.agents && m.agents[info.dst] == info
  }

  lemma ListedInRoster(agents: map<string, AgentInfo>, gid: string, src: string)
    requires DistinctDestinations(agents) && src in agents && Matches(gid, agents[src].gid)
    ensures agents[src].dst in RosterOf(agents, gid) && RosterOf(agents, gid)[agents[src].dst] == agents[src]
  {
  }
}
