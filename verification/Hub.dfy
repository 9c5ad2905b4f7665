/** The registry of the hub (pkg/vxproto/proto.go): agents, routes, modules and topics, and the
    control messages that keep every module's own list of agents up to date. */
module Hub {
  import opened Basics
  import Token

  datatype AgentInfo = AgentInfo(id: string, gid: string, src: string, dst: string)

  datatype Control = Connected(info: AgentInfo) | Disconnected(info: AgentInfo)

  /** A registered module: its token, the control messages it has still to process, and the
      agents it believes to be there, by destination. */
  datatype Module = Module(token: string, pending: seq<Control>, agents: Roster)

  type Roster = map<string, AgentInfo>
  type Groups = map<string, Module>

  datatype Topic = Topic(name: string, gid: string, subscriptions: seq<string>)

  datatype State = State(modules: map<string, Groups>, agents: map<string, AgentInfo>,
                         routes: map<string, string>, topics: map<string, Topic>, closed: bool)

  const EMPTY := State(map[], map[], map[], map[], false)

  // ---- Tokens. `md5` stands for the hex digest of (gid, name, key). ----

  type Digest = (string, string) -> string

  function MakeToken(md5: Digest, name: string, gid: string): string {
    "ffffffff" + md5(name, gid)
  }

  function MakeTopic(md5: Digest, name: string, gid: string): string {
    "ffff7777" + md5(name, gid)
  }

  // ---- Notifications ----

  predicate Matches(mgid: string, agid: string) {
    mgid == agid || mgid == "" || agid == ""
  }

  function NotifyGroups(groups: Groups, msg: Control, agid: string): Groups {
    map g | g in groups :: if Matches(g, agid) then groups[g].(pending := groups[g].pending + [msg]) else groups[g]
  }

  function Notify(modules: map<string, Groups>, msg: Control, agid: string): map<string, Groups> {
    map n | n in modules :: NotifyGroups(modules[n], msg, agid)
  }

  /** The groups when all but those left were told. */
  ghost function NotifyBut(groups: Groups, left: set<string>, msg: Control, agid: string): Groups {
    map g | g in groups :: if g in left then groups[g] else NotifyGroups(groups, msg, agid)[g]
  }

  lemma NotifyOne(groups: Groups, left: set<string>, msg: Control, agid: string, gid: string)
    requires gid in groups && gid in left
    ensures NotifyBut(groups, left, msg, agid)[gid] == groups[gid]
    ensures NotifyBut(groups, left - {gid}, msg, agid)
         == if Matches(gid, agid)
            then NotifyBut(groups, left, msg, agid)[gid := groups[gid].(pending := groups[gid].pending + [msg])]
            else NotifyBut(groups, left, msg, agid)
  {
  }

  lemma AllLeft(groups: Groups, msg: Control, agid: string)
    ensures NotifyBut(groups, groups.Keys, msg, agid) == groups
  {
  }

  lemma AllNotified(groups: Groups, msg: Control, agid: string)
    ensures NotifyBut(groups, {}, msg, agid) == NotifyGroups(groups, msg, agid)
  {
  }

  function ApplyOne(agents: Roster, msg: Control): Roster {
    match msg
    case Connected(info) => agents[info.dst := info]
    case Disconnected(info) => agents - {info.dst}
  }

  function Apply(agents: Roster, msgs: seq<Control>): Roster
    decreases |msgs|
  {
    if msgs == [] then agents else Apply(ApplyOne(agents, msgs[0]), msgs[1..])
  }

  // ---- Agents and routes ----

  function AddAgent(h: State, info: AgentInfo): (State, bool) {
    if h.closed || info.src in h.agents then (h, false)
    else (h.(agents := h.agents[info.src := info], routes := h.routes[info.dst := info.src],
             modules := Notify(h.modules, Connected(info), info.gid)), true)
  }

  function DelAgent(h: State, src: string): State {
    if src !in h.agents then h
    else h.(routes := map d | d in h.routes && h.routes[d] != src :: h.routes[d],
            modules := Notify(h.modules, Disconnected(h.agents[src]), h.agents[src].gid),
            agents := h.agents - {src})
  }

  function MoveOne(h: State, src: string, gid: string): State {
    if src !in h.agents then h
    else
      var info := h.agents[src];
      var moved := info.(gid := gid);
      h.(agents := h.agents[src := moved],
         modules := Notify(Notify(h.modules, Disconnected(info), info.gid), Connected(moved), gid))
  }

  function DelAgents(h: State, order: seq<string>): State
    decreases |order|
  {
    if order == [] then h else DelAgents(DelAgent(h, order[0]), order[1..])
  }

  function MoveAgents(h: State, order: seq<string>, gid: string): State
    decreases |order|
  {
    if order == [] then h else MoveAgents(MoveOne(h, order[0], gid), order[1..], gid)
  }

  function AddRoute(h: State, dst: string, src: string): (State, bool) {
    if dst in h.routes || src !in h.agents then (h, false)
    else (h.(routes := h.routes[dst := src]), true)
  }

  function DelRoute(h: State, dst: string): (State, bool) {
    if dst !in h.routes then (h, false) else (h.(routes := h.routes - {dst}), true)
  }

  // ---- Modules and topics ----

  /** Removes the first occurrence only. */
  function Without(subs: seq<string>, token: string): seq<string> {
    if subs == [] then []
    else if subs[0] == token then subs[1..]
    else [subs[0]] + Without(subs[1..], token)
  }

  function UnsubscribeAll(topics: map<string, Topic>, token: string): map<string, Topic> {
    map t | t in topics && Without(topics[t].subscriptions, token) != [] ::
      topics[t].(subscriptions := Without(topics[t].subscriptions, token))
  }

  function Subscribe(md5: Digest, h: State, name: string, gid: string, token: string): (State, bool) {
    if !Token.HasImcFormat(token) then (h, false)
    else
      var t := MakeTopic(md5, name, gid);
      if t !in h.topics then (h.(topics := h.topics[t := Topic(name, gid, [token])]), true)
      else if token in h.topics[t].subscriptions then (h, true)
      else (h.(topics := h.topics[t := h.topics[t].(subscriptions := h.topics[t].subscriptions + [token])]), true)
  }

  function Unsubscribe(md5: Digest, h: State, name: string, gid: string, token: string): (State, bool) {
    if !Token.HasImcFormat(token) then (h, false)
    else
      var t := MakeTopic(md5, name, gid);
      if t !in h.topics then (h, true)
      else
        var subs := Without(h.topics[t].subscriptions, token);
        (h.(topics := if subs == [] then h.topics - {t}
                      else h.topics[t := h.topics[t].(subscriptions := subs)]), true)
  }

  /** The agents a module of group `gid` is told about when it starts. */
  function RosterOf(agents: map<string, AgentInfo>, gid: string): Roster
    requires DistinctDestinations(agents)
  {
    map s | s in agents && Matches(gid, agents[s].gid) :: agents[s].dst := agents[s]
  }

  lemma RosterIs(agents: map<string, AgentInfo>, gid: string, roster: Roster)
    requires DistinctDestinations(agents)
    requires forall s :: s in agents && Matches(gid, agents[s].gid) ==>
      agents[s].dst in roster && roster[agents[s].dst] == agents[s]
    requires forall d :: d in roster ==> exists s :: s in agents && Matches(gid, agents[s].gid) && agents[s].dst == d
    ensures roster == RosterOf(agents, gid)
  {
  }

  function GroupsOf(h: State, name: string): Groups {
    if name in h.modules then h.modules[name] else map[]
  }

  function AddModule(md5: Digest, h: State, name: string, gid: string, agents: Roster): (State, bool) {
    var groups := GroupsOf(h, name);
    if h.closed || gid in groups then (h, false)
    else (h.(modules := h.modules[name := groups[gid := Module(MakeToken(md5, name, gid), [], agents)]]), true)
  }

  function DelModule(md5: Digest, h: State, name: string, gid: string): (State, bool) {
    var groups := GroupsOf(h, name);
    if h.closed || gid !in groups then (h, false)
    else
      var rest := groups - {gid};
      (h.(modules := if |rest| == 0 then h.modules - {name} else h.modules[name := rest],
          topics := UnsubscribeAll(h.topics, MakeToken(md5, name, gid))), true)
  }

  /** The module's loop takes its next control message. */
  function Process(h: State, name: string, gid: string): State {
    var groups := GroupsOf(h, name);
    if gid !in groups || groups[gid].pending == [] then h
    else
      var m := groups[gid];
      var m' := m.(agents := ApplyOne(m.agents, m.pending[0]), pending := m.pending[1..]);
      h.(modules := h.modules[name := groups[gid := m']])
  }

  // ---- Invariants ----

  ghost predicate DistinctDestinations(agents: map<string, AgentInfo>) {
    forall s, t :: s in agents && t in agents && s != t ==> agents[s].dst != agents[t].dst
  }

  /** `roster` lists exactly the registered agents whose group matches, as they are registered. */
  ghost predicate IsRoster(roster: Roster, agents: map<string, AgentInfo>, gid: string) {
    && (forall s :: s in agents && Matches(gid, agents[s].gid) ==>
          agents[s].dst in roster && roster[agents[s].dst] == agents[s])
    && (forall d :: d in roster ==>
          roster[d].dst == d && roster[d].src in agents && agents[roster[d].src] == roster[d]
          && Matches(gid, roster[d].gid))
  }

  ghost predicate ProperAgents(agents: map<string, AgentInfo>) {
    DistinctDestinations(agents) && forall s :: s in agents ==> agents[s].src == s
  }

  ghost predicate AgentsConsistent(h: State) {
    ProperAgents(h.agents) && forall d :: d in h.routes ==> h.routes[d] in h.agents
  }

  ghost predicate ModulesConsistent(md5: Digest, modules: map<string, Groups>) {
    forall n :: n in modules ==>
      |modules[n]| > 0 && forall g :: g in modules[n] ==> modules[n][g].token == MakeToken(md5, n, g)
  }

  ghost predicate TopicsConsistent(md5: Digest, topics: map<string, Topic>) {
    forall t :: t in topics ==>
      && t == MakeTopic(md5, topics[t].name, topics[t].gid)
      && topics[t].subscriptions != [] && NoDuplicates(topics[t].subscriptions)
      && forall x :: x in topics[t].subscriptions ==> Token.HasImcFormat(x)
  }

  /** Once its pending control messages are processed, each module knows exactly the agents
      of its group. */
  ghost predicate InSync(groups: Groups, agents: map<string, AgentInfo>) {
    forall g :: g in groups ==> IsRoster(Apply(groups[g].agents, groups[g].pending), agents, g)
  }

  ghost predicate AllInSync(h: State) {
    forall n :: n in h.modules ==> InSync(h.modules[n], h.agents)
  }

  ghost predicate Consistent(md5: Digest, h: State) {
    AgentsConsistent(h) && ModulesConsistent(md5, h.modules) && TopicsConsistent(md5, h.topics) && AllInSync(h)
  }

  // ---- One agent coming or going, seen by one module ----

  lemma {:induction false} ApplyNext(agents: Roster, msgs: seq<Control>, msg: Control)
    ensures Apply(agents, msgs + [msg]) == ApplyOne(Apply(agents, msgs), msg)
    decreases |msgs|
  {
    if msgs == [] {
      assert [] + [msg] == [msg];
      assert [msg][1..] == [];
    } else {
      assert (msgs + [msg])[1..] == msgs[1..] + [msg];
      ApplyNext(ApplyOne(agents, msgs[0]), msgs[1..], msg);
    }
  }

  lemma RosterConnect(roster: Roster, agents: map<string, AgentInfo>, gid: string, info: AgentInfo)
    requires IsRoster(roster, agents, gid) && info.src !in agents
    requires forall s :: s in agents ==> agents[s].dst != info.dst
    ensures IsRoster(if Matches(gid, info.gid) then ApplyOne(roster, Connected(info)) else roster,
                     agents[info.src := info], gid)
  {
  }

  lemma RosterDisconnect(roster: Roster, agents: map<string, AgentInfo>, gid: string, src: string)
    requires IsRoster(roster, agents, gid) && DistinctDestinations(agents)
    requires src in agents && agents[src].src == src
    ensures IsRoster(if Matches(gid, agents[src].gid) then ApplyOne(roster, Disconnected(agents[src])) else roster,
                     agents - {src}, gid)
  {
  }

  /** Notifying every module that an agent has come keeps every list in step with the registry. */
  lemma NotifyConnect(h: State, info: AgentInfo)
    requires AllInSync(h) && info.src !in h.agents
    requires forall s :: s in h.agents ==> h.agents[s].dst != info.dst
    ensures AllInSync(h.(agents := h.agents[info.src := info], modules := Notify(h.modules, Connected(info), info.gid)))
  {
    forall n, g | n in h.modules && g in h.modules[n]
      ensures var m := Notify(h.modules, Connected(info), info.gid)[n][g];
              IsRoster(Apply(m.agents, m.pending), h.agents[info.src := info], g)
    {
      var m := h.modules[n][g];
      RosterConnect(Apply(m.agents, m.pending), h.agents, g, info);
      ApplyNext(m.agents, m.pending, Connected(info));
    }
  }

  lemma NotifyDisconnect(h: State, src: string)
    requires AllInSync(h) && DistinctDestinations(h.agents) && src in h.agents && h.agents[src].src == src
    ensures AllInSync(h.(agents := h.agents - {src},
                         modules := Notify(h.modules, Disconnected(h.agents[src]), h.agents[src].gid)))
  {
    var info := h.agents[src];
    forall n, g | n in h.modules && g in h.modules[n]
      ensures var m := Notify(h.modules, Disconnected(info), info.gid)[n][g];
              IsRoster(Apply(m.agents, m.pending), h.agents - {src}, g)
    {
      var m := h.modules[n][g];
      RosterDisconnect(Apply(m.agents, m.pending), h.agents, g, src);
      ApplyNext(m.agents, m.pending, Disconnected(info));
    }
  }

  lemma NotifyKeepsModules(md5: Digest, h: State, h': State, msg: Control, agid: string)
    requires ModulesConsistent(md5, h.modules) && h'.modules == Notify(h.modules, msg, agid)
    ensures ModulesConsistent(md5, h'.modules)
  {
    forall n | n in h'.modules ensures |h'.modules[n]| == |h.modules[n]| {
      NotifySameGroups(h.modules[n], msg, agid);
    }
  }

  lemma NotifySameGroups(groups: Groups, msg: Control, agid: string)
    ensures |NotifyGroups(groups, msg, agid)| == |groups|
  {
    assert NotifyGroups(groups, msg, agid).Keys == groups.Keys;
    assert |NotifyGroups(groups, msg, agid)| == |groups.Keys|;
  }

  lemma AddAgentConsistent(md5: Digest, h: State, info: AgentInfo)
    requires Consistent(md5, h)
    requires forall s :: s in h.agents ==> h.agents[s].dst != info.dst
    ensures Consistent(md5, AddAgent(h, info).0)
  {
    if !h.closed && info.src !in h.agents {
      var h' := AddAgent(h, info).0;
      NotifyConnect(h, info);
      NotifyKeepsModules(md5, h, h', Connected(info), info.gid);
      assert AllInSync(h');
    }
  }

  lemma DelAgentConsistent(md5: Digest, h: State, src: string)
    requires Consistent(md5, h)
    ensures Consistent(md5, DelAgent(h, src))
  {
    if src in h.agents {
      var info := h.agents[src];
      NotifyDisconnect(h, src);
      NotifyKeepsModules(md5, h, DelAgent(h, src), Disconnected(info), info.gid);
      assert AllInSync(DelAgent(h, src));
    }
  }

  /** A move is the agent leaving with its old group and coming back with its new one. */
  lemma MoveOneConsistent(md5: Digest, h: State, src: string, gid: string)
    requires Consistent(md5, h)
    ensures Consistent(md5, MoveOne(h, src, gid))
  {
    if src in h.agents {
      var info := h.agents[src];
      var moved := info.(gid := gid);
      var gone := h.(agents := h.agents - {src}, modules := Notify(h.modules, Disconnected(info), info.gid));
      NotifyDisconnect(h, src);
      NotifyKeepsModules(md5, h, gone, Disconnected(info), info.gid);
      NotifyConnect(gone, moved);
      NotifyKeepsModules(md5, gone, MoveOne(h, src, gid), Connected(moved), gid);
      assert gone.agents[src := moved] == MoveOne(h, src, gid).agents;
      assert AllInSync(MoveOne(h, src, gid));
    }
  }

  lemma {:induction false} DelAgentsConsistent(md5: Digest, h: State, order: seq<string>)
    requires Consistent(md5, h)
    ensures Consistent(md5, DelAgents(h, order))
    decreases |order|
  {
    if order != [] {
      DelAgentConsistent(md5, h, order[0]);
      DelAgentsConsistent(md5, DelAgent(h, order[0]), order[1..]);
    }
  }

  lemma {:induction false} MoveAgentsConsistent(md5: Digest, h: State, order: seq<string>, gid: string)
    requires Consistent(md5, h)
    ensures Consistent(md5, MoveAgents(h, order, gid))
    decreases |order|
  {
    if order != [] {
      MoveOneConsistent(md5, h, order[0], gid);
      MoveAgentsConsistent(md5, MoveOne(h, order[0], gid), order[1..], gid);
    }
  }

  // ---- Modules starting, stopping and catching up ----

  lemma RosterOfIsRoster(agents: map<string, AgentInfo>, gid: string)
    requires ProperAgents(agents)
    ensures IsRoster(RosterOf(agents, gid), agents, gid)
  {
  }

  function MatchingAgents(agents: map<string, AgentInfo>, gid: string): map<string, AgentInfo> {
    map s | s in agents && Matches(gid, agents[s].gid) :: agents[s]
  }

  lemma SameMatchingInStep(before: map<string, AgentInfo>, now: map<string, AgentInfo>, gid: string)
    requires ProperAgents(before) && ProperAgents(now)
    requires MatchingAgents(before, gid) == MatchingAgents(now, gid)
    ensures IsRoster(RosterOf(before, gid), now, gid)
  {
    var roster, same := RosterOf(before, gid), MatchingAgents(now, gid);
    RosterOfIsRoster(before, gid);
    forall s | s in now && Matches(gid, now[s].gid)
      ensures now[s].dst in roster && roster[now[s].dst] == now[s]
    {
      assert s in same && s in before && before[s] == now[s];
    }
    forall d | d in roster
      ensures roster[d].src in now && now[roster[d].src] == roster[d]
    {
      assert roster[d].src in same;
    }
  }

  lemma InStepSameMatching(before: map<string, AgentInfo>, now: map<string, AgentInfo>, gid: string)
    requires ProperAgents(before) && ProperAgents(now)
    requires IsRoster(RosterOf(before, gid), now, gid)
    ensures MatchingAgents(before, gid) == MatchingAgents(now, gid)
  {
    RosterOfIsRoster(before, gid);
    ListedMatch(RosterOf(before, gid), before, now, gid);
    ListedMatch(RosterOf(before, gid), now, before, gid);
  }

  lemma ListedMatch(roster: Roster, before: map<string, AgentInfo>, now: map<string, AgentInfo>, gid: string)
    requires ProperAgents(before) && ProperAgents(now)
    requires IsRoster(roster, before, gid) && IsRoster(roster, now, gid)
    ensures forall s :: s in MatchingAgents(before, gid) ==>
              s in MatchingAgents(now, gid) && MatchingAgents(now, gid)[s] == before[s]
  {
    forall s | s in before && Matches(gid, before[s].gid)
      ensures s in now && now[s] == before[s]
    {
      assert roster[before[s].dst] == before[s];
    }
  }

  /** A list read earlier is right if and only if the agents of the group are still the same. */
  lemma ListInStepIff(before: map<string, AgentInfo>, now: map<string, AgentInfo>, gid: string)
    requires ProperAgents(before) && ProperAgents(now)
    ensures IsRoster(RosterOf(before, gid), now, gid) <==> MatchingAgents(before, gid) == MatchingAgents(now, gid)
  {
    if MatchingAgents(before, gid) == MatchingAgents(now, gid) {
      SameMatchingInStep(before, now, gid);
    } else if IsRoster(RosterOf(before, gid), now, gid) {
      InStepSameMatching(before, now, gid);
    }
  }

  /** Changing the modules of one name: the others stay as they are. */
  lemma NameReplaced(md5: Digest, h: State, name: string, groups: Groups)
    requires Consistent(md5, h)
    requires |groups| > 0 && forall g :: g in groups ==> groups[g].token == MakeToken(md5, name, g)
    requires InSync(groups, h.agents)
    ensures Consistent(md5, h.(modules := h.modules[name := groups]))
  {
    NameConsistent(md5, h.modules, name, groups);
    NameInSync(h, name, groups);
  }

  lemma NameConsistent(md5: Digest, modules: map<string, Groups>, name: string, groups: Groups)
    requires ModulesConsistent(md5, modules)
    requires |groups| > 0 && forall g :: g in groups ==> groups[g].token == MakeToken(md5, name, g)
    ensures ModulesConsistent(md5, modules[name := groups])
  {
  }

  lemma NameInSync(h: State, name: string, groups: Groups)
    requires AllInSync(h) && InSync(groups, h.agents)
    ensures AllInSync(h.(modules := h.modules[name := groups]))
  {
    var modules := h.modules[name := groups];
    forall n | n in modules ensures InSync(modules[n], h.agents) {
      if n != name {
        assert modules[n] == h.modules[n];
      }
    }
  }

  lemma InSyncWith(groups: Groups, agents: map<string, AgentInfo>, gid: string, m: Module)
    requires InSync(groups, agents) && IsRoster(Apply(m.agents, m.pending), agents, gid)
    ensures InSync(groups[gid := m], agents) && |groups[gid := m]| > 0
  {
    assert gid in groups[gid := m];
  }

  lemma GroupAdded(md5: Digest, h: State, name: string, gid: string, m: Module)
    requires Consistent(md5, h) && m.token == MakeToken(md5, name, gid)
    requires IsRoster(Apply(m.agents, m.pending), h.agents, gid)
    ensures Consistent(md5, h.(modules := h.modules[name := GroupsOf(h, name)[gid := m]]))
  {
    InSyncWith(GroupsOf(h, name), h.agents, gid, m);
    NameReplaced(md5, h, name, GroupsOf(h, name)[gid := m]);
  }

  lemma AddModuleConsistent(md5: Digest, h: State, name: string, gid: string, roster: Roster)
    requires Consistent(md5, h) && IsRoster(roster, h.agents, gid)
    ensures Consistent(md5, AddModule(md5, h, name, gid, roster).0)
  {
    var groups := GroupsOf(h, name);
    if !h.closed && gid !in groups {
      var m := Module(MakeToken(md5, name, gid), [], roster);
      assert Apply(m.agents, m.pending) == roster;
      GroupAdded(md5, h, name, gid, m);
    }
  }

  lemma ProcessConsistent(md5: Digest, h: State, name: string, gid: string)
    requires Consistent(md5, h)
    ensures Consistent(md5, Process(h, name, gid))
  {
    var groups := GroupsOf(h, name);
    if gid in groups && groups[gid].pending != [] {
      var m := groups[gid];
      var m' := m.(agents := ApplyOne(m.agents, m.pending[0]), pending := m.pending[1..]);
      assert Apply(m'.agents, m'.pending) == Apply(m.agents, m.pending);
      GroupAdded(md5, h, name, gid, m');
    }
  }

  // ---- Topics ----

  lemma {:induction false} WithoutRemoves(subs: seq<string>, token: string)
    requires NoDuplicates(subs)
    ensures NoDuplicates(Without(subs, token))
    ensures forall x :: x in Without(subs, token) <==> x in subs && x != token
  {
    if subs != [] {
      var rest := subs[1..];
      assert subs == [subs[0]] + rest && subs[0] !in rest;
      WithoutRemoves(rest, token);
      if subs[0] != token {
        assert subs[0] !in Without(rest, token);
      }
    }
  }

  ghost predicate Subscribed(topics: map<string, Topic>, t: string, token: string) {
    t in topics && token in topics[t].subscriptions
  }

  lemma UnsubscribeAllConsistent(md5: Digest, topics: map<string, Topic>, token: string)
    requires TopicsConsistent(md5, topics)
    ensures TopicsConsistent(md5, UnsubscribeAll(topics, token))
    ensures forall t, x :: Subscribed(UnsubscribeAll(topics, token), t, x) <==> Subscribed(topics, t, x) && x != token
  {
    var topics' := UnsubscribeAll(topics, token);
    forall t | t in topics
      ensures NoDuplicates(Without(topics[t].subscriptions, token))
      ensures forall x :: x in Without(topics[t].subscriptions, token) <==> x in topics[t].subscriptions && x != token
    {
      WithoutRemoves(topics[t].subscriptions, token);
    }
    forall t, x | Subscribed(topics, t, x) && x != token ensures Subscribed(topics', t, x) {
      assert x in Without(topics[t].subscriptions, token);
    }
  }

  /** Subscribing adds one pair to the relation between topics and tokens. */
  lemma SubscribeRefines(md5: Digest, h: State, name: string, gid: string, token: string)
    requires TopicsConsistent(md5, h.topics)
    ensures var (h', ok) := Subscribe(md5, h, name, gid, token);
            && TopicsConsistent(md5, h'.topics) && ok == Token.HasImcFormat(token)
            && (forall t, x :: Subscribed(h'.topics, t, x) <==>
                  Subscribed(h.topics, t, x) || (ok && t == MakeTopic(md5, name, gid) && x == token))
  {
    var t := MakeTopic(md5, name, gid);
    if Token.HasImcFormat(token) {
      if t !in h.topics {
        SubscriberAdded(md5, h.topics, Topic(name, gid, [token]), [], token);
      } else if token !in h.topics[t].subscriptions {
        var subs := h.topics[t].subscriptions;
        SubscriberAdded(md5, h.topics, h.topics[t].(subscriptions := subs + [token]), subs, token);
      }
    }
  }

  lemma SubscriberAdded(md5: Digest, topics: map<string, Topic>, topic: Topic, subs: seq<string>, token: string)
    requires TopicsConsistent(md5, topics) && Token.HasImcFormat(token) && token !in subs
    requires var t := MakeTopic(md5, topic.name, topic.gid);
             subs == if t in topics then topics[t].subscriptions else []
    requires topic.subscriptions == subs + [token]
    ensures var t := MakeTopic(md5, topic.name, topic.gid);
            && TopicsConsistent(md5, topics[t := topic])
            && (forall u, x :: Subscribed(topics[t := topic], u, x) <==>
                  Subscribed(topics, u, x) || (u == t && x == token))
  {
    var t := MakeTopic(md5, topic.name, topic.gid);
    var topics' := topics[t := topic];
    assert forall x :: x in topic.subscriptions <==> x in subs || x == token;
    assert NoDuplicates(subs);
    assert NoDuplicates(topic.subscriptions);
    forall u, x
      ensures Subscribed(topics', u, x) <==> Subscribed(topics, u, x) || (u == t && x == token)
    {
      if u != t {
        assert u in topics' <==> u in topics;
      }
    }
  }

  /** Unsubscribing removes one pair. */
  lemma UnsubscribeRefines(md5: Digest, h: State, name: string, gid: string, token: string)
    requires TopicsConsistent(md5, h.topics)
    ensures var (h', ok) := Unsubscribe(md5, h, name, gid, token);
            && TopicsConsistent(md5, h'.topics) && ok == Token.HasImcFormat(token)
            && (forall t, x :: Subscribed(h'.topics, t, x) <==>
                  Subscribed(h.topics, t, x) && !(ok && t == MakeTopic(md5, name, gid) && x == token))
  {
    var t := MakeTopic(md5, name, gid);
    if t in h.topics {
      WithoutRemoves(h.topics[t].subscriptions, token);
      var subs := Without(h.topics[t].subscriptions, token);
      assert subs == [] ==> forall x :: x in h.topics[t].subscriptions ==> x == token;
    }
  }

  /** A stopped module is gone from the registry and from every topic. */
  lemma DelModuleConsistent(md5: Digest, h: State, name: string, gid: string)
    requires Consistent(md5, h)
    ensures var (h', ok) := DelModule(md5, h, name, gid);
            && Consistent(md5, h')
            && (ok ==> gid !in GroupsOf(h', name)
                       && forall t :: !Subscribed(h'.topics, t, MakeToken(md5, name, gid)))
  {
    var groups := GroupsOf(h, name);
    if !h.closed && gid in groups {
      UnsubscribeAllConsistent(md5, h.topics, MakeToken(md5, name, gid));
      if |groups - {gid}| > 0 {
        NameReplaced(md5, h, name, groups - {gid});
      }
    }
  }

  // ---- Runs ----

  const ROOM := 100 // capacity of a module's receive queue

  datatype Event =
    | AgentUp(info: AgentInfo)
    | AgentDown(src: string)
    | DropAgent(aid: string, order: seq<string>)
    | MoveAgent(aid: string, gid: string, order: seq<string>)
    | RouteUp(dst: string, src: string)
    | RouteDown(dst: string)
    | ModuleStart(name: string, mgid: string, before: map<string, AgentInfo>)
    | ModuleStop(name: string, mgid: string)
    | ModuleProcess(name: string, mgid: string)
    | TopicSubscribe(name: string, mgid: string, token: string)
    | TopicUnsubscribe(name: string, mgid: string, token: string)
    | TopicUnsubscribeAll(token: string)
    | HubClose(order: seq<string>)

  /** An order in which a loop over a Go map may visit the chosen agents. */
  ghost predicate IsOrder(order: seq<string>, chosen: set<string>) {
    NoDuplicates(order) && forall s :: s in order <==> s in chosen
  }

  function WithId(agents: map<string, AgentInfo>, aid: string): set<string> {
    set s | s in agents && agents[s].id == aid
  }

  function ToMove(agents: map<string, AgentInfo>, aid: string, gid: string): set<string> {
    set s | s in agents && agents[s].id == aid && agents[s].gid != gid
  }

  ghost predicate HasRoom(h: State, n: nat) {
    forall m, g :: m in h.modules && g in h.modules[m] ==> |h.modules[m][g].pending| + n <= ROOM
  }

  /** Destinations of agents are distinct, control messages find room in the receive queues, and
      a starting module is registered while the agents of its group are as it was told. */
  ghost predicate Enabled(h: State, e: Event) {
    match e
    case AgentUp(info) => HasRoom(h, 1) && forall s :: s in h.agents ==> h.agents[s].dst != info.dst
    case AgentDown(_) => HasRoom(h, 1)
    case DropAgent(aid, order) => IsOrder(order, WithId(h.agents, aid)) && HasRoom(h, |order|)
    case MoveAgent(aid, gid, order) => IsOrder(order, ToMove(h.agents, aid, gid)) && HasRoom(h, 2 * |order|)
    case ModuleStart(_, mgid, before) =>
      ProperAgents(before)
      && MatchingAgents(before, mgid) == MatchingAgents(h.agents, mgid)
    case HubClose(order) => IsOrder(order, h.agents.Keys) && HasRoom(h, |order|)
    case _ => true
  }

  /** The hub after a module has registered with the agents it had read. A socket that is refused
      is closed, which takes the token of that name and group out of every topic. */
  function Registered(md5: Digest, h: State, name: string, gid: string, before: map<string, AgentInfo>): State
    requires DistinctDestinations(before)
  {
    var (h', ok) := AddModule(md5, h, name, gid, RosterOf(before, gid));
    if ok then h' else h.(topics := UnsubscribeAll(h.topics, MakeToken(md5, name, gid)))
  }

  function Step(md5: Digest, h: State, e: Event): State
    requires e.ModuleStart? ==> DistinctDestinations(e.before)
  {
    match e
    case AgentUp(info) => AddAgent(h, info).0
    case AgentDown(src) => DelAgent(h, src)
    case DropAgent(_, order) => if h.closed then h else DelAgents(h, order)
    case MoveAgent(_, gid, order) => if h.closed then h else MoveAgents(h, order, gid)
    case RouteUp(dst, src) => AddRoute(h, dst, src).0
    case RouteDown(dst) => DelRoute(h, dst).0
    case ModuleStart(name, mgid, before) => Registered(md5, h, name, mgid, before)
    case ModuleStop(name, mgid) => DelModule(md5, h, name, mgid).0
    case ModuleProcess(name, mgid) => Process(h, name, mgid)
    case TopicSubscribe(name, mgid, token) => Subscribe(md5, h, name, mgid, token).0
    case TopicUnsubscribe(name, mgid, token) => Unsubscribe(md5, h, name, mgid, token).0
    case TopicUnsubscribeAll(token) =>
      if Token.HasImcFormat(token) then h.(topics := UnsubscribeAll(h.topics, token)) else h
    case HubClose(order) => DelAgents(h.(closed := true), order)
  }

  lemma RouteConsistent(md5: Digest, h: State, dst: string, src: string)
    requires Consistent(md5, h)
    ensures Consistent(md5, AddRoute(h, dst, src).0) && Consistent(md5, DelRoute(h, dst).0)
  {
    if dst !in h.routes && src in h.agents {
      RoutesReplaced(md5, h, h.routes[dst := src]);
    }
    if dst in h.routes {
      RoutesReplaced(md5, h, h.routes - {dst});
    }
  }

  lemma RoutesReplaced(md5: Digest, h: State, routes: map<string, string>)
    requires Consistent(md5, h) && forall d :: d in routes ==> routes[d] in h.agents
    ensures Consistent(md5, h.(routes := routes))
  {
  }

  lemma StartConsistent(md5: Digest, h: State, name: string, gid: string, before: map<string, AgentInfo>)
    requires Consistent(md5, h) && Enabled(h, ModuleStart(name, gid, before))
    ensures Consistent(md5, Step(md5, h, ModuleStart(name, gid, before)))
  {
    ListInStepIff(before, h.agents, gid);
    AddModuleConsistent(md5, h, name, gid, RosterOf(before, gid));
    if h.closed || gid in GroupsOf(h, name) {
      UnsubscribeAllConsistent(md5, h.topics, MakeToken(md5, name, gid));
      TopicsReplaced(md5, h, UnsubscribeAll(h.topics, MakeToken(md5, name, gid)));
    }
  }

  lemma TopicsReplaced(md5: Digest, h: State, topics: map<string, Topic>)
    requires Consistent(md5, h) && TopicsConsistent(md5, topics)
    ensures Consistent(md5, h.(topics := topics))
  {
  }

  lemma StepConsistent(md5: Digest, h: State, e: Event)
    requires Consistent(md5, h) && Enabled(h, e)
    ensures Consistent(md5, Step(md5, h, e))
  {
    match e
    case AgentUp(info) => AddAgentConsistent(md5, h, info);
    case AgentDown(src) => DelAgentConsistent(md5, h, src);
    case DropAgent(_, order) => DelAgentsConsistent(md5, h, order);
    case MoveAgent(_, gid, order) => MoveAgentsConsistent(md5, h, order, gid);
    case RouteUp(dst, src) => RouteConsistent(md5, h, dst, src);
    case RouteDown(dst) => RouteConsistent(md5, h, dst, "");
    case ModuleStart(name, mgid, before) => StartConsistent(md5, h, name, mgid, before);
    case ModuleStop(name, mgid) => DelModuleConsistent(md5, h, name, mgid);
    case ModuleProcess(name, mgid) => ProcessConsistent(md5, h, name, mgid);
    case HubClose(order) =>
      DelAgentsConsistent(md5, h.(closed := true), order);
    case TopicSubscribe(name, mgid, token) => SubscribeConsistent(md5, h, name, mgid, token);
    case TopicUnsubscribe(name, mgid, token) => UnsubscribeConsistent(md5, h, name, mgid, token);
    case TopicUnsubscribeAll(token) =>
      UnsubscribeAllConsistent(md5, h.topics, token);
      TopicsReplaced(md5, h, UnsubscribeAll(h.topics, token));
  }

  lemma SubscribeConsistent(md5: Digest, h: State, name: string, gid: string, token: string)
    requires Consistent(md5, h)
    ensures Consistent(md5, Subscribe(md5, h, name, gid, token).0)
  {
    SubscribeRefines(md5, h, name, gid, token);
    TopicsReplaced(md5, h, Subscribe(md5, h, name, gid, token).0.topics);
  }

  lemma UnsubscribeConsistent(md5: Digest, h: State, name: string, gid: string, token: string)
    requires Consistent(md5, h)
    ensures Consistent(md5, Unsubscribe(md5, h, name, gid, token).0)
  {
    UnsubscribeRefines(md5, h, name, gid, token);
    TopicsReplaced(md5, h, Unsubscribe(md5, h, name, gid, token).0.topics);
  }

  /** The hub and the agents that starting modules have read: a start is two steps, and in between
      other events may come. */
  datatype World = World(h: State, lists: map<(string, string), map<string, AgentInfo>>)

  datatype Action = Do(e: Event) | ReadAgents(name: string, mgid: string) | Register(name: string, mgid: string)

  function ActOn(md5: Digest, w: World, a: Action): World
    requires a.Do? && a.e.ModuleStart? ==> DistinctDestinations(a.e.before)
    requires a.Register? ==> (a.name, a.mgid) in w.lists && DistinctDestinations(w.lists[(a.name, a.mgid)])
  {
    match a
    case Do(e) => w.(h := Step(md5, w.h, e))
    case ReadAgents(name, mgid) => w.(lists := w.lists[(name, mgid) := w.h.agents])
    case Register(name, mgid) => w.(h := Registered(md5, w.h, name, mgid, w.lists[(name, mgid)]))
  }

  /** A registration is left alone by the agents if those of its group are what they were when the
      list was read. */
  ghost predicate Possible(w: World, a: Action) {
    match a
    case Do(e) => !e.ModuleStart? && Enabled(w.h, e)
    case ReadAgents(_, _) => true
    case Register(name, mgid) =>
      (name, mgid) in w.lists && Enabled(w.h, ModuleStart(name, mgid, w.lists[(name, mgid)]))
  }

  ghost function Run(md5: Digest, run: seq<Action>): Option<World>
    decreases |run|
  {
    if run == [] then Some(World(EMPTY, map[]))
    else
      var n := |run| - 1;
      match Run(md5, run[..n])
      case None => None
      case Some(w) => if Possible(w, run[n]) then Some(ActOn(md5, w, run[n])) else None
  }

  ghost predicate ProperLists(w: World) {
    forall k :: k in w.lists ==> ProperAgents(w.lists[k])
  }

  lemma {:induction false} EveryRunConsistent(md5: Digest, run: seq<Action>)
    requires Run(md5, run).Some?
    ensures Consistent(md5, Run(md5, run).value.h) && ProperLists(Run(md5, run).value)
    decreases |run|
  {
    if run != [] {
      var n := |run| - 1;
      EveryRunConsistent(md5, run[..n]);
      var w := Run(md5, run[..n]).value;
      match run[n]
      case Do(e) => StepConsistent(md5, w.h, e);
      case ReadAgents(_, _) =>
      case Register(name, mgid) => StepConsistent(md5, w.h, ModuleStart(name, mgid, w.lists[(name, mgid)]));
    }
  }

  /** After any run in which a module has read its list of agents, registering it leaves every
      module's list in step with the registry if and only if the agents of its group are then
      what they were when it read them. */
  lemma StartInStepIff(md5: Digest, run: seq<Action>, name: string, mgid: string)
    requires Run(md5, run).Some? && (name, mgid) in Run(md5, run).value.lists
    requires var h := Run(md5, run).value.h; !h.closed && mgid !in GroupsOf(h, name)
    ensures var w := Run(md5, run).value;
            && DistinctDestinations(w.lists[(name, mgid)])
            && (AllInSync(ActOn(md5, w, Register(name, mgid)).h)
                <==> MatchingAgents(w.lists[(name, mgid)], mgid) == MatchingAgents(w.h.agents, mgid))
  {
    EveryRunConsistent(md5, run);
    RegisteredInStepIff(md5, Run(md5, run).value, name, mgid);
  }

  lemma RegisteredInStepIff(md5: Digest, w: World, name: string, mgid: string)
    requires Consistent(md5, w.h) && ProperLists(w) && (name, mgid) in w.lists
    requires !w.h.closed && mgid !in GroupsOf(w.h, name)
    ensures DistinctDestinations(w.lists[(name, mgid)])
    ensures AllInSync(ActOn(md5, w, Register(name, mgid)).h)
            <==> MatchingAgents(w.lists[(name, mgid)], mgid) == MatchingAgents(w.h.agents, mgid)
  {
    AddedInStepIff(md5, w.h, name, mgid, w.lists[(name, mgid)]);
  }

  lemma AddedInStepIff(md5: Digest, h: State, name: string, gid: string, before: map<string, AgentInfo>)
    requires Consistent(md5, h) && ProperAgents(before) && !h.closed && gid !in GroupsOf(h, name)
    ensures AllInSync(Registered(md5, h, name, gid, before))
            <==> MatchingAgents(before, gid) == MatchingAgents(h.agents, gid)
  {
    ListInStepIff(before, h.agents, gid);
    if MatchingAgents(before, gid) == MatchingAgents(h.agents, gid) {
      AddModuleConsistent(md5, h, name, gid, RosterOf(before, gid));
    } else {
      NewModuleOutOfStep(md5, h, name, gid, RosterOf(before, gid));
    }
  }

  lemma NewModuleOutOfStep(md5: Digest, h: State, name: string, gid: string, roster: Roster)
    requires !h.closed && gid !in GroupsOf(h, name) && !IsRoster(roster, h.agents, gid)
    ensures !AllInSync(AddModule(md5, h, name, gid, roster).0)
  {
    var h' := AddModule(md5, h, name, gid, roster).0;
    assert name in h'.modules && gid in h'.modules[name];
    assert h'.modules[name][gid].agents == roster && h'.modules[name][gid].pending == [];
    assert !InSync(h'.modules[name], h'.agents);
  }

  /** It happens: an agent that connects after the list was read is missed. */
  lemma AgentMissed(md5: Digest, info: AgentInfo, name: string)
    ensures var run := [ReadAgents(name, ""), Do(AgentUp(info))];
            && Run(md5, run).Some? && (name, "") in Run(md5, run).value.lists
            && DistinctDestinations(Run(md5, run).value.lists[(name, "")])
            && !AllInSync(ActOn(md5, Run(md5, run).value, Register(name, "")).h)
  {
    var first := [ReadAgents(name, "")];
    var run := first + [Do(AgentUp(info))];
    assert run == [ReadAgents(name, ""), Do(AgentUp(info))];
    assert run[..1] == first && first[..0] == [];
    var w0 := World(EMPTY, map[(name, "") := map[]]);
    assert Run(md5, first) == Some(w0);
    assert Possible(w0, Do(AgentUp(info)));
    var w := ActOn(md5, w0, Do(AgentUp(info)));
    assert Run(md5, run) == Some(w);
    assert info.src in MatchingAgents(w.h.agents, "");
    StartInStepIff(md5, run, name, "");
  }

  /** A module that has processed its control messages knows exactly the agents of its group. */
  lemma CaughtUpModuleKnowsItsAgents(md5: Digest, run: seq<Action>, name: string, gid: string)
    requires Run(md5, run).Some? && gid in GroupsOf(Run(md5, run).value.h, name)
    requires GroupsOf(Run(md5, run).value.h, name)[gid].pending == []
    ensures var h := Run(md5, run).value.h;
            DistinctDestinations(h.agents) && GroupsOf(h, name)[gid].agents == RosterOf(h.agents, gid)
  {
    EveryRunConsistent(md5, run);
    var h := Run(md5, run).value.h;
    var m := h.modules[name][gid];
    assert Apply(m.agents, m.pending) == m.agents;
    RosterOfIsRoster(h.agents, gid);
    RosterUnique(m.agents, RosterOf(h.agents, gid), h.agents, gid);
  }

  lemma RosterUnique(r: Roster, q: Roster, agents: map<string, AgentInfo>, gid: string)
    requires IsRoster(r, agents, gid) && IsRoster(q, agents, gid)
    ensures r == q
  {
    forall d | d in r ensures d in q && q[d] == r[d] {
      assert q[agents[r[d].src].dst] == r[d];
    }
    forall d | d in q ensures d in r {
      assert r[agents[q[d].src].dst] == q[d];
    }
  }

  // ---- The hub as the program keeps it ----

  class VxProto {
    const md5: Digest
    var modules: map<string, Groups>
    var agents: map<string, AgentInfo>
    var routes: map<string, string>
    var topics: map<string, Topic>
    var isClosed: bool

    constructor (md5: Digest)
      ensures View() == EMPTY && this.md5 == md5
    {
      this.md5 := md5;
      modules, agents, routes, topics, isClosed := map[], map[], map[], map[], false;
    }

    ghost function View(): State
      reads this
    {
      State(modules, agents, routes, topics, isClosed)
    }

    /** Loops over the modules of all names and groups, in any order. */
    method NotifyModules(msg: Control, agid: string)
      modifies this`modules
      ensures modules == Notify(old(modules), msg, agid)
    {
      var names := modules.Keys;
      while names != {}
        invariant names <= old(modules).Keys == modules.Keys
        invariant forall n :: n in modules ==>
                    modules[n] == if n in names then old(modules)[n] else NotifyGroups(old(modules)[n], msg, agid)
        decreases |names|
      {
        var name :| name in names;
        NotifyName(name, msg, agid);
        names := names - {name};
      }
    }

    method NotifyName(name: string, msg: Control, agid: string)
      requires name in modules
      modifies this`modules
      ensures modules == old(modules)[name := NotifyGroups(old(modules)[name], msg, agid)]
    {
      ghost var groups := modules[name];
      var gids := modules[name].Keys;
      AllLeft(groups, msg, agid);
      while gids != {}
        invariant gids <= groups.Keys
        invariant modules == old(modules)[name := NotifyBut(groups, gids, msg, agid)]
        decreases |gids|
      {
        var mgid :| mgid in gids;
        NotifyOne(groups, gids, msg, agid, mgid);
        if mgid == agid || mgid == "" || agid == "" {
          PushControl(name, mgid, msg);
        }
        gids := gids - {mgid};
      }
      AllNotified(groups, msg, agid);
    }

    method PushControl(name: string, gid: string, msg: Control)
      requires name in modules && gid in modules[name]
      modifies this`modules
      ensures var m := old(modules)[name][gid];
              modules == old(modules)[name := old(modules)[name][gid := m.(pending := m.pending + [msg])]]
    {
      var m := modules[name][gid];
      modules := modules[name := modules[name][gid := m.(pending := m.pending + [msg])]];
    }

    method AddAgentSocket(info: AgentInfo) returns (ok: bool)
      modifies this
      ensures (View(), ok) == AddAgent(old(View()), info)
    {
      if isClosed {
        return false;
      }
      if info.src in agents {
        return false;
      }
      agents := agents[info.src := info];
      routes := routes[info.dst := info.src];
      NotifyModules(Connected(info), info.gid);
      return true;
    }

    method DropRoutes(src: string)
      modifies this`routes
      ensures routes == map d | d in old(routes) && old(routes)[d] != src :: old(routes)[d]
    {
      var dsts := set d | d in routes && routes[d] == src;
      while dsts != {}
        invariant dsts <= (set d | d in old(routes) && old(routes)[d] == src)
        invariant routes == map d | d in old(routes) && (old(routes)[d] != src || d in dsts) :: old(routes)[d]
        decreases |dsts|
      {
        var d :| d in dsts;
        routes := routes - {d};
        dsts := dsts - {d};
      }
    }

    method DelAgentSocket(src: string) returns (ok: bool)
      modifies this
      ensures View() == DelAgent(old(View()), src) && ok == (src in old(agents))
    {
      if src !in agents {
        return false;
      }
      DropRoutes(src);
      NotifyModules(Disconnected(agents[src]), agents[src].gid);
      agents := agents - {src};
      return true;
    }

    /** The order in which the loop over the agents happened to visit the chosen ones. */
    method DropAgents(aid: string) returns (ghost order: seq<string>)
      modifies this
      ensures old(isClosed) ==> View() == old(View())
      ensures !old(isClosed) ==> IsOrder(order, WithId(old(agents), aid)) && View() == DelAgents(old(View()), order)
    {
      order := [];
      if isClosed {
        return;
      }
      var chosen := WithId(agents, aid);
      while chosen != {}
        invariant chosen <= WithId(old(agents), aid)
        invariant IsOrder(order, WithId(old(agents), aid) - chosen)
        invariant View() == DelAgents(old(View()), order)
        decreases |chosen|
      {
        var src :| src in chosen;
        var _ := DelAgentSocket(src);
        DelAgentsNext(old(View()), order, src);
        order := order + [src];
        chosen := chosen - {src};
      }
    }

    method MoveOneAgent(src: string, gid: string)
      requires src in agents
      modifies this
      ensures View() == MoveOne(old(View()), src, gid)
    {
      NotifyModules(Disconnected(agents[src]), agents[src].gid);
      agents := agents[src := agents[src].(gid := gid)];
      NotifyModules(Connected(agents[src]), agents[src].gid);
    }

    method MoveAgentsTo(aid: string, gid: string) returns (ghost order: seq<string>)
      modifies this
      ensures old(isClosed) ==> View() == old(View())
      ensures !old(isClosed) ==> IsOrder(order, ToMove(old(agents), aid, gid))
                                 && View() == MoveAgents(old(View()), order, gid)
    {
      order := [];
      if isClosed {
        return;
      }
      var rest := agents.Keys;
      while rest != {}
        invariant rest <= old(agents).Keys == agents.Keys
        invariant IsOrder(order, ToMove(old(agents), aid, gid) - rest)
        invariant forall s :: s in rest ==> agents[s] == old(agents)[s]
        invariant View() == MoveAgents(old(View()), order, gid)
        decreases |rest|
      {
        var src :| src in rest;
        if agents[src].id == aid && agents[src].gid != gid {
          MoveAgentsNext(old(View()), order, src, gid);
          MoveOneAgent(src, gid);
          order := order + [src];
        }
        rest := rest - {src};
      }
    }

    method AddRouteTo(dst: string, src: string) returns (ok: bool)
      modifies this
      ensures (View(), ok) == AddRoute(old(View()), dst, src)
    {
      if dst in routes {
        return false;
      }
      if src !in agents {
        return false;
      }
      routes := routes[dst := src];
      return true;
    }

    method DelRouteTo(dst: string) returns (ok: bool)
      modifies this
      ensures (View(), ok) == DelRoute(old(View()), dst)
    {
      if dst !in routes {
        return false;
      }
      routes := routes - {dst};
      return true;
    }

    /** The list a starting module is given (the start callback of a module state). */
    method AgentsFor(mgid: string) returns (roster: Roster)
      requires DistinctDestinations(agents)
      ensures roster == RosterOf(agents, mgid)
    {
      roster := map[];
      var rest := agents.Keys;
      while rest != {}
        invariant rest <= agents.Keys
        invariant forall s :: s in agents && s !in rest && Matches(mgid, agents[s].gid) ==>
                    agents[s].dst in roster && roster[agents[s].dst] == agents[s]
        invariant forall d :: d in roster ==>
                    exists s :: s in agents && s !in rest && Matches(mgid, agents[s].gid) && agents[s].dst == d
        decreases |rest|
      {
        var src :| src in rest;
        var agid := agents[src].gid;
        if mgid == agid || mgid == "" || agid == "" {
          roster := roster[agents[src].dst := agents[src]];
        }
        rest := rest - {src};
      }
      RosterIs(agents, mgid, roster);
    }

    method AddModuleSocket(name: string, gid: string, roster: Roster) returns (ok: bool)
      modifies this
      ensures (View(), ok) == AddModule(md5, old(View()), name, gid, roster)
    {
      if isClosed {
        return false;
      }
      var socket := Module(MakeToken(md5, name, gid), [], roster);
      if name !in modules {
        modules := modules[name := map[]];
        modules := modules[name := modules[name][gid := socket]];
      } else if gid !in modules[name] {
        modules := modules[name := modules[name][gid := socket]];
      } else {
        return false;
      }
      assert modules == old(modules)[name := GroupsOf(old(View()), name)[gid := socket]];
      return true;
    }

    /** The second half of a start: a socket that the hub refuses is closed. */
    method RegisterModule(name: string, gid: string, roster: Roster, ghost before: map<string, AgentInfo>)
      returns (ok: bool)
      requires DistinctDestinations(before) && roster == RosterOf(before, gid)
      modifies this
      ensures View() == Registered(md5, old(View()), name, gid, before)
      ensures ok == (!old(isClosed) && gid !in GroupsOf(old(View()), name))
    {
      ok := AddModuleSocket(name, gid, roster);
      if !ok {
        UnsubscribeFromAllTopics(MakeToken(md5, name, gid));
      }
    }

    method DelModuleSocket(name: string, gid: string) returns (ok: bool)
      modifies this
      ensures (View(), ok) == DelModule(md5, old(View()), name, gid)
    {
      if isClosed {
        return false;
      }
      if name in modules && gid in modules[name] {
        UnsubscribeFromAllTopics(MakeToken(md5, name, gid));
        DropGroup(name, gid);
        return true;
      }
      return false;
    }

    method DropGroup(name: string, gid: string)
      requires name in modules
      modifies this`modules
      ensures var rest := old(modules)[name] - {gid};
              modules == if |rest| == 0 then old(modules) - {name} else old(modules)[name := rest]
    {
      modules := modules[name := modules[name] - {gid}];
      if |modules[name]| == 0 {
        modules := modules - {name};
        assert modules == old(modules) - {name};
      }
    }

    method SubscribeToTopic(name: string, gid: string, token: string) returns (ok: bool)
      modifies this
      ensures (View(), ok) == Subscribe(md5, old(View()), name, gid, token)
    {
      if !Token.HasImcFormat(token) {
        return false;
      }
      var topic := MakeTopic(md5, name, gid);
      if topic in topics {
        var subs := topics[topic].subscriptions;
        if token !in subs {
          topics := topics[topic := topics[topic].(subscriptions := subs + [token])];
        }
      } else {
        topics := topics[topic := Topic(name, gid, [token])];
      }
      return true;
    }

    method FirstRemoved(subs: seq<string>, token: string) returns (rest: seq<string>)
      ensures rest == Without(subs, token)
    {
      var idx := 0;
      while idx < |subs|
        invariant 0 <= idx <= |subs|
        invariant Without(subs, token) == subs[..idx] + Without(subs[idx..], token)
      {
        if subs[idx] == token {
          return subs[..idx] + subs[idx + 1..];
        }
        WithoutNext(subs, idx, token);
        idx := idx + 1;
      }
      return subs;
    }

    method UnsubscribeFromTopic(name: string, gid: string, token: string) returns (ok: bool)
      modifies this
      ensures (View(), ok) == Unsubscribe(md5, old(View()), name, gid, token)
    {
      if !Token.HasImcFormat(token) {
        return false;
      }
      var topic := MakeTopic(md5, name, gid);
      if topic in topics {
        var subs := FirstRemoved(topics[topic].subscriptions, token);
        if |subs| == 0 {
          topics := topics - {topic};
        } else {
          topics := topics[topic := topics[topic].(subscriptions := subs)];
        }
      }
      return true;
    }

    method UnsubscribeFromAllTopics(token: string)
      modifies this`topics
      ensures topics == UnsubscribeAll(old(topics), token)
    {
      var rest := topics.Keys;
      while rest != {}
        invariant rest <= old(topics).Keys && topics.Keys <= old(topics).Keys
        invariant forall t :: t in old(topics) && t in rest ==> t in topics && topics[t] == old(topics)[t]
        invariant forall t :: t in old(topics) && t !in rest ==>
                    (t in topics <==> t in UnsubscribeAll(old(topics), token))
                    && (t in topics ==> topics[t] == UnsubscribeAll(old(topics), token)[t])
        decreases |rest|
      {
        var topic :| topic in rest;
        var subs := FirstRemoved(topics[topic].subscriptions, token);
        if |subs| == 0 {
          topics := topics - {topic};
        } else {
          topics := topics[topic := topics[topic].(subscriptions := subs)];
        }
        rest := rest - {topic};
      }
    }
  }

  lemma WithoutNext(subs: seq<string>, idx: nat, token: string)
    requires idx < |subs| && subs[idx] != token
    ensures subs[..idx] + Without(subs[idx..], token) == subs[..idx + 1] + Without(subs[idx + 1..], token)
  {
    assert subs[idx..][1..] == subs[idx + 1..];
    TakeNext(subs, idx);
    ConcatAssoc(subs[..idx], [subs[idx]], Without(subs[idx + 1..], token));
  }

  lemma {:induction false} DelAgentsNext(h: State, order: seq<string>, src: string)
    ensures DelAgents(h, order + [src]) == DelAgent(DelAgents(h, order), src)
    decreases |order|
  {
    if order == [] {
      assert [] + [src] == [src];
      assert [src][1..] == [];
    } else {
      assert (order + [src])[1..] == order[1..] + [src];
      DelAgentsNext(DelAgent(h, order[0]), order[1..], src);
    }
  }

  lemma {:induction false} MoveAgentsNext(h: State, order: seq<string>, src: string, gid: string)
    ensures MoveAgents(h, order + [src], gid) == MoveOne(MoveAgents(h, order, gid), src, gid)
    decreases |order|
  {
    if order == [] {
      assert [] + [src] == [src];
      assert [src][1..] == [];
    } else {
      assert (order + [src])[1..] == order[1..] + [src];
      MoveAgentsNext(MoveOne(h, order[0], gid), order[1..], src, gid);
    }
  }
}
