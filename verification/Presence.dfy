/**
  A cluster of hubs: the shared table that says where each agent is connected, and the relay of messages.
  Times in seconds.
*/
module Presence {
  import opened Wrappers

  /** An entry that was not refreshed for longer than this is not believed. */
  const PRESENCE_TTL: real := 45.0

  datatype Row = Row(hubId: string, hubUrl: string, orgId: string, lastSeen: real)

  type Table = map<string, Row>

  function Cleared(rows: Table, agent: string, hub: string): Table {
    if agent in rows && rows[agent].hubId == hub then rows - {agent} else rows
  }

  function Touched(rows: Table, hub: string, now: real): Table {
    map a | a in rows :: if rows[a].hubId == hub then rows[a].(lastSeen := now) else rows[a]
  }

  /** A limit of 0 believes every entry. */
  function Found(rows: Table, agent: string, maxAge: real, now: real): Option<Row> {
    if agent !in rows || (maxAge != 0.0 && now - rows[agent].lastSeen > maxAge) then None else Some(rows[agent])
  }

  class PresenceTable {
    var rows: Table

    constructor ()
      ensures rows == map[]
    {
      rows := map[];
    }

    method Record(agent: string, hubId: string, hubUrl: string, orgId: string, seenAt: real)
      modifies this
      ensures rows == old(rows)[agent := Row(hubId, hubUrl, orgId, seenAt)]
    {
      rows := rows[agent := Row(hubId, hubUrl, orgId, seenAt)];
    }

    /** Only the hub that holds the entry may remove it. */
    method Clear(agent: string, hubId: string)
      modifies this
      ensures rows == Cleared(old(rows), agent, hubId)
    {
      if agent in rows && rows[agent].hubId == hubId {
        rows := rows - {agent};
      }
    }

    method Touch(hubId: string, seenAt: real)
      modifies this
      ensures rows == Touched(old(rows), hubId, seenAt)
    {
      var left := rows.Keys;
      while left != {}
        invariant left <= rows.Keys && rows.Keys == old(rows).Keys
        invariant forall a :: a in rows ==>
          rows[a] == if a in left then old(rows)[a] else Touched(old(rows), hubId, seenAt)[a]
        decreases left
      {
        var a :| a in left;
        if rows[a].hubId == hubId {
          rows := rows[a := rows[a].(lastSeen := seenAt)];
        }
        left := left - {a};
      }
    }
  }

  // ---------------------------------------------------------------- one hub

  /** An agent of the default organisation may be addressed with its prefix or without. */
  function LocalName(agents: set<string>, name: string): Option<string> {
    if name == "" then None
    else if name in agents then Some(name)
    else if |name| >= 8 && name[..8] == "default/" && name[8..] in agents then Some(name[8..])
    else None
  }

  /** Where a hub sends a message it was asked to deliver. */
  datatype Route = Local(agent: string) | Sibling(hub: string) | Elsewhere

  /** A sibling is tried when the message is not for an agent of this hub, and before leaving the organisation. */
  function RouteFor(self: string, org: string, agents: set<string>, rows: Table, target: string, now: real): Route {
    match LocalName(agents, target)
    case Some(agent) => Local(agent)
    case None =>
      if target == "" then Elsewhere
      else match Found(rows, target, PRESENCE_TTL, now)
        case Some(row) => if row.hubId != self && row.orgId == org then Sibling(row.hubId) else Elsewhere
        case None => Elsewhere
  }

  class ClusterHub {
    const id: string
    const url: string
    const org: string
    const store: PresenceTable
    var agents: set<string>

    constructor (id: string, url: string, org: string, store: PresenceTable)
      ensures this.id == id && this.url == url && this.org == org && this.store == store && agents == {}
    {
      this.id, this.url, this.org, this.store, agents := id, url, org, store, {};
    }

    /** The organisation is the one the agent registered under. */
    method Register(agent: string, orgId: string, now: real)
      modifies this, store
      ensures agents == old(agents) + {agent}
      ensures store.rows == old(store.rows)[agent := Row(id, url, orgId, now)]
    {
      agents := agents + {agent};
      store.Record(agent, id, url, orgId, now);
    }

    method Disconnect(agent: string)
      modifies this, store
      ensures agents == old(agents) - {agent}
      ensures store.rows == if agent in old(agents) then Cleared(old(store.rows), agent, id) else old(store.rows)
    {
      if agent in agents {
        agents := agents - {agent};
        store.Clear(agent, id);
      }
    }

    method Heartbeat(now: real)
      modifies store
      ensures store.rows == Touched(old(store.rows), id, now)
    {
      store.Touch(id, now);
    }

    method Deliver(target: string, now: real) returns (r: Route)
      ensures r == RouteFor(id, org, agents, store.rows, target, now)
    {
      if target == "" {
        return Elsewhere;
      }
      var local := LocalName(agents, target);
      if local.Some? {
        return Local(local.value);
      }
      var presence := Found(store.rows, target, PRESENCE_TTL, now);
      if presence.Some? && presence.value.hubId != id && presence.value.orgId == org {
        return Sibling(presence.value.hubId);
      }
      return Elsewhere;
    }
  }

  // ---------------------------------------------------------------- a cluster

  /** What is fixed: the address and the organisation of each hub. */
  datatype Layout = Layout(url: string -> string, org: string -> string)

  datatype Packet = Packet(id: string, target: string, to: string)

  /** What became of a message, step by step. */
  datatype Record =
    | Forwarded(id: string, from: string, to: string)
    | Delivered(id: string, at: string)
    | Left(id: string, at: string)

  /** The connections of the hubs that are up, the table they share, and the relays under way. */
  datatype Cluster = Cluster(rows: Table, up: map<string, set<string>>, relays: set<Packet>, log: seq<Record>)

  datatype Event =
    | Booted(hub: string)
    | Crashed(hub: string)                                            // nothing is cleaned up
    | Registered(agent: string, hub: string, orgId: string, now: real)
    | Disconnected(agent: string, hub: string)
    | Beaten(hub: string, now: real)
    | Sent(id: string, target: string, hub: string, now: real, linked: bool)   // a hub is asked to deliver a message
    | Arrived(packet: Packet)                                         // a sibling unpacks a relay

  /** The relay is delivered locally or dropped, never sent on. */
  function AfterArrival(c: Cluster, p: Packet): Cluster {
    var arrived := c.(relays := c.relays - {p});
    if p.to in c.up && LocalName(c.up[p.to], p.target).Some? then arrived.(log := c.log + [Delivered(p.id, p.to)])
    else arrived.(log := c.log + [Left(p.id, p.to)])
  }

  function AfterSend(layout: Layout, c: Cluster, id: string, target: string, hub: string, now: real, linked: bool)
    : Cluster
    requires hub in c.up
  {
    match RouteFor(hub, layout.org(hub), c.up[hub], c.rows, target, now)
    case Local(_) => c.(log := c.log + [Delivered(id, hub)])
    case Sibling(to) =>
      if linked then c.(relays := c.relays + {Packet(id, target, to)}, log := c.log + [Forwarded(id, hub, to)])
      else c.(log := c.log + [Left(id, hub)])
    case Elsewhere => c.(log := c.log + [Left(id, hub)])
  }

  /** A hub that is down does nothing. */
  function Step(layout: Layout, c: Cluster, e: Event): Cluster {
    match e
    case Booted(hub) => if hub in c.up then c else c.(up := c.up[hub := {}])
    case Crashed(hub) => c.(up := c.up - {hub})
    case Registered(agent, hub, orgId, now) =>
      if hub !in c.up then c
      else c.(up := c.up[hub := c.up[hub] + {agent}], rows := c.rows[agent := Row(hub, layout.url(hub), orgId, now)])
    case Disconnected(agent, hub) =>
      if hub !in c.up || agent !in c.up[hub] then c
      else c.(up := c.up[hub := c.up[hub] - {agent}], rows := Cleared(c.rows, agent, hub))
    case Beaten(hub, now) => if hub !in c.up then c else c.(rows := Touched(c.rows, hub, now))
    case Sent(id, target, hub, now, linked) =>
      if hub !in c.up then c else AfterSend(layout, c, id, target, hub, now, linked)
    case Arrived(packet) => if packet !in c.relays then c else AfterArrival(c, packet)
  }

  function Run(layout: Layout, c: Cluster, events: seq<Event>): Cluster {
    if events == [] then c else Step(layout, Run(layout, c, events[..|events| - 1]), events[|events| - 1])
  }

  const START := Cluster(map[], map[], {}, [])

  function At(layout: Layout, events: seq<Event>, i: nat): Cluster
    requires i <= |events|
  {
    Run(layout, START, events[..i])
  }

  /** Event `i` registers the agent, at a hub that is up. */
  predicate Registers(layout: Layout, events: seq<Event>, i: nat, agent: string)
    requires i < |events|
  {
    events[i].Registered? && events[i].agent == agent && events[i].hub in At(layout, events, i).up
  }

  /** At event `i` this hub handles a disconnection of the agent. */
  predicate Leaves(layout: Layout, events: seq<Event>, i: nat, agent: string, hub: string)
    requires i < |events|
  {
    events[i] == Disconnected(agent, hub) && hub in At(layout, events, i).up && agent in At(layout, events, i).up[hub]
  }

  /** Event `i` is the latest registration of the agent, and its hub has not handled a disconnection since. */
  ghost predicate Current(layout: Layout, events: seq<Event>, i: int, agent: string, hub: string) {
    && 0 <= i < |events| && Registers(layout, events, i, agent) && events[i].hub == hub
    && (forall j :: i < j < |events| ==> !Registers(layout, events, j, agent))
    && (forall j :: i < j < |events| ==> !Leaves(layout, events, j, agent, hub))
  }

  /** Event `i` is a sign of life from a hub for this entry. */
  predicate Refreshes(layout: Layout, events: seq<Event>, i: nat, agent: string, hub: string)
    requires i < |events|
  {
    && hub in At(layout, events, i).up
    && (|| (events[i].Registered? && events[i].agent == agent && events[i].hub == hub)
        || (events[i].Beaten? && events[i].hub == hub))
  }

  function TimeOf(e: Event): real {
    match e
    case Registered(_, _, _, now) => now
    case Beaten(_, now) => now
    case Sent(_, _, _, now, _) => now
    case _ => 0.0
  }

  // ---------------------------------------------------------------- whose row it is

  lemma {:induction false} PrefixRun(layout: Layout, events: seq<Event>, last: Event, i: nat)
    requires i <= |events|
    ensures At(layout, events + [last], i) == At(layout, events, i)
  {
    assert (events + [last])[..i] == events[..i];
  }

  lemma {:induction false} RunNext(layout: Layout, init: seq<Event>, last: Event)
    ensures Run(layout, START, init + [last]) == Step(layout, Run(layout, START, init), last)
    ensures At(layout, init + [last], |init|) == Run(layout, START, init)
  {
    assert (init + [last])[..|init|] == init;
  }

  /** What one event does to the entry of an agent. */
  lemma {:induction false} RowStep(layout: Layout, c: Cluster, e: Event, agent: string)
    ensures var d := Step(layout, c, e);
      if e.Registered? && e.agent == agent && e.hub in c.up then
        agent in d.rows && d.rows[agent] == Row(e.hub, layout.url(e.hub), e.orgId, e.now)
      else if agent in c.rows && e == Disconnected(agent, c.rows[agent].hubId)
              && e.hub in c.up && agent in c.up[e.hub] then
        agent !in d.rows
      else if agent in c.rows then
        && agent in d.rows
        && d.rows[agent] ==
           if e.Beaten? && e.hub == c.rows[agent].hubId && e.hub in c.up
           then c.rows[agent].(lastSeen := e.now) else c.rows[agent]
      else agent !in d.rows
  {
    hide RouteFor, LocalName;
  }

  /** Earlier events read the same in a longer history. */
  lemma {:induction false} EarlierSame(layout: Layout, init: seq<Event>, last: Event, j: nat, agent: string,
                                       hub: string)
    requires j < |init|
    ensures Registers(layout, init + [last], j, agent) == Registers(layout, init, j, agent)
    ensures Leaves(layout, init + [last], j, agent, hub) == Leaves(layout, init, j, agent, hub)
    ensures Refreshes(layout, init + [last], j, agent, hub) == Refreshes(layout, init, j, agent, hub)
  {
    hide At;
    PrefixRun(layout, init, last, j);
  }

  lemma {:induction false} CurrentNext(layout: Layout, init: seq<Event>, last: Event, i: nat, agent: string,
                                       hub: string)
    requires i < |init|
    ensures Current(layout, init + [last], i, agent, hub) <==>
      && Current(layout, init, i, agent, hub) && !Registers(layout, init + [last], |init|, agent)
      && !Leaves(layout, init + [last], |init|, agent, hub)
  {
    hide At, Registers, Leaves, Refreshes;
    var events := init + [last];
    forall j: nat | j < |init|
      ensures Registers(layout, events, j, agent) == Registers(layout, init, j, agent)
      ensures Leaves(layout, events, j, agent, hub) == Leaves(layout, init, j, agent, hub)
    {
      EarlierSame(layout, init, last, j, agent, hub);
    }
    RegistersIs(layout, init, i, agent);
    RegistersIs(layout, events, i, agent);
    assert events[i] == init[i];
  }

  lemma RegistersIs(layout: Layout, events: seq<Event>, i: nat, agent: string)
    requires i < |events|
    ensures Registers(layout, events, i, agent) ==> events[i].Registered?
  {
  }

  ghost predicate Holds(layout: Layout, events: seq<Event>, agent: string, hub: string) {
    exists i :: Current(layout, events, i, agent, hub)
  }

  /** The entry of an agent names the hub of its current registration; without one there is no entry. */
  ghost predicate Explained(layout: Layout, events: seq<Event>, rows: Table, agent: string) {
    forall hub :: Holds(layout, events, agent, hub) <==> agent in rows && rows[agent].hubId == hub
  }

  lemma {:induction false} ExplainedNext(layout: Layout, init: seq<Event>, last: Event, agent: string)
    requires Explained(layout, init, Run(layout, START, init).rows, agent)
    ensures Explained(layout, init + [last], Step(layout, Run(layout, START, init), last).rows, agent)
  {
    hide Step, Run, Current;
    var c, events := Run(layout, START, init), init + [last];
    var d := Step(layout, c, last);
    RowStep(layout, c, last, agent);
    RunNext(layout, init, last);
    forall hub
      ensures Holds(layout, events, agent, hub) <==> agent in d.rows && d.rows[agent].hubId == hub
    {
      if agent in d.rows && d.rows[agent].hubId == hub {
        if Registers(layout, events, |init|, agent) {
          NewlyCurrent(layout, events, |init|, agent);
        } else {
          assert agent in c.rows && c.rows[agent].hubId == hub;
          assert Holds(layout, init, agent, hub);
          var i :| Current(layout, init, i, agent, hub);
          InRange(layout, init, i, agent, hub);
          CurrentNext(layout, init, last, i, agent, hub);
        }
      }
      if i :| Current(layout, events, i, agent, hub) {
        InRange(layout, events, i, agent, hub);
        if i < |init| {
          CurrentNext(layout, init, last, i, agent, hub);
          assert Holds(layout, init, agent, hub);
        }
      }
    }
  }

  lemma InRange(layout: Layout, events: seq<Event>, i: int, agent: string, hub: string)
    requires Current(layout, events, i, agent, hub)
    ensures 0 <= i < |events| && Registers(layout, events, i, agent) && events[i].hub == hub
  {
  }

  lemma NewlyCurrent(layout: Layout, events: seq<Event>, n: nat, agent: string)
    requires |events| == n + 1 && Registers(layout, events, n, agent)
    ensures Current(layout, events, n, agent, events[n].hub)
  {
  }

  lemma {:induction false} AllExplained(layout: Layout, events: seq<Event>, agent: string)
    ensures Explained(layout, events, Run(layout, START, events).rows, agent)
  {
    hide Step, Explained;
    if events == [] {
      NothingExplained(layout, agent);
    } else {
      var init, last := events[..|events| - 1], events[|events| - 1];
      AllExplained(layout, init, agent);
      ExplainedNext(layout, init, last, agent);
      assert init + [last] == events;
    }
  }

  lemma NothingExplained(layout: Layout, agent: string)
    ensures Explained(layout, [], START.rows, agent)
  {
  }

  // ---------------------------------------------------------------- theorems

  /**
    After any interleaving of registrations, disconnections, heartbeats and crashes, the entry of an agent
    names a hub exactly when the agent's latest registration was there and that hub has not handled a
    disconnection of it since.
  */
  lemma {:induction false} RowNamesLatestRegistration(layout: Layout, events: seq<Event>, agent: string, hub: string)
    ensures var rows := Run(layout, START, events).rows;
      (agent in rows && rows[agent].hubId == hub) <==> exists i :: Current(layout, events, i, agent, hub)
  {
    hide Run, Current;
    AllExplained(layout, events, agent);
    assert Holds(layout, events, agent, hub) <==> exists i :: Current(layout, events, i, agent, hub);
  }

  /** A hub that handles a late disconnection does not erase the entry of an agent that is now elsewhere. */
  lemma {:induction false} LateDisconnectHarmless(layout: Layout, events: seq<Event>, agent: string, hub: string,
                                                  i: int, other: string)
    requires Current(layout, events, i, agent, hub) && other != hub
    ensures var c := Step(layout, Run(layout, START, events), Disconnected(agent, other));
      agent in c.rows && c.rows[agent].hubId == hub
  {
    hide Run, Current, Step;
    RowNamesLatestRegistration(layout, events, agent, hub);
    RowStep(layout, Run(layout, START, events), Disconnected(agent, other), agent);
  }

  /**
    Which disconnection erases the entry of an agent: one that its own hub handles while it knows the
    agent by name. The hub does not tell connections apart, so this may be an older one closing late.
  */
  lemma {:induction false} DisconnectErasesIff(layout: Layout, events: seq<Event>, agent: string, hub: string, i: int,
                                               other: string)
    requires Current(layout, events, i, agent, hub)
    ensures var c := Run(layout, START, events);
      agent !in Step(layout, c, Disconnected(agent, other)).rows <==> other == hub && hub in c.up && agent in c.up[hub]
  {
    hide Run, Current, Step;
    RowNamesLatestRegistration(layout, events, agent, hub);
    RowStep(layout, Run(layout, START, events), Disconnected(agent, other), agent);
  }

  lemma {:induction false} FourEvents(layout: Layout, e0: Event, e1: Event, e2: Event, e3: Event)
    ensures Run(layout, START, [e0, e1, e2, e3]) ==
      Step(layout, Step(layout, Step(layout, Step(layout, START, e0), e1), e2), e3)
  {
    hide Step, At;
    assert Run(layout, START, []) == START;
    RunNext(layout, [], e0);
    RunNext(layout, [e0], e1);
    RunNext(layout, [e0, e1], e2);
    RunNext(layout, [e0, e1, e2], e3);
    assert [] + [e0] == [e0] && [e0] + [e1] == [e0, e1] && [e0, e1] + [e2] == [e0, e1, e2];
    assert [e0, e1, e2] + [e3] == [e0, e1, e2, e3];
  }

  /**
    Two connections of one agent to one hub: when the older one closes, neither the hub nor the table knows
    the newer.
  */
  lemma {:induction false} OlderConnectionErasesNewer(layout: Layout, agent: string, hub: string, orgId: string,
                                                      t: real, u: real)
    ensures var c := Run(layout, START, [Booted(hub), Registered(agent, hub, orgId, t),
                                         Registered(agent, hub, orgId, u),
                                         Disconnected(agent, hub)]);
      agent !in c.rows && hub in c.up && agent !in c.up[hub]
  {
    hide Run;
    FourEvents(layout, Booted(hub), Registered(agent, hub, orgId, t), Registered(agent, hub, orgId, u),
               Disconnected(agent, hub));
  }

  /** The entry was last refreshed at some event of its hub, which was up. */
  ghost predicate Seen(layout: Layout, events: seq<Event>, agent: string, row: Row) {
    exists i :: 0 <= i < |events| && Refreshes(layout, events, i, agent, row.hubId) && TimeOf(events[i]) == row.lastSeen
  }

  lemma {:induction false} SeenNext(layout: Layout, init: seq<Event>, last: Event, agent: string, row: Row)
    requires Seen(layout, init, agent, row)
    ensures Seen(layout, init + [last], agent, row)
  {
    hide At, Refreshes;
    var i :| 0 <= i < |init| && Refreshes(layout, init, i, agent, row.hubId) && TimeOf(init[i]) == row.lastSeen;
    EarlierSame(layout, init, last, i, agent, row.hubId);
    assert (init + [last])[i] == init[i];
  }

  lemma {:induction false} EveryRowSeen(layout: Layout, events: seq<Event>, agent: string)
    requires agent in Run(layout, START, events).rows
    ensures Seen(layout, events, agent, Run(layout, START, events).rows[agent])
  {
    hide Step, Seen;
    if events != [] {
      var init, last := events[..|events| - 1], events[|events| - 1];
      var c, row := Run(layout, START, init), Run(layout, START, events).rows[agent];
      assert init + [last] == events;
      RowStep(layout, c, last, agent);
      if agent in c.rows {
        EveryRowSeen(layout, init, agent);
        SeenNext(layout, init, last, agent, c.rows[agent]);
      }
      if agent !in c.rows || row != c.rows[agent] {
        JustSeen(layout, init, last, agent, row);
      }
    }
  }

  lemma JustSeen(layout: Layout, init: seq<Event>, last: Event, agent: string, row: Row)
    requires var c := Run(layout, START, init);
      && row.hubId in c.up && TimeOf(last) == row.lastSeen
      && ((last.Registered? && last.agent == agent && last.hub == row.hubId) || (last.Beaten? && last.hub == row.hubId))
    ensures Seen(layout, init + [last], agent, row)
  {
    RunNext(layout, init, last);
    assert Refreshes(layout, init + [last], |init|, agent, row.hubId);
  }

  /** What a lookup returns was refreshed within the last 45 seconds by its hub, which was up then. */
  lemma {:induction false} FoundIsFresh(layout: Layout, events: seq<Event>, agent: string, now: real)
    requires Found(Run(layout, START, events).rows, agent, PRESENCE_TTL, now).Some?
    ensures var row := Found(Run(layout, START, events).rows, agent, PRESENCE_TTL, now).value;
      exists i :: 0 <= i < |events| && Refreshes(layout, events, i, agent, row.hubId)
        && now - PRESENCE_TTL <= TimeOf(events[i])
  {
    hide Run, Refreshes;
    EveryRowSeen(layout, events, agent);
  }

  /** A hub that fell silent is forgotten: once 45 seconds have passed, no lookup returns it. */
  lemma {:induction false} SilentHubForgotten(layout: Layout, events: seq<Event>, agent: string, hub: string,
                                              silence: real, now: real)
    requires forall i :: 0 <= i < |events| && Refreshes(layout, events, i, agent, hub) ==> TimeOf(events[i]) <= silence
    requires now > silence + PRESENCE_TTL
    ensures var r := Found(Run(layout, START, events).rows, agent, PRESENCE_TTL, now);
      r.Some? ==> r.value.hubId != hub
  {
    hide Run, Refreshes;
    if Found(Run(layout, START, events).rows, agent, PRESENCE_TTL, now).Some? {
      FoundIsFresh(layout, events, agent, now);
    }
  }

  // ---------------------------------------------------------------- at most one hop

  function Hops(log: seq<Record>, id: string): nat {
    if log == [] then 0
    else Hops(log[..|log| - 1], id) + if log[|log| - 1].Forwarded? && log[|log| - 1].id == id then 1 else 0
  }

  function Deliveries(log: seq<Record>, id: string): nat {
    if log == [] then 0
    else Deliveries(log[..|log| - 1], id) + if log[|log| - 1].Delivered? && log[|log| - 1].id == id then 1 else 0
  }

  /** Messages have names of their own. */
  ghost predicate DistinctMessages(events: seq<Event>) {
    forall i, j :: 0 <= i < j < |events| && events[i].Sent? && events[j].Sent? ==> events[i].id != events[j].id
  }

  predicate WasSent(events: seq<Event>, id: string) {
    exists i :: 0 <= i < |events| && events[i].Sent? && events[i].id == id
  }

  /** A message is under way, delivered, or gone: never two of these. */
  ghost predicate Carried(c: Cluster, id: string, sent: bool) {
    && Hops(c.log, id) <= 1
    && Deliveries(c.log, id) + (if Underway(c, id) then 1 else 0) <= 1
    && (forall p, q :: p in c.relays && q in c.relays && p.id == id && q.id == id ==> p == q)
    && (!sent ==> Hops(c.log, id) == 0 && Deliveries(c.log, id) == 0 && !Underway(c, id))
  }

  ghost predicate Underway(c: Cluster, id: string) {
    exists p :: p in c.relays && p.id == id
  }

  lemma {:induction false} LogNext(log: seq<Record>, r: Record, id: string)
    ensures Hops(log + [r], id) == Hops(log, id) + if r.Forwarded? && r.id == id then 1 else 0
    ensures Deliveries(log + [r], id) == Deliveries(log, id) + if r.Delivered? && r.id == id then 1 else 0
  {
    assert (log + [r])[..|log|] == log;
  }

  lemma {:induction false} SendCarried(layout: Layout, c: Cluster, e: Event, id: string, sent: bool)
    requires Carried(c, id, sent) && e.Sent? && e.hub in c.up && (e.id == id ==> !sent)
    ensures Carried(Step(layout, c, e), id, sent || e.id == id)
  {
    hide RouteFor, Hops, Deliveries;
    var d := Step(layout, c, e);
    var r := d.log[|c.log|];
    assert d.log == c.log + [r];
    LogNext(c.log, r, id);
  }

  lemma {:induction false} ArrivalCarried(layout: Layout, c: Cluster, e: Event, id: string, sent: bool)
    requires Carried(c, id, sent) && e.Arrived? && e.packet in c.relays
    ensures Carried(Step(layout, c, e), id, sent)
  {
    hide LocalName, Hops, Deliveries;
    var d := Step(layout, c, e);
    var r := d.log[|c.log|];
    assert d.log == c.log + [r];
    LogNext(c.log, r, id);
  }

  lemma {:induction false} StepCarried(layout: Layout, c: Cluster, e: Event, id: string, sent: bool)
    requires Carried(c, id, sent) && (e.Sent? && e.id == id ==> !sent)
    ensures Carried(Step(layout, c, e), id, sent || (e.Sent? && e.id == id))
  {
    hide RouteFor, LocalName, Hops, Deliveries, Cleared, Touched;
    if e.Sent? && e.hub in c.up {
      SendCarried(layout, c, e, id, sent);
    } else if e.Arrived? && e.packet in c.relays {
      ArrivalCarried(layout, c, e, id, sent);
    } else {
      SameTraffic(layout, c, e);
    }
  }

  lemma SameTraffic(layout: Layout, c: Cluster, e: Event)
    requires !(e.Sent? && e.hub in c.up) && !(e.Arrived? && e.packet in c.relays)
    ensures Step(layout, c, e).log == c.log && Step(layout, c, e).relays == c.relays
  {
  }

  lemma {:induction false} RunCarried(layout: Layout, events: seq<Event>, id: string)
    requires DistinctMessages(events)
    ensures Carried(Run(layout, START, events), id, WasSent(events, id))
  {
    hide Carried, Step;
    if events == [] {
      NothingCarried(id);
    } else {
      var init, last := events[..|events| - 1], events[|events| - 1];
      RunCarried(layout, init, id);
      StepCarried(layout, Run(layout, START, init), last, id, WasSent(init, id));
      SentNext(events, init, last, id);
    }
  }

  lemma {:induction false} SentNext(events: seq<Event>, init: seq<Event>, last: Event, id: string)
    requires events == init + [last]
    ensures WasSent(events, id) <==> WasSent(init, id) || (last.Sent? && last.id == id)
  {
    assert events[|init|] == last;
    assert forall i :: 0 <= i < |init| ==> events[i] == init[i];
  }

  lemma NothingCarried(id: string)
    ensures Carried(START, id, false)
  {
  }

  /** However hubs come and go, a message makes at most one hop between siblings, and is delivered at most once. */
  lemma {:induction false} AtMostOneHop(layout: Layout, events: seq<Event>, id: string)
    requires DistinctMessages(events)
    ensures Hops(Run(layout, START, events).log, id) <= 1 && Deliveries(Run(layout, START, events).log, id) <= 1
  {
    RunCarried(layout, events, id);
  }
}
