/** Where a message goes, from the connections and the table alone, and what the table copied from registrations. */
module PresenceLaws {
  import opened Presence

  /** The hub has this agent connected, under its name or its name in the default organisation. */
  predicate Here(agents: set<string>, target: string) {
    && target != ""
    && (target in agents || (|target| >= 8 && target[..8] == "default/" && target[8..] in agents))
  }

  /** The table places the agent at another hub of the same organisation, with a sign of life at most 45 seconds old. */
  predicate NearAt(layout: Layout, rows: Table, hub: string, target: string, now: real, to: string) {
    && target in rows && rows[target].hubId == to && to != hub
    && rows[target].orgId == layout.org(hub) && now <= rows[target].lastSeen + 45.0
  }

  /**
    A message is delivered here if its agent is connected here; otherwise it is handed to another hub if and
    only if there is a link to it and the table places the agent there, freshly and in the same
    organisation; and otherwise it leaves the cluster. Tables and connections stay as they are.
  */
  lemma {:induction false} GoesWhere(layout: Layout, c: Cluster, id: string, target: string, hub: string, now: real,
                                     linked: bool)
    requires hub in c.up
    ensures var d := Step(layout, c, Sent(id, target, hub, now, linked));
      && d.rows == c.rows && d.up == c.up && |d.log| == |c.log| + 1 && d.log[..|c.log|] == c.log
      && var r := d.log[|c.log|];
      && (r == Delivered(id, hub) <==> Here(c.up[hub], target))
      && (forall to :: r == Forwarded(id, hub, to) <==>
            !Here(c.up[hub], target) && target != "" && linked && NearAt(layout, c.rows, hub, target, now, to))
      && (r == Left(id, hub) || r == Delivered(id, hub) || r.Forwarded?)
      && d.relays == c.relays + (if r.Forwarded? then {Packet(id, target, r.to)} else {})
  {
  }

  /** A relay is delivered where it arrives if and only if that hub is up and has the agent; it is never sent on. */
  lemma {:induction false} ArrivesOnce(layout: Layout, c: Cluster, p: Packet)
    requires p in c.relays
    ensures var d := Step(layout, c, Arrived(p));
      && d.rows == c.rows && d.up == c.up && d.relays == c.relays - {p}
      && d.log == c.log + [if p.to in c.up && Here(c.up[p.to], p.target) then Delivered(p.id, p.to)
                           else Left(p.id, p.to)]
  {
  }

  // ---------------------------------------------------------------- what the table says

  /** This event registered the agent as its row says. */
  ghost predicate CopiedFrom(layout: Layout, events: seq<Event>, i: int, agent: string, row: Row) {
    && 0 <= i < |events| && Registers(layout, events, i, agent)
    && events[i].hub == row.hubId && events[i].orgId == row.orgId && row.hubUrl == layout.url(row.hubId)
    && forall j :: i < j < |events| ==> !Registers(layout, events, j, agent)
  }

  lemma {:induction false} RegistersLast(layout: Layout, init: seq<Event>, last: Event, agent: string)
    ensures Registers(layout, init + [last], |init|, agent) <==>
      last.Registered? && last.agent == agent && last.hub in Run(layout, START, init).up
  {
    assert (init + [last])[..|init|] == init && (init + [last])[|init|] == last;
  }

  lemma {:induction false} CopiedStill(layout: Layout, init: seq<Event>, last: Event, i: int, agent: string, row: Row)
    requires CopiedFrom(layout, init, i, agent, row)
    requires !(last.Registered? && last.agent == agent && last.hub in Run(layout, START, init).up)
    ensures CopiedFrom(layout, init + [last], i, agent, row)
  {
    hide Registers, Run;
    EarlierSame(layout, init, last, i, agent, "");
    RegistersLast(layout, init, last, agent);
    assert (init + [last])[i] == init[i];
    forall j | i < j < |init + [last]|
      ensures !Registers(layout, init + [last], j, agent)
    {
      if j < |init| {
        EarlierSame(layout, init, last, j, agent, "");
      }
    }
  }

  lemma {:induction false} CopiedNow(layout: Layout, init: seq<Event>, last: Event, agent: string, row: Row)
    requires last.Registered? && last.agent == agent && last.hub in Run(layout, START, init).up
    requires row.hubId == last.hub && row.orgId == last.orgId && row.hubUrl == layout.url(last.hub)
    ensures CopiedFrom(layout, init + [last], |init|, agent, row)
  {
    hide Registers, Run;
    RegistersLast(layout, init, last, agent);
    assert (init + [last])[|init|] == last;
  }

  /** After any events, each row has the hub, its address and the organisation of the agent's latest registration. */
  lemma {:induction false} RowCopiesRegistration(layout: Layout, events: seq<Event>, agent: string) returns (i: int)
    requires agent in Run(layout, START, events).rows
    ensures CopiedFrom(layout, events, i, agent, Run(layout, START, events).rows[agent])
  {
    hide Step, CopiedFrom;
    var init, last := events[..|events| - 1], events[|events| - 1];
    var c, row := Run(layout, START, init), Run(layout, START, events).rows[agent];
    assert init + [last] == events;
    RowEffect(layout, c, last, agent);
    if last.Registered? && last.agent == agent && last.hub in c.up {
      CopiedNow(layout, init, last, agent, row);
      i := |init|;
    } else {
      i := RowCopiesRegistration(layout, init, agent);
      SameCopy(layout, init, i, agent, c.rows[agent], row);
      CopiedStill(layout, init, last, i, agent, row);
    }
  }

  lemma SameCopy(layout: Layout, events: seq<Event>, i: int, agent: string, a: Row, b: Row)
    requires CopiedFrom(layout, events, i, agent, a) && b == a.(lastSeen := b.lastSeen)
    ensures CopiedFrom(layout, events, i, agent, b)
  {
  }

  lemma {:induction false} RowEffect(layout: Layout, c: Cluster, e: Event, agent: string)
    requires agent in Step(layout, c, e).rows
    ensures var d := Step(layout, c, e).rows[agent];
      if e.Registered? && e.agent == agent && e.hub in c.up
      then d == Row(e.hub, layout.url(e.hub), e.orgId, e.now)
      else agent in c.rows && d == c.rows[agent].(lastSeen := d.lastSeen)
  {
    hide RouteFor, LocalName;
  }

  /**
    In every run, a message is only handed to another hub that the agent last registered with, under the
    organisation of the hub that hands it over, and that gave a sign of life within 45 seconds.
  */
  lemma {:induction false} RelayedToItsHub(layout: Layout, events: seq<Event>, id: string, target: string, hub: string,
                                           now: real, linked: bool, to: string) returns (i: int, j: int)
    requires var c := Run(layout, START, events);
      && hub in c.up
      && var d := Step(layout, c, Sent(id, target, hub, now, linked));
      |d.log| > |c.log| && d.log[|c.log|] == Forwarded(id, hub, to)
    ensures to != hub && linked
    ensures 0 <= i < |events| && Registers(layout, events, i, target) && events[i].hub == to
    ensures events[i].orgId == layout.org(hub) && forall k :: i < k < |events| ==> !Registers(layout, events, k, target)
    ensures 0 <= j < |events| && Refreshes(layout, events, j, target, to) && now <= TimeOf(events[j]) + 45.0
  {
    hide Run, Step, Registers, Refreshes;
    var c := Run(layout, START, events);
    GoesWhere(layout, c, id, target, hub, now, linked);
    i := RowCopiesRegistration(layout, events, target);
    EveryRowSeen(layout, events, target);
    j :| 0 <= j < |events| && Refreshes(layout, events, j, target, to) && TimeOf(events[j]) == c.rows[target].lastSeen;
  }
}
