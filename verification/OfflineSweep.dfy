/** The sweep that raises "offline" and "agent down", and stays quiet while it is
    this computer, not the fleet, that is out of reach. */
module OfflineSweep {
  import opened Samples
  import opened Alerts

  const OFFLINE_AFTER := 45 * SECOND
  const STARTUP_GRACE := 20 * SECOND
  const OUTAGE_GRACE := 45 * SECOND
  const RECHECK := 15 * SECOND

  datatype Status = Pending | Online | HighLoad | Offline | AgentGone | Restarting | PoweredOff

  /** A restart marker: none, expired, or explaining a silence. `overdue` once the
      socket has stayed up too long for the reboot to have happened. */
  datatype Marker = NoMarker | Expired | Fresh(shows: Status, overdue: bool)

  /** A registered server as one sweep finds it. Its socket is looked at twice,
      when counting and when judging; `hostUp` is what a probe of the host would say. */
  datatype Server = Server(id: string, status: Status, lastSeen: Time, marker: Marker,
                           counted: bool, live: bool, hostUp: bool)

  /** The sweep's own fields, the local line's, and the alert engine's. */
  datatype Watch = Watch(quietUntil: Time, tailnetLost: bool, online: bool, checked: Time, engine: Engine)

  /** What one sweep meets: the clock at its start and afterwards, the servers, and
      what dialling the internet targets would answer. */
  datatype Round = Round(now: Time, later: Time, servers: seq<Server>, probe: bool)

  // ------------------------------------------------------------- one server

  function Off(id: string): Condition { Condition(id, AgentOffline, "") }

  function Down(id: string): Condition { Condition(id, AgentDown, "") }

  predicate Judged(s: Server, alertable: bool, later: Time) {
    s.status != Pending && !s.live && !s.marker.Fresh? && alertable && later - s.lastSeen > OFFLINE_AFTER
  }

  function SweepServer(e: Engine, s: Server, alertable: bool, later: Time): Engine {
    if s.status == Pending then e
    else if s.live then ClearReachability(e, s.id)
    else if !Judged(s, alertable, later) then e
    else if s.hostUp then Fire(Clear(e, Off(s.id)), Down(s.id), Critical)
    else Fire(Clear(e, Down(s.id)), Off(s.id), Critical)
  }

  /** The status the sweep leaves a server with: tied to its socket, unless a
      restart explains the silence. */
  function StatusAfter(s: Server, alertable: bool, later: Time): (r: Status)
    ensures s.status == Pending ==> r == Pending
    ensures s.status != Pending && s.live && !s.marker.Fresh? ==> r != Offline && r != AgentGone
    ensures s.status != Pending && !s.live && !s.marker.Fresh? ==> r == Offline || r == AgentGone
    ensures Judged(s, alertable, later) ==> r == if s.hostUp then AgentGone else Offline
    ensures s.status != Pending && s.marker.Fresh? ==>
      r == if s.live && s.marker.overdue then Online else s.marker.shows
    ensures s.live && !s.marker.Fresh? && s.status != Offline && s.status != AgentGone ==> r == s.status
  {
    if s.status == Pending then Pending
    else if s.live then
      if s.marker.Fresh? then (if s.marker.overdue then Online else s.marker.shows)
      else if s.status == Offline || s.status == AgentGone then Online else s.status
    else if s.marker.Fresh? then s.marker.shows
    else if Judged(s, alertable, later) then (if s.hostUp then AgentGone else Offline)
    else if s.status == Offline || s.status == AgentGone then s.status else Offline
  }

  function SweepServers(e: Engine, servers: seq<Server>, alertable: bool, later: Time): Engine {
    if servers == [] then e
    else
      var before := SweepServers(e, servers[..|servers| - 1], alertable, later);
      SweepServer(before, servers[|servers| - 1], alertable, later)
  }

  // -------------------------------------------------------------- one sweep

  function Watched(servers: seq<Server>): nat {
    if servers == [] then 0
    else Watched(servers[..|servers| - 1]) + if servers[|servers| - 1].status == Pending then 0 else 1
  }

  function Live(servers: seq<Server>): nat {
    if servers == [] then 0
    else
      var s := servers[|servers| - 1];
      Live(servers[..|servers| - 1]) + if s.status != Pending && s.counted then 1 else 0
  }

  function Hold(w: Watch, now: Time): Watch {
    if now + OUTAGE_GRACE > w.quietUntil then w.(quietUntil := now + OUTAGE_GRACE) else w
  }

  /** `LocalNet.Up`: a good answer is reused for a while, a bad one never. */
  function Dialled(w: Watch, later: Time, probe: bool): (Watch, bool) {
    if w.online && later - w.checked < RECHECK then (w, true)
    else (w.(online := probe, checked := later), probe)
  }

  datatype Outcome = Quiet | Recovered | Swept(alertable: bool)

  /** What a sweep decides before it looks at any server on its own. */
  function Assess(w: Watch, r: Round): (Watch, Outcome) {
    if r.now < w.quietUntil then (w, Quiet)
    else
      var missing := Live(r.servers) < Watched(r.servers);
      var (w1, up) := if missing || !w.online then Dialled(w, r.later, r.probe) else (w, true);
      if up && !w.online then (Hold(w1, r.later), Recovered)
      else if up && Watched(r.servers) >= 2 && Live(r.servers) == 0 then
        (w1.(tailnetLost := true), Swept(false))
      else if up && Watched(r.servers) >= 2 && w1.tailnetLost then
        (Hold(w1.(tailnetLost := false), r.later), Recovered)
      else (w1, Swept(up && !w1.tailnetLost))
  }

  function Sweep(w: Watch, r: Round): Watch {
    var (w1, o) := Assess(w, r);
    if o.Swept? then w1.(engine := SweepServers(w1.engine, r.servers, o.alertable, r.later)) else w1
  }

  class Sweeper {
    var watch: Watch

    constructor (now: Time, e: Engine)
      ensures watch == Watch(now + STARTUP_GRACE, false, true, ZERO_TIME, e)
    {
      watch := Watch(now + STARTUP_GRACE, false, true, ZERO_TIME, e);
    }

    method HoldAlerts(now: Time)
      modifies this
      ensures watch == Hold(old(watch), now)
    {
      var until := now + OUTAGE_GRACE;
      if until > watch.quietUntil {
        watch := watch.(quietUntil := until);
      }
    }

    method LineUp(later: Time, probe: bool) returns (up: bool)
      modifies this
      ensures (watch, up) == Dialled(old(watch), later, probe)
    {
      if watch.online && later - watch.checked < RECHECK {
        return true;
      }
      watch := watch.(checked := later);
      if probe != watch.online {
        watch := watch.(online := probe);
      }
      return probe;
    }

    method SweepOffline(r: Round) returns (statuses: seq<Status>)
      modifies this
      ensures watch == Sweep(old(watch), r)
      ensures var o := Assess(old(watch), r).1;
              if o.Swept? then |statuses| == |r.servers| &&
                forall i :: 0 <= i < |statuses| ==> statuses[i] == StatusAfter(r.servers[i], o.alertable, r.later)
              else statuses == []
    {
      statuses := [];
      if r.now < watch.quietUntil {
        return;
      }
      var missing, watched, live := false, 0, 0;
      for i := 0 to |r.servers|
        invariant watched == Watched(r.servers[..i]) && live == Live(r.servers[..i]) <= watched
        invariant missing <==> live < watched
      {
        assert r.servers[..i + 1][..i] == r.servers[..i];
        if r.servers[i].status == Pending {
          continue;
        }
        watched := watched + 1;
        if r.servers[i].counted {
          live := live + 1;
        } else {
          missing := true;
        }
      }
      assert r.servers[..|r.servers|] == r.servers;
      var netUp := true;
      if missing || !watch.online {
        var wasUp := watch.online;
        netUp := LineUp(r.later, r.probe);
        if netUp && !wasUp {
          HoldAlerts(r.later);
          return;
        }
      }
      if netUp && watched >= 2 {
        if live == 0 {
          watch := watch.(tailnetLost := true);
        } else if watch.tailnetLost {
          watch := watch.(tailnetLost := false);
          HoldAlerts(r.later);
          return;
        }
      }
      statuses := JudgeServers(r.servers, netUp && !watch.tailnetLost, r.later);
    }

    /** The second loop of the sweep. */
    method JudgeServers(servers: seq<Server>, alertable: bool, later: Time) returns (statuses: seq<Status>)
      modifies this
      ensures watch == old(watch).(engine := SweepServers(old(watch).engine, servers, alertable, later))
      ensures |statuses| == |servers|
      ensures forall i :: 0 <= i < |statuses| ==> statuses[i] == StatusAfter(servers[i], alertable, later)
    {
      statuses := [];
      for i := 0 to |servers|
        invariant |statuses| == i
        invariant forall j :: 0 <= j < i ==> statuses[j] == StatusAfter(servers[j], alertable, later)
        invariant watch == old(watch).(engine := SweepServers(old(watch).engine, servers[..i], alertable, later))
      {
        var s := servers[i];
        assert servers[..i + 1][..i] == servers[..i];
        statuses := statuses + [StatusAfter(s, alertable, later)];
        watch := watch.(engine := SweepServer(watch.engine, s, alertable, later));
      }
      assert servers[..|servers|] == servers;
    }
  }

  // ------------------------------------------------------- raising an alert

  predicate Reachability(c: Condition) { c.kind == AgentOffline || c.kind == AgentDown }

  /** Some reachability flag is up afterwards that was not before. */
  ghost predicate Raises(before: Engine, after: Engine) {
    exists c :: Reachability(c) && c in after.active && c !in before.active
  }

  lemma {:induction false} OnlyAlertableRaises(e: Engine, servers: seq<Server>, later: Time)
    ensures SweepServers(e, servers, false, later).active <= e.active
  {
    if servers != [] {
      OnlyAlertableRaises(e, servers[..|servers| - 1], later);
    }
  }

  /** A raise needs a sweep past the hold, with the line up and the tailnet found. */
  lemma RaiseNeedsAllClear(w: Watch, r: Round)
    requires Raises(w.engine, Sweep(w, r).engine)
    ensures r.now >= w.quietUntil && Assess(w, r).1 == Swept(true)
    ensures w.online && !w.tailnetLost
  {
    var (w1, o) := Assess(w, r);
    if o.Swept? && !o.alertable {
      OnlyAlertableRaises(w1.engine, r.servers, r.later);
    }
  }

  /** A hold lasts 45 seconds from now, or as long as it would have anyway. */
  lemma HoldExactly(w: Watch, now: Time)
    ensures Hold(w, now).quietUntil == if now + 45 * SECOND > w.quietUntil then now + 45 * SECOND else w.quietUntil
    ensures Hold(w, now).(quietUntil := w.quietUntil) == w
  {
  }

  /** What is raised for a server is a critical row. */
  lemma RaisedRow(e: Engine, s: Server, later: Time)
    requires Judged(s, true, later) && Due(s) !in e.active
    ensures var rows := SweepServer(e, s, true, later).rows;
      rows != [] && var a := rows[|rows| - 1];
      a.about == Due(s) && a.severity == Critical && !a.resolved
  {
    FireAdds(Clear(e, if s.hostUp then Off(s.id) else Down(s.id)), Due(s), Critical);
  }

  // ------------------------------------------------------ when a sweep judges

  predicate Missing(s: Server) { s.status != Pending && !s.counted }

  predicate There(s: Server) { s.status != Pending && s.counted }

  /** The counts say whether any watched server is missing, and whether any is there. */
  lemma {:induction false} CountsMean(servers: seq<Server>)
    ensures 0 <= Live(servers) <= Watched(servers) <= |servers|
    ensures Live(servers) < Watched(servers) <==> exists i :: 0 <= i < |servers| && Missing(servers[i])
    ensures Live(servers) > 0 <==> exists i :: 0 <= i < |servers| && There(servers[i])
    ensures (forall i :: 0 <= i < |servers| ==> servers[i].status != Pending) ==> Watched(servers) == |servers|
  {
    if servers != [] {
      var n := |servers| - 1;
      CountsMean(servers[..n]);
      assert forall i :: 0 <= i < n ==> servers[i] == servers[..n][i];
    }
  }

  /** The line answers that it is up exactly if a good answer is under fifteen seconds old, or it is
      probed and is; the last answer is remembered. */
  lemma LineAnswers(w: Watch, later: Time, probe: bool)
    ensures Dialled(w, later, probe).1 <==> (w.online && later - w.checked < 15 * SECOND) || probe
    ensures Dialled(w, later, probe).0.online == Dialled(w, later, probe).1
    ensures Dialled(w, later, probe).0.checked ==
      if w.online && later - w.checked < 15 * SECOND then w.checked else later
  {
  }

  /** A sweep judges its servers exactly past the hold, with the line last known up, and answering if any
      server is missing, the tailnet not lost, and not all of two or more missing. */
  lemma JudgesExactly(w: Watch, r: Round)
    ensures Assess(w, r).1 == Swept(true) <==>
      && r.now >= w.quietUntil && w.online && !w.tailnetLost
      && (Live(r.servers) < Watched(r.servers) ==> Dialled(w, r.later, r.probe).1)
      && !(Watched(r.servers) >= 2 && Live(r.servers) == 0)
  {
  }

  /** A server is judged out exactly if it is watched, not connected, not restarting, and was last heard
      from more than 45 seconds ago. */
  lemma JudgedExactly(s: Server, later: Time)
    ensures Judged(s, true, later) <==>
      s.status != Pending && !s.live && !s.marker.Fresh? && s.lastSeen + 45 * SECOND < later
  {
  }

  // ------------------------------------------------- what a sweep does to flags

  ghost predicate DistinctIds(servers: seq<Server>) {
    forall i, j :: 0 <= i < j < |servers| ==> servers[i].id != servers[j].id
  }

  /** Both reachability flags of a server are as they were. */
  ghost predicate FlagsKept(e: Engine, e': Engine, id: string) {
    && (Off(id) in e'.active <==> Off(id) in e.active)
    && (Down(id) in e'.active <==> Down(id) in e.active)
  }

  ghost predicate FlagsAre(e: Engine, id: string, off: bool, down: bool) {
    (Off(id) in e.active <==> off) && (Down(id) in e.active <==> down)
  }

  /** A connected server ends with neither flag, one judged to be out with exactly the one its host calls
      for, and any other with those it had. */
  ghost predicate SweptFlags(e: Engine, e': Engine, s: Server, alertable: bool, later: Time) {
    if s.status != Pending && s.live then FlagsAre(e', s.id, false, false)
    else if Judged(s, alertable, later) then FlagsAre(e', s.id, !s.hostUp, s.hostUp)
    else FlagsKept(e, e', s.id)
  }

  lemma SweepOne(e: Engine, s: Server, alertable: bool, later: Time, id: string)
    ensures var e' := SweepServer(e, s, alertable, later);
      if id == s.id then SweptFlags(e, e', s, alertable, later) else FlagsKept(e, e', id)
  {
  }

  lemma {:induction false} SweepOthers(e: Engine, servers: seq<Server>, alertable: bool, later: Time, id: string)
    requires forall i :: 0 <= i < |servers| ==> servers[i].id != id
    ensures FlagsKept(e, SweepServers(e, servers, alertable, later), id)
  {
    if servers != [] {
      var n := |servers| - 1;
      SweepOthers(e, servers[..n], alertable, later, id);
      SweepOne(SweepServers(e, servers[..n], alertable, later), servers[n], alertable, later, id);
    }
  }

  lemma {:induction false} SweepEach(e: Engine, servers: seq<Server>, alertable: bool, later: Time, k: nat)
    requires DistinctIds(servers) && k < |servers|
    ensures SweptFlags(e, SweepServers(e, servers, alertable, later), servers[k], alertable, later)
    decreases |servers|
  {
    var n := |servers| - 1;
    var before := SweepServers(e, servers[..n], alertable, later);
    if k == n {
      SweepOthers(e, servers[..n], alertable, later, servers[n].id);
    } else {
      SweepEach(e, servers[..n], alertable, later, k);
    }
    SweepOne(before, servers[n], alertable, later, servers[k].id);
  }

  /** The flag a judged server is to have. */
  function Due(s: Server): Condition {
    if s.hostUp then Down(s.id) else Off(s.id)
  }

  ghost predicate NewlyDue(e: Engine, servers: seq<Server>, later: Time, k: nat) {
    k < |servers| && Judged(servers[k], true, later) && Due(servers[k]) !in e.active
  }

  lemma OthersAlone(e: Engine, s: Server, alertable: bool, later: Time, c: Condition)
    requires Reachability(c) && c != Off(s.id) && c != Down(s.id)
    ensures c in SweepServer(e, s, alertable, later).active <==> c in e.active
  {
  }

  /** A flag that came up belongs to a server that was swept. */
  lemma {:induction false} RaisedFor(e: Engine, servers: seq<Server>, alertable: bool, later: Time, c: Condition)
      returns (k: nat)
    requires Reachability(c) && c !in e.active && c in SweepServers(e, servers, alertable, later).active
    ensures k < |servers| && (c == Off(servers[k].id) || c == Down(servers[k].id))
  {
    k := 0;
    if servers != [] {
      var n := |servers| - 1;
      var before := SweepServers(e, servers[..n], alertable, later);
      if c in before.active {
        k := RaisedFor(e, servers[..n], alertable, later, c);
      } else {
        k := n;
        if c != Off(servers[n].id) && c != Down(servers[n].id) {
          OthersAlone(before, servers[n], alertable, later, c);
        }
      }
    }
  }

  /** When a sweep raises a reachability alert: exactly if it gets past the hold with the line up and the
      tailnet found, and some server is judged to be out whose flag is not up already. */
  lemma RaisesExactly(w: Watch, r: Round)
    requires DistinctIds(r.servers)
    ensures Raises(w.engine, Sweep(w, r).engine) <==>
      Assess(w, r).1 == Swept(true) && exists k: nat :: NewlyDue(w.engine, r.servers, r.later, k)
  {
    var e, e' := w.engine, Sweep(w, r).engine;
    if Raises(e, e') {
      RaiseNeedsAllClear(w, r);
      var c :| Reachability(c) && c in e'.active && c !in e.active;
      var k := RaisedFor(e, r.servers, true, r.later, c);
      SweepEach(e, r.servers, true, r.later, k);
      assert NewlyDue(e, r.servers, r.later, k);
    }
    if Assess(w, r).1 == Swept(true) {
      if k: nat :| NewlyDue(e, r.servers, r.later, k) {
        SweepEach(e, r.servers, true, r.later, k);
        assert Reachability(Due(r.servers[k])) && Due(r.servers[k]) in e'.active;
      }
    }
  }

  // ------------------------------------------------------------------- runs

  /** A sweep, a wake-up from sleep, or anything that touches other alerts only. */
  datatype Event = Sweeping(r: Round) | Woke(now: Time) | Elsewhere(e: Engine)

  function Step(w: Watch, e: Event): Watch {
    match e
    case Sweeping(r) => Sweep(w, r)
    case Woke(now) => Hold(w, now)
    case Elsewhere(engine) => w.(engine := engine)
  }

  ghost predicate Allowed(w: Watch, e: Event) {
    match e
    case Sweeping(r) => r.now <= r.later
    case Woke(_) => true
    case Elsewhere(engine) => forall c :: Reachability(c) ==> (c in w.engine.active <==> c in engine.active)
  }

  ghost predicate StepAt(ws: seq<Watch>, es: seq<Event>, i: nat)
    requires i < |es| && |ws| == |es| + 1
  {
    Allowed(ws[i], es[i]) && ws[i + 1] == Step(ws[i], es[i])
  }

  ghost predicate Run(ws: seq<Watch>, es: seq<Event>) {
    |ws| == |es| + 1 && forall i :: 0 <= i < |es| ==> StepAt(ws, es, i)
  }

  /** This computer is known to be cut off: its line, or its tailnet. */
  predicate Outage(w: Watch) { !w.online || w.tailnetLost }

  /** A sweep that looked and found the line down, or all of two or more servers missing. */
  predicate SawOutage(w: Watch, r: Round) {
    && r.now >= w.quietUntil
    && (|| ((Live(r.servers) < Watched(r.servers) || !w.online) && !Dialled(w, r.later, r.probe).1)
        || (Watched(r.servers) >= 2 && Live(r.servers) == 0))
  }

  /** The sweep noticed the way back and started the grace. */
  predicate Recovers(w: Watch, e: Event) {
    e.Sweeping? && Assess(w, e.r).1 == Recovered
  }

  /** The hold deadline never moves back. */
  lemma HoldOnlyExtends(w: Watch, e: Event)
    ensures w.quietUntil <= Step(w, e).quietUntil
    ensures Recovers(w, e) ==> Step(w, e).quietUntil >= e.r.later + OUTAGE_GRACE
    ensures e.Woke? ==> Step(w, e).quietUntil >= e.now + OUTAGE_GRACE
  {
  }

  /** An outage ends only in a sweep that starts the grace. */
  lemma OutageEndsInGrace(w: Watch, e: Event)
    requires Outage(w) && !Recovers(w, e)
    ensures Outage(Step(w, e))
  {
  }

  lemma SeenMeansOutage(w: Watch, r: Round)
    requires SawOutage(w, r) && !Recovers(w, Sweeping(r))
    ensures Outage(Sweep(w, r))
  {
  }

  lemma {:induction false} HoldReaches(ws: seq<Watch>, es: seq<Event>, k: nat, n: nat)
    requires Run(ws, es) && k <= n <= |es|
    ensures ws[k].quietUntil <= ws[n].quietUntil
    decreases n
  {
    if k < n {
      HoldReaches(ws, es, k, n - 1);
      assert StepAt(ws, es, n - 1);
      HoldOnlyExtends(ws[n - 1], es[n - 1]);
    }
  }

  /** From an outage at step m on, either it still lasts or some sweep recovered. */
  lemma {:induction false} OutageOrRecovery(ws: seq<Watch>, es: seq<Event>, m: nat, n: nat) returns (k: nat)
    requires Run(ws, es) && m <= n <= |es| && Outage(ws[m])
    ensures Outage(ws[n]) || (m <= k < n && Recovers(ws[k], es[k]))
    decreases n
  {
    k := m;
    if m < n {
      k := OutageOrRecovery(ws, es, m, n - 1);
      assert StepAt(ws, es, n - 1);
      if Outage(ws[n - 1]) {
        if Recovers(ws[n - 1], es[n - 1]) {
          k := n - 1;
        } else {
          OutageEndsInGrace(ws[n - 1], es[n - 1]);
        }
      }
    }
  }

  /** Quiet after a local outage: once a sweep (step i) has found the line down, or
      two or more watched servers all missing, any later raise (step j) comes the
      full grace after a sweep that saw the recovery. */
  lemma QuietAfterOutage(ws: seq<Watch>, es: seq<Event>, i: nat, j: nat) returns (k: nat)
    requires Run(ws, es) && i < j < |es| && es[i].Sweeping? && SawOutage(ws[i], es[i].r)
    requires es[j].Sweeping? && Raises(ws[j].engine, ws[j + 1].engine)
    ensures i <= k < j && Recovers(ws[k], es[k])
    ensures es[j].r.now >= es[k].r.later + OUTAGE_GRACE
  {
    assert StepAt(ws, es, i) && StepAt(ws, es, j);
    RaiseNeedsAllClear(ws[j], es[j].r);
    k := i;
    if !Recovers(ws[i], es[i]) {
      SeenMeansOutage(ws[i], es[i].r);
      k := OutageOrRecovery(ws, es, i + 1, j);
    }
    assert StepAt(ws, es, k);
    HoldOnlyExtends(ws[k], es[k]);
    HoldReaches(ws, es, k + 1, j);
  }

  /** No reachability alert is raised before the hold deadline, start-up included. */
  lemma NoRaiseBeforeHold(ws: seq<Watch>, es: seq<Event>, i: nat, j: nat)
    requires Run(ws, es) && i <= j < |es| && Raises(ws[j].engine, ws[j + 1].engine)
    ensures es[j].Sweeping? && es[j].r.now >= ws[i].quietUntil
  {
    assert StepAt(ws, es, j);
    if es[j].Sweeping? {
      RaiseNeedsAllClear(ws[j], es[j].r);
      HoldReaches(ws, es, i, j);
    }
  }

  // -------------------------------------------------------- one or the other

  ghost predicate NeverBoth(e: Engine) {
    forall id :: !(Off(id) in e.active && Down(id) in e.active)
  }

  lemma {:induction false} SweepNeverBoth(e: Engine, servers: seq<Server>, alertable: bool, later: Time)
    requires NeverBoth(e)
    ensures NeverBoth(SweepServers(e, servers, alertable, later))
  {
    if servers != [] {
      SweepNeverBoth(e, servers[..|servers| - 1], alertable, later);
    }
  }

  /** Offline and agent-down are never both up for one server. */
  lemma {:induction false} OneReachabilityAlert(ws: seq<Watch>, es: seq<Event>, n: nat)
    requires Run(ws, es) && n <= |es| && NeverBoth(ws[0].engine)
    ensures NeverBoth(ws[n].engine)
  {
    if n > 0 {
      OneReachabilityAlert(ws, es, n - 1);
      assert StepAt(ws, es, n - 1);
      var w, e := ws[n - 1], es[n - 1];
      match e
      case Sweeping(r) =>
        var o := Assess(w, r).1;
        if o.Swept? { SweepNeverBoth(w.engine, r.servers, o.alertable, r.later); }
      case Woke(_) =>
      case Elsewhere(engine) =>
        forall id ensures Reachability(Off(id)) && Reachability(Down(id)) {}
    }
  }

  // ------------------------------------------------------------ stuck quiet

  /** The sweep that ends a lost tailnet: past the hold, the line known to be up and answering if
      anything is missing, and at least one of two or more watched servers there. */
  predicate Finds(w: Watch, r: Round) {
    && r.now >= w.quietUntil && w.online && Watched(r.servers) >= 2 && Live(r.servers) > 0
    && (Live(r.servers) < Watched(r.servers) ==> Dialled(w, r.later, r.probe).1)
  }

  predicate FindsAt(ws: seq<Watch>, es: seq<Event>, i: nat) {
    i < |es| && i < |ws| && es[i].Sweeping? && Finds(ws[i], es[i].r)
  }

  /** A lost tailnet is given up in exactly those sweeps. */
  lemma TailnetFound(w: Watch, e: Event)
    requires w.tailnetLost
    ensures Step(w, e).tailnetLost <==> !(e.Sweeping? && Finds(w, e.r))
  {
  }

  ghost predicate NoneFinds(ws: seq<Watch>, es: seq<Event>, m: nat, n: nat) {
    forall i: nat :: m <= i < n ==> !FindsAt(ws, es, i)
  }

  ghost predicate LostFrom(ws: seq<Watch>, m: nat, n: nat) {
    forall i :: m <= i <= n && i < |ws| ==> ws[i].tailnetLost
  }

  /** The tailnet counts as lost from step m to step n exactly if no sweep between them finds it. */
  lemma {:induction false} LostExactly(ws: seq<Watch>, es: seq<Event>, m: nat, n: nat)
    requires Run(ws, es) && m <= n <= |es| && ws[m].tailnetLost
    ensures LostFrom(ws, m, n) <==> NoneFinds(ws, es, m, n)
    decreases n
  {
    if m < n {
      LostExactly(ws, es, m, n - 1);
      assert StepAt(ws, es, n - 1);
      assert NoneFinds(ws, es, m, n) <==> NoneFinds(ws, es, m, n - 1) && !FindsAt(ws, es, n - 1);
      assert LostFrom(ws, m, n) <==> LostFrom(ws, m, n - 1) && ws[n].tailnetLost;
      if ws[n - 1].tailnetLost {
        TailnetFound(ws[n - 1], es[n - 1]);
      }
    }
  }

  /** And until then no reachability alert is raised. */
  lemma SilentWhileLost(ws: seq<Watch>, es: seq<Event>, m: nat, n: nat)
    requires Run(ws, es) && m <= n < |es| && ws[m].tailnetLost && NoneFinds(ws, es, m, n)
    ensures !Raises(ws[n].engine, ws[n + 1].engine)
  {
    LostExactly(ws, es, m, n);
    assert StepAt(ws, es, n);
    if Raises(ws[n].engine, ws[n + 1].engine) && es[n].Sweeping? {
      RaiseNeedsAllClear(ws[n], es[n].r);
    }
  }

  /** With the tailnet given up and never two servers to watch again, no
      reachability alert is ever raised, whatever happens to the server left. */
  lemma LoneServerStaysSilent(ws: seq<Watch>, es: seq<Event>, m: nat, n: nat)
    requires Run(ws, es) && m <= n < |es| && ws[m].tailnetLost
    requires forall i :: m <= i < n && es[i].Sweeping? ==> Watched(es[i].r.servers) < 2
    ensures ws[n].tailnetLost && !Raises(ws[n].engine, ws[n + 1].engine)
  {
    LostExactly(ws, es, m, n);
    SilentWhileLost(ws, es, m, n);
  }

  lemma OneServer(s: Server)
    ensures [s][..0] == []
    ensures Watched([s]) == (if s.status == Pending then 0 else 1)
    ensures Live([s]) == (if s.status != Pending && s.counted then 1 else 0)
  {
  }

  lemma TwoServers(s: Server, t: Server)
    requires s.status == t.status == Online && !s.counted && !t.counted
    ensures Watched([s, t]) == 2 && Live([s, t]) == 0
  {
    assert [s, t][..1] == [s];
    OneServer(s);
  }

  /** It happens: both of two servers go missing, one is deleted, and the other, an hour later still
      gone with the line up, is not reported; without the earlier loss the same sweep reports it. */
  lemma DeletedServerSilencesTheOther(t: Time) returns (ws: seq<Watch>, es: seq<Event>)
    requires t > ZERO_TIME + RECHECK
    ensures Run(ws, es) && |es| == 2 && es[0].Sweeping? && es[1].Sweeping?
    ensures !ws[0].tailnetLost && Watched(es[0].r.servers) == 2 && Watched(es[1].r.servers) == 1
    ensures !Raises(ws[1].engine, ws[2].engine)
    ensures Raises(ws[1].engine, Sweep(ws[1].(tailnetLost := false), es[1].r).engine)
  {
    var a := Server("a", Online, t, NoMarker, false, false, false);
    var b := a.(id := "b");
    var both, left := Round(t, t, [a, b], true), Round(t + HOUR, t + HOUR, [a], true);
    var w0 := Watch(t, false, true, ZERO_TIME, Engine({}, [], 0));
    es := [Sweeping(both), Sweeping(left)];
    ws := [w0, Sweep(w0, both), Sweep(Sweep(w0, both), left)];
    TwoServers(a, b);
    OneServer(a);
    assert Assess(w0, both) == (Watch(t, true, true, t, w0.engine), Swept(false));
    OnlyAlertableRaises(w0.engine, [a, b], t);
    assert StepAt(ws, es, 0) && StepAt(ws, es, 1);
    SilentWhileLost(ws, es, 1, 1);
    var w1 := ws[1].(tailnetLost := false);
    assert Assess(w1, left).1 == Swept(true);
    assert SweepServers(w1.engine, [a], true, t + HOUR) ==
           SweepServer(SweepServers(w1.engine, [], true, t + HOUR), a, true, t + HOUR);
    assert Off("a") in Sweep(w1, left).engine.active && Reachability(Off("a"));
  }
}
