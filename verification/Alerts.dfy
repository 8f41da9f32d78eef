/** The alert engine's `active` flags kept beside the store's rows. */
module Alerts {
  import opened Base

  const MAX_ALERTS := 500

  datatype Kind =
    | CpuHigh | MemHigh | DiskHigh | ServiceDown | DockerCrash | ProxyError | CertExpiring
    | AgentOffline | AgentDown | PluginMetric | Plugin

  /** What an alert is about. The engine keys its flags by `Flag`. */
  datatype Condition = Condition(vps: string, kind: Kind, key: string)

  datatype Severity = Warning | Critical

  /** A row of the store. */
  datatype Alert = Alert(id: nat, about: Condition, severity: Severity, resolved: bool)

  /** `nextId` stands for the store's source of fresh row ids. */
  datatype Engine = Engine(active: set<Condition>, rows: seq<Alert>, nextId: nat)

  // ------------------------------------------------------------------- keys

  function KindName(k: Kind): string {
    match k
    case CpuHigh => "cpu_high"
    case MemHigh => "mem_high"
    case DiskHigh => "disk_high"
    case ServiceDown => "service_down"
    case DockerCrash => "docker_crash"
    case ProxyError => "proxy_error"
    case CertExpiring => "cert_expiring"
    case AgentOffline => "agent_offline"
    case AgentDown => "agent_down"
    case PluginMetric => "plugin_metric"
    case Plugin => "plugin"
  }

  function Flag(c: Condition): string {
    c.vps + "|" + KindName(c.kind) + "|" + c.key
  }

  lemma {:induction false} SplitAtBar(a: string, b: string, x: string, y: string)
    requires '|' !in a && '|' !in b && a + "|" + x == b + "|" + y
    ensures a == b && x == y
  {
    var s, t := a + "|" + x, b + "|" + y;
    assert s[|a|] == '|' && t[|b|] == '|';
    assert s[..|a|] == a && t[..|b|] == b;
    assert s[|a| + 1..] == x && t[|b| + 1..] == y;
  }

  lemma KindNamePlain(k: Kind)
    ensures '|' !in KindName(k)
  {
  }

  /** Length and first letter tell the names apart. */
  function KindMark(k: Kind): (int, char) {
    match k
    case CpuHigh => (8, 'c')
    case MemHigh => (8, 'm')
    case DiskHigh => (9, 'd')
    case ServiceDown => (12, 's')
    case DockerCrash => (12, 'd')
    case ProxyError => (11, 'p')
    case CertExpiring => (13, 'c')
    case AgentOffline => (13, 'a')
    case AgentDown => (10, 'a')
    case PluginMetric => (13, 'p')
    case Plugin => (6, 'p')
  }

  lemma KindMarked(k: Kind)
    ensures KindName(k) != "" && (|KindName(k)|, KindName(k)[0]) == KindMark(k)
  {
  }

  lemma KindNamesDiffer(k: Kind, l: Kind)
    requires KindName(k) == KindName(l)
    ensures k == l
  {
    KindMarked(k);
    KindMarked(l);
  }

  lemma FlagParts(c: Condition)
    ensures Flag(c) == c.vps + "|" + (KindName(c.kind) + "|" + c.key)
  {
    Regrouped(c.vps, KindName(c.kind), c.key);
  }

  lemma Regrouped(a: string, b: string, c: string)
    ensures a + "|" + b + "|" + c == a + "|" + (b + "|" + c)
  {
  }

  /** The flags tell any two conditions apart, server ids holding no bar. */
  lemma FlagsAreUnique(c: Condition, d: Condition)
    requires '|' !in c.vps && '|' !in d.vps && Flag(c) == Flag(d)
    ensures c == d
  {
    KindNamePlain(c.kind);
    KindNamePlain(d.kind);
    FlagParts(c);
    FlagParts(d);
    SplitAtBar(c.vps, d.vps, KindName(c.kind) + "|" + c.key, KindName(d.kind) + "|" + d.key);
    SplitAtBar(KindName(c.kind), KindName(d.kind), c.key, d.key);
    KindNamesDiffer(c.kind, d.kind);
  }

  // ------------------------------------------------------------- operations

  predicate Open(a: Alert, c: Condition) { !a.resolved && a.about == c }

  /** The rows `ResolveAlertsFor` keeps. */
  function Others(rows: seq<Alert>, c: Condition): (r: seq<Alert>)
    ensures |r| <= |rows|
  {
    if rows == [] then []
    else
      var r := Others(rows[..|rows| - 1], c);
      if Open(rows[|rows| - 1], c) then r else r + [rows[|rows| - 1]]
  }

  /** The rows it hands back, marked resolved. */
  function Matching(rows: seq<Alert>, c: Condition): seq<Alert> {
    if rows == [] then []
    else
      var r := Matching(rows[..|rows| - 1], c);
      var a := rows[|rows| - 1];
      if Open(a, c) then r + [a.(resolved := true)] else r
  }

  function Fire(e: Engine, c: Condition, sev: Severity): Engine {
    if c in e.active then e
    else Engine(e.active + {c}, Newest(e.rows + [Alert(e.nextId, c, sev, false)], MAX_ALERTS), e.nextId + 1)
  }

  /** A new condition is flagged and becomes an open row with its severity at the end; rows go only from
      the front, and only over the cap. One that is flagged already changes nothing. */
  lemma FireAdds(e: Engine, c: Condition, sev: Severity)
    ensures c in e.active ==> Fire(e, c, sev) == e
    ensures c !in e.active ==>
      var f := Fire(e, c, sev);
      && f.active == e.active + {c} && 0 < |f.rows| <= |e.rows| + 1
      && f.rows[|f.rows| - 1] == Alert(e.nextId, c, sev, false)
      && (forall i :: 0 <= i < |f.rows| - 1 ==> f.rows[i] == e.rows[|e.rows| + 1 - |f.rows| + i])
      && (|e.rows| < 500 ==> |f.rows| == |e.rows| + 1) && (|e.rows| >= 500 ==> |f.rows| == 500)
  {
  }

  function Clear(e: Engine, c: Condition): Engine {
    if c !in e.active then e else e.(active := e.active - {c}, rows := Others(e.rows, c))
  }

  function ClearReachability(e: Engine, vps: string): Engine {
    var off, down := Condition(vps, AgentOffline, ""), Condition(vps, AgentDown, "");
    e.(active := e.active - {off} - {down}, rows := Others(Others(e.rows, off), down))
  }

  function DropById(rows: seq<Alert>, id: nat): seq<Alert> {
    if rows == [] then []
    else if rows[0].id == id then rows[1..]
    else [rows[0]] + DropById(rows[1..], id)
  }

  /** The user dismissing a row: the flag is not touched. */
  function Dismiss(e: Engine, id: nat): Engine {
    e.(rows := DropById(e.rows, id))
  }

  /** Rows of a kind no longer alerted on are resolved without looking at flags. */
  function DropLegacy(e: Engine, vps: string): Engine {
    e.(rows := Others(e.rows, Condition(vps, ServiceDown, "")))
  }

  /** `ResolveAlertsFor` as it runs: the slice filtered over its own storage. */
  method FilterInPlace(rows: array<Alert>, c: Condition) returns (kept: nat, changed: seq<Alert>)
    modifies rows
    ensures kept <= rows.Length && rows[..kept] == Others(old(rows[..]), c)
    ensures changed == Matching(old(rows[..]), c)
    ensures changed == [] ==> kept == rows.Length && rows[..] == old(rows[..])
  {
    kept, changed := 0, [];
    ghost var was := rows[..];
    for i := 0 to rows.Length
      invariant kept <= i && |changed| + kept == i
      invariant rows[..kept] == Others(was[..i], c) && changed == Matching(was[..i], c)
      invariant rows[i..] == was[i..]
      invariant changed == [] ==> rows[..] == was
    {
      var a := rows[i];
      assert was[..i + 1][..i] == was[..i] && a == was[i];
      if !Open(a, c) {
        rows[kept] := a;
        kept := kept + 1;
      } else {
        changed := changed + [a.(resolved := true)];
      }
      assert rows[i + 1..] == was[i + 1..];
    }
    assert was[..rows.Length] == was;
  }

  lemma {:induction false} OthersMembers(rows: seq<Alert>, c: Condition)
    ensures forall a :: a in Others(rows, c) <==> a in rows && !Open(a, c)
  {
    if rows != [] {
      OthersMembers(rows[..|rows| - 1], c);
      assert rows == rows[..|rows| - 1] + [rows[|rows| - 1]];
    }
  }

  ghost predicate Rising(at: seq<nat>) {
    forall i, j :: 0 <= i < j < |at| ==> at[i] < at[j]
  }

  /** The rows kept stand in the order they had, and with those handed back, resolved, they are all. */
  lemma {:induction false} OthersInOrder(rows: seq<Alert>, c: Condition) returns (at: seq<nat>)
    ensures |at| == |Others(rows, c)| && Rising(at)
    ensures forall i :: 0 <= i < |at| ==> at[i] < |rows| && Others(rows, c)[i] == rows[at[i]]
    ensures |Others(rows, c)| + |Matching(rows, c)| == |rows|
    ensures forall a :: a in Matching(rows, c) ==> a.resolved && a.about == c && a.(resolved := false) in rows
  {
    at := [];
    if rows != [] {
      var n := |rows| - 1;
      assert rows == rows[..n] + [rows[n]];
      at := OthersInOrder(rows[..n], c);
      if !Open(rows[n], c) {
        at := at + [n];
      } else {
        assert rows[n].(resolved := true).(resolved := false) == rows[n];
      }
    }
  }

  /** Clearing takes the flag and the open rows of one condition, and nothing else. */
  lemma ClearTakes(e: Engine, c: Condition)
    requires c in e.active
    ensures Clear(e, c).active == e.active - {c}
    ensures forall a :: a in Clear(e, c).rows <==> a in e.rows && (a.resolved || a.about != c)
  {
    OthersMembers(e.rows, c);
  }

  // -------------------------------------------------------------- invariant

  ghost predicate NoTwoOpen(rows: seq<Alert>) {
    forall i, j :: 0 <= i < j < |rows| && !rows[i].resolved && !rows[j].resolved ==> rows[i].about != rows[j].about
  }

  ghost predicate Flagged(rows: seq<Alert>, active: set<Condition>) {
    forall a :: a in rows && !a.resolved ==> a.about in active
  }

  /** Every open row is flagged, and no two open rows are about the same thing. */
  ghost predicate Agrees(e: Engine) {
    Flagged(e.rows, e.active) && NoTwoOpen(e.rows)
  }

  lemma {:induction false} OthersNoTwo(rows: seq<Alert>, c: Condition)
    requires NoTwoOpen(rows)
    ensures NoTwoOpen(Others(rows, c))
  {
    if rows != [] {
      var init, a := rows[..|rows| - 1], rows[|rows| - 1];
      OthersNoTwo(init, c);
      OthersMembers(init, c);
      var r := Others(init, c);
      if !Open(a, c) && !a.resolved {
        forall i | 0 <= i < |r| && !r[i].resolved ensures r[i].about != a.about {
          assert r[i] in init;
        }
      }
    }
  }

  lemma FireAgrees(e: Engine, c: Condition, sev: Severity)
    requires Agrees(e)
    ensures Agrees(Fire(e, c, sev))
  {
    if c !in e.active {
      var all := e.rows + [Alert(e.nextId, c, sev, false)];
      forall i | 0 <= i < |e.rows| && !e.rows[i].resolved ensures e.rows[i].about != c {
        assert e.rows[i] in e.rows;
      }
      assert NoTwoOpen(all) && Flagged(all, e.active + {c});
    }
  }

  lemma OthersAgree(rows: seq<Alert>, active: set<Condition>, c: Condition)
    requires Flagged(rows, active) && NoTwoOpen(rows)
    ensures Flagged(Others(rows, c), active - {c}) && NoTwoOpen(Others(rows, c))
  {
    OthersMembers(rows, c);
    OthersNoTwo(rows, c);
  }

  lemma {:induction false} DropAgrees(rows: seq<Alert>, active: set<Condition>, id: nat)
    requires Flagged(rows, active) && NoTwoOpen(rows)
    ensures Flagged(DropById(rows, id), active) && NoTwoOpen(DropById(rows, id))
    ensures forall a :: a in DropById(rows, id) ==> a in rows
  {
    if rows != [] {
      var rest := rows[1..];
      assert rows == [rows[0]] + rest;
      if rows[0].id != id {
        DropAgrees(rest, active, id);
        var r := DropById(rest, id);
        forall i | 0 <= i < |r| && !r[i].resolved && !rows[0].resolved ensures r[i].about != rows[0].about {
          assert r[i] in rest;
        }
      }
    }
  }

  // ------------------------------------------------------------------- runs

  datatype Op =
    | Fired(c: Condition, sev: Severity)
    | Cleared(c: Condition)
    | ReachabilityCleared(vps: string)
    | Dismissed(id: nat)
    | LegacyDropped(vps: string)

  function Step(e: Engine, op: Op): Engine {
    match op
    case Fired(c, sev) => Fire(e, c, sev)
    case Cleared(c) => Clear(e, c)
    case ReachabilityCleared(vps) => ClearReachability(e, vps)
    case Dismissed(id) => Dismiss(e, id)
    case LegacyDropped(vps) => DropLegacy(e, vps)
  }

  function After(e: Engine, ops: seq<Op>): Engine {
    if ops == [] then e else Step(After(e, ops[..|ops| - 1]), ops[|ops| - 1])
  }

  lemma StepAgrees(e: Engine, op: Op)
    requires Agrees(e)
    ensures Agrees(Step(e, op))
  {
    match op
    case Fired(c, sev) => FireAgrees(e, c, sev);
    case Cleared(c) => OthersAgree(e.rows, e.active, c);
    case ReachabilityCleared(vps) =>
      var off, down := Condition(vps, AgentOffline, ""), Condition(vps, AgentDown, "");
      OthersAgree(e.rows, e.active, off);
      OthersAgree(Others(e.rows, off), e.active - {off}, down);
    case Dismissed(id) => DropAgrees(e.rows, e.active, id);
    case LegacyDropped(vps) => OthersAgree(e.rows, e.active, Condition(vps, ServiceDown, ""));
  }

  /** The index agrees with the store through every run of alerts raised and
      cleared, rows dismissed, and rows pushed out past the cap. */
  lemma {:induction false} IndexAgreesWithStore(e: Engine, ops: seq<Op>)
    requires Agrees(e)
    ensures Agrees(After(e, ops))
  {
    if ops != [] {
      IndexAgreesWithStore(e, ops[..|ops| - 1]);
      StepAgrees(After(e, ops[..|ops| - 1]), ops[|ops| - 1]);
    }
  }

  /** Dropping a row by its id takes the first one that has it. */
  lemma DropsIt(rows: seq<Alert>, i: nat)
    requires i < |rows| && forall j :: 0 <= j < i ==> rows[j].id != rows[i].id
    ensures DropById(rows, rows[i].id) == rows[..i] + rows[i + 1..] == Without(rows, i)
  {
    DropsBetween(rows, rows[..i], rows[i], rows[i + 1..]);
    WithoutIs(rows, i);
  }

  lemma DropsBetween(rows: seq<Alert>, head: seq<Alert>, a: Alert, tail: seq<Alert>)
    requires |head| < |rows| && head == rows[..|head|] && a == rows[|head|] && tail == rows[|head| + 1..]
    requires forall j :: 0 <= j < |head| ==> head[j].id != a.id
    ensures DropById(rows, a.id) == head + tail
  {
    Parted(rows, |head|);
    DropAtSeam(head, a, tail);
  }

  lemma {:induction false} DropAtSeam(head: seq<Alert>, a: Alert, tail: seq<Alert>)
    requires forall j :: 0 <= j < |head| ==> head[j].id != a.id
    ensures DropById(head + [a] + tail, a.id) == head + tail
  {
    var all := head + [a] + tail;
    if head == [] {
      assert all[1..] == tail;
    } else {
      assert all[1..] == head[1..] + [a] + tail;
      DropAtSeam(head[1..], a, tail);
      Reattach(head, tail);
    }
  }

  lemma Reattach(head: seq<Alert>, tail: seq<Alert>)
    requires head != []
    ensures [head[0]] + (head[1..] + tail) == head + tail
  {
  }

  // ----------------------------------------------------- the engine in place

  function Unresolved(rows: seq<Alert>): seq<Alert> {
    if rows == [] then []
    else
      var r := Unresolved(rows[..|rows| - 1]);
      if rows[|rows| - 1].resolved then r else r + [rows[|rows| - 1]]
  }

  ghost predicate UniqueIds(rows: seq<Alert>) {
    forall i, j :: 0 <= i < j < |rows| ==> rows[i].id != rows[j].id
  }

  /** What a restarted backend starts from: the open rows it still alerts on, all flagged. */
  ghost predicate AdoptedFrom(stored: seq<Alert>, e: Engine) {
    && (forall a :: a in e.rows <==> a in stored && !a.resolved && a.about.kind != ServiceDown)
    && (forall c :: c in e.active <==> exists a :: a in e.rows && a.about == c)
  }

  function Abouts(rows: seq<Alert>): set<Condition> {
    set a | a in rows :: a.about
  }

  lemma Adopted(stored: seq<Alert>, listed: seq<Alert>, next: nat)
    requires NoTwoOpen(listed) && forall a :: a in listed <==> a in stored && !a.resolved
    ensures Alerting(listed[..|listed|]) + listed[|listed|..] == Alerting(listed)
    ensures listed[..|listed|] == listed
    ensures var e := Engine(Abouts(Alerting(listed)), Alerting(listed), next);
            AdoptedFrom(stored, e) && Agrees(e)
  {
    assert listed[..|listed|] == listed && listed[|listed|..] == [];
    AlertingMembers(listed);
    AlertingNoTwo(listed);
  }

  class AlertEngine {
    var active: set<Condition>
    var rows: seq<Alert>
    var nextId: nat

    ghost function View(): Engine
      reads this
    {
      Engine(active, rows, nextId)
    }

    /** Adopts the open rows of an earlier process. */
    constructor (stored: seq<Alert>, next: nat)
      requires UniqueIds(stored) && NoTwoOpen(stored)
      ensures AdoptedFrom(stored, View()) && Agrees(View()) && nextId == next
    {
      active, rows, nextId := {}, stored, next;
      new;
      UnresolvedKeeps(stored);
      Purge();
      AdoptRows();
      Adopted(stored, Unresolved(stored), next);
    }

    /** Flags every row still alerted on, and resolves the others. */
    method AdoptRows()
      requires UniqueIds(rows) && active == {}
      modifies this`active, this`rows
      ensures rows == Alerting(old(rows)) && active == Abouts(rows)
    {
      var listed := rows;
      AdoptStart(listed);
      for i := 0 to |listed|
        invariant Adopting(rows, active, listed, i)
      {
        var a := listed[i];
        if a.about.kind == ServiceDown {
          AdoptSkip(rows, active, listed, i);
          var _ := ResolveAlert(a.id);
        } else {
          AdoptKeep(rows, active, listed, i);
          active := active + {a.about};
        }
      }
      AdoptEnd(rows, active, listed);
    }

    /** Drops the rows older builds flagged as resolved. */
    method Purge()
      modifies this`rows
      ensures rows == Unresolved(old(rows))
    {
      var kept := [];
      for i := 0 to |rows|
        invariant kept == Unresolved(rows[..i]) && rows == old(rows)
      {
        assert rows[..i + 1][..i] == rows[..i];
        if !rows[i].resolved {
          kept := kept + [rows[i]];
        }
      }
      assert rows[..|rows|] == rows;
      rows := kept;
    }

    method FireAlert(c: Condition, sev: Severity)
      modifies this
      ensures View() == Fire(old(View()), c, sev)
    {
      if c in active {
        return;
      }
      active := active + {c};
      rows := rows + [Alert(nextId, c, sev, false)];
      nextId := nextId + 1;
      if |rows| > MAX_ALERTS {
        rows := rows[|rows| - MAX_ALERTS..];
      }
    }

    method ResolveAlertsFor(c: Condition) returns (changed: seq<Alert>)
      modifies this`rows
      ensures rows == Others(old(rows), c) && changed == Matching(old(rows), c)
    {
      var buffer := new Alert[|rows|](i requires 0 <= i < |rows| reads this => rows[i]);
      assert buffer[..] == rows;
      var kept;
      kept, changed := FilterInPlace(buffer, c);
      if |changed| > 0 {
        rows := buffer[..kept];
      }
    }

    method ClearAlert(c: Condition)
      modifies this
      ensures View() == Clear(old(View()), c)
    {
      if c !in active {
        return;
      }
      active := active - {c};
      var _ := ResolveAlertsFor(c);
    }

    method ClearReachable(vps: string)
      modifies this
      ensures View() == ClearReachability(old(View()), vps)
    {
      active := active - {Condition(vps, AgentOffline, "")};
      var _ := ResolveAlertsFor(Condition(vps, AgentOffline, ""));
      active := active - {Condition(vps, AgentDown, "")};
      var _ := ResolveAlertsFor(Condition(vps, AgentDown, ""));
    }

    /** Removes a single row by id; the flag stays. */
    method ResolveAlert(id: nat) returns (found: bool)
      modifies this`rows
      ensures rows == DropById(old(rows), id)
      ensures found == exists a :: a in old(rows) && a.id == id
    {
      for i := 0 to |rows|
        invariant rows == old(rows) && forall j :: 0 <= j < i ==> rows[j].id != id
      {
        if rows[i].id == id {
          DropsIt(rows, i);
          assert rows[i] in rows;
          rows := rows[..i] + rows[i + 1..];
          return true;
        }
      }
      DropsNothing(rows, id);
      return false;
    }
  }

  lemma {:induction false} DropsNothing(rows: seq<Alert>, id: nat)
    requires forall j :: 0 <= j < |rows| ==> rows[j].id != id
    ensures DropById(rows, id) == rows
  {
    if rows != [] {
      DropsNothing(rows[1..], id);
    }
  }

  function Alerting(rows: seq<Alert>): seq<Alert> {
    if rows == [] then []
    else
      var r := Alerting(rows[..|rows| - 1]);
      if rows[|rows| - 1].about.kind == ServiceDown then r else r + [rows[|rows| - 1]]
  }

  lemma {:induction false} AlertingMembers(rows: seq<Alert>)
    ensures forall a :: a in Alerting(rows) <==> a in rows && a.about.kind != ServiceDown
  {
    if rows != [] {
      AlertingMembers(rows[..|rows| - 1]);
      assert rows == rows[..|rows| - 1] + [rows[|rows| - 1]];
    }
  }

  lemma {:induction false} AlertingNoTwo(rows: seq<Alert>)
    requires NoTwoOpen(rows)
    ensures NoTwoOpen(Alerting(rows))
  {
    if rows != [] {
      var init, a := rows[..|rows| - 1], rows[|rows| - 1];
      AlertingNoTwo(init);
      AlertingMembers(init);
      forall i | 0 <= i < |Alerting(init)| && !Alerting(init)[i].resolved && !a.resolved
        ensures Alerting(init)[i].about != a.about
      {
        assert Alerting(init)[i] in init;
      }
    }
  }

  lemma {:induction false} UnresolvedKeeps(rows: seq<Alert>)
    requires UniqueIds(rows) && NoTwoOpen(rows)
    ensures forall a :: a in Unresolved(rows) <==> a in rows && !a.resolved
    ensures UniqueIds(Unresolved(rows)) && NoTwoOpen(Unresolved(rows))
  {
    if rows != [] {
      var init, a := rows[..|rows| - 1], rows[|rows| - 1];
      assert rows == init + [a];
      UnresolvedKeeps(init);
      forall i | 0 <= i < |Unresolved(init)|
        ensures Unresolved(init)[i].id != a.id && (!a.resolved ==> Unresolved(init)[i].about != a.about)
      {
        assert Unresolved(init)[i] in init;
      }
    }
  }

  /** The rows in s are some of those in t, in the order they have there. */
  ghost predicate InOrderOf(s: seq<Alert>, t: seq<Alert>, at: seq<nat>) {
    |at| == |s| && Rising(at) && forall i :: 0 <= i < |at| ==> at[i] < |t| && s[i] == t[at[i]]
  }

  lemma OrderSkip(s: seq<Alert>, t: seq<Alert>, at: seq<nat>, x: Alert)
    requires InOrderOf(s, t, at)
    ensures InOrderOf(s, t + [x], at)
  {
  }

  lemma OrderTake(s: seq<Alert>, t: seq<Alert>, at: seq<nat>, x: Alert)
    requires InOrderOf(s, t, at)
    ensures InOrderOf(s + [x], t + [x], at + [|t|])
  {
  }

  /** Purging keeps the order of the rows it keeps, */
  lemma {:induction false} PurgedInOrder(rows: seq<Alert>) returns (at: seq<nat>)
    ensures InOrderOf(Unresolved(rows), rows, at)
  {
    at := [];
    if rows != [] {
      var init, x := rows[..|rows| - 1], rows[|rows| - 1];
      assert rows == init + [x];
      at := PurgedInOrder(init);
      if x.resolved {
        OrderSkip(Unresolved(init), init, at, x);
      } else {
        OrderTake(Unresolved(init), init, at, x);
        at := at + [|init|];
      }
    }
  }

  /** and so does adopting. */
  lemma {:induction false} AdoptedInOrder(rows: seq<Alert>) returns (at: seq<nat>)
    ensures InOrderOf(Alerting(rows), rows, at)
  {
    at := [];
    if rows != [] {
      var init, x := rows[..|rows| - 1], rows[|rows| - 1];
      assert rows == init + [x];
      at := AdoptedInOrder(init);
      if x.about.kind == ServiceDown {
        OrderSkip(Alerting(init), init, at, x);
      } else {
        OrderTake(Alerting(init), init, at, x);
        at := at + [|init|];
      }
    }
  }

  lemma AlertingSnoc(listed: seq<Alert>, i: nat)
    requires i < |listed|
    ensures Alerting(listed[..i + 1]) ==
      if listed[i].about.kind == ServiceDown then Alerting(listed[..i]) else Alerting(listed[..i]) + [listed[i]]
  {
    assert listed[..i + 1][..i] == listed[..i];
  }

  lemma AboutsSnoc(rows: seq<Alert>, a: Alert)
    ensures Abouts(rows + [a]) == Abouts(rows) + {a.about}
  {
  }

  lemma Passed(head: seq<Alert>, listed: seq<Alert>, i: nat)
    requires i < |listed|
    ensures head + [listed[i]] + listed[i + 1..] == head + listed[i..]
  {
  }

  /** The first i rows have been looked at. */
  ghost predicate Adopting(rows: seq<Alert>, active: set<Condition>, listed: seq<Alert>, i: nat) {
    i <= |listed| && rows == Alerting(listed[..i]) + listed[i..] && active == Abouts(Alerting(listed[..i]))
  }

  lemma AdoptStart(listed: seq<Alert>)
    ensures Adopting(listed, {}, listed, 0)
  {
    assert listed[..0] == [] && [] + listed[0..] == listed;
  }

  lemma AdoptEnd(rows: seq<Alert>, active: set<Condition>, listed: seq<Alert>)
    requires Adopting(rows, active, listed, |listed|)
    ensures rows == Alerting(listed) && active == Abouts(rows)
  {
    assert listed[..|listed|] == listed && Alerting(listed) + listed[|listed|..] == Alerting(listed);
  }

  lemma AdoptSkip(rows: seq<Alert>, active: set<Condition>, listed: seq<Alert>, i: nat)
    requires i < |listed| && UniqueIds(listed) && Adopting(rows, active, listed, i)
    requires listed[i].about.kind == ServiceDown
    ensures Adopting(DropById(rows, listed[i].id), active, listed, i + 1)
  {
    AlertingSnoc(listed, i);
    AdoptOne(listed, i);
  }

  lemma AdoptKeep(rows: seq<Alert>, active: set<Condition>, listed: seq<Alert>, i: nat)
    requires i < |listed| && Adopting(rows, active, listed, i) && listed[i].about.kind != ServiceDown
    ensures Adopting(rows, active + {listed[i].about}, listed, i + 1)
  {
    AlertingSnoc(listed, i);
    AboutsSnoc(Alerting(listed[..i]), listed[i]);
    Passed(Alerting(listed[..i]), listed, i);
  }

  /** A row that is removed takes nothing else with it. */
  lemma AdoptOne(listed: seq<Alert>, i: nat)
    requires i < |listed| && UniqueIds(listed)
    ensures var head := Alerting(listed[..i]);
      DropById(head + listed[i..], listed[i].id) == head + listed[i + 1..]
  {
    var head := Alerting(listed[..i]);
    AlertingMembers(listed[..i]);
    forall j | 0 <= j < |head| ensures head[j].id != listed[i].id {
      assert head[j] in listed[..i];
    }
    DropAtSeam(head, listed[i], listed[i + 1..]);
    Passed(head, listed, i);
  }
}
