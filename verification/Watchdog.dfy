/** An elected watcher keeping an eye on its peers while the panel is away. */
module Watchdog {
  import opened Base
  import opened Samples

  const DOWN_AFTER := 3

  datatype Config = Config(enabled: bool, hooks: bool, role: string, primaryID: string, selfID: string,
                           peers: seq<string>, panelQuietMin: int)

  datatype Dog = Dog(cfg: Config, down: map<string, nat>, announced: set<string>, isolated: bool,
                     panelLost: Option<Time>, panelNoticed: bool)

  datatype Notice = PeerDown(id: string) | PeerBack(id: string) | PanelQuiet | PanelBack

  /** What one tick meets: the tunnel, which peers answer, whether the watcher's own
      line is up, whether some other server still sees the panel, which notices
      would be delivered, and the clock. */
  datatype Round = Round(
    connected: bool, up: set<string>, lineUp: bool, panelSeen: bool, delivered: set<Notice>, now: Time)

  /** A state and the notices delivered in reaching it. */
  datatype Result = Result(dog: Dog, sent: seq<Notice>)

  function Failures(d: Dog, p: string): nat { if p in d.down then d.down[p] else 0 }

  /** A secondary that names another server as primary may send only while it has
      announced that server as down. */
  predicate SecondaryTo(c: Config) { c.role == "secondary" && c.primaryID != "" && c.primaryID != c.selfID }

  predicate MaySend(d: Dog, c: Config) { SecondaryTo(c) ==> c.primaryID in d.announced }

  function OthersOf(c: Config, peers: seq<string>): seq<string> {
    if peers == [] then []
    else
      var r := OthersOf(c, peers[..|peers| - 1]);
      if peers[|peers| - 1] == c.selfID then r else r + [peers[|peers| - 1]]
  }

  function Others(c: Config): seq<string> { OthersOf(c, c.peers) }

  /** Nobody answers: it is this watcher that is down. A lone peer is no witness. */
  predicate CutOff(c: Config, r: Round) {
    if |Others(c)| < 2 then !r.lineUp else forall p :: p in Others(c) ==> p !in r.up
  }

  function Visit(d: Dog, c: Config, r: Round, p: string, announce: bool): Result {
    if p in r.up then
      var d' := d.(down := d.down[p := 0], announced := d.announced - {p});
      var tell := p in d.announced && announce && MaySend(d', c) && PeerBack(p) in r.delivered;
      Result(d', if tell then [PeerBack(p)] else [])
    else
      var d' := d.(down := d.down[p := Failures(d, p) + 1]);
      var due := announce && p !in d.announced && Failures(d', p) >= DOWN_AFTER;
      if due && MaySend(d', c) && PeerDown(p) in r.delivered then
        Result(d'.(announced := d'.announced + {p}), [PeerDown(p)])
      else Result(d', [])
  }

  function VisitAll(d: Dog, c: Config, r: Round, peers: seq<string>, announce: bool): Result {
    if peers == [] then Result(d, [])
    else
      var before := VisitAll(d, c, r, peers[..|peers| - 1], announce);
      var last := Visit(before.dog, c, r, peers[|peers| - 1], announce);
      Result(last.dog, before.sent + last.sent)
  }

  function ProbePeers(d: Dog, c: Config, r: Round, announce: bool): Result {
    if CutOff(c, r) then Result(d.(isolated := true, down := map[]), [])
    else VisitAll(d.(isolated := false), c, r, Others(c), announce)
  }

  function PanelAway(d: Dog, c: Config, r: Round): Result {
    var lost := if d.panelLost.None? then r.now else d.panelLost.value;
    var d' := d.(panelLost := Some(lost));
    if c.panelQuietMin <= 0 || d.panelNoticed || d.isolated || !MaySend(d, c)
       || r.now - lost < c.panelQuietMin * MINUTE || r.panelSeen || PanelQuiet !in r.delivered
    then Result(d', [])
    else Result(d'.(panelNoticed := true), [PanelQuiet])
  }

  function PanelReturned(d: Dog, r: Round): Result {
    Result(d.(panelLost := None, panelNoticed := false),
           if d.panelNoticed && PanelBack in r.delivered then [PanelBack] else [])
  }

  predicate Runs(c: Config) { c.enabled && c.hooks }

  function Tick(d: Dog, r: Round): Result {
    if !Runs(d.cfg) then Result(d, [])
    else
      var probed := ProbePeers(d, d.cfg, r, !r.connected);
      var rest := if r.connected then PanelReturned(probed.dog, r) else PanelAway(probed.dog, d.cfg, r);
      Result(rest.dog, probed.sent + rest.sent)
  }

  /** A new configuration; a change of role forgets what was tracked. */
  function Configured(d: Dog, c: Config): Dog {
    if c.role != d.cfg.role then d.(cfg := c, down := map[], announced := {}) else d.(cfg := c)
  }

  class Watcher {
    var dog: Dog

    constructor (c: Config)
      ensures dog == Dog(c, map[], {}, false, None, false)
    {
      dog := Dog(c, map[], {}, false, None, false);
    }

    method SetConfig(c: Config)
      modifies this
      ensures dog == Configured(old(dog), c)
    {
      var wasRole := dog.cfg.role;
      dog := dog.(cfg := c);
      if c.role != wasRole {
        dog := dog.(down := map[], announced := {});
      }
    }

    static method OtherPeers(c: Config) returns (peers: seq<string>)
      ensures peers == Others(c)
    {
      peers := [];
      for i := 0 to |c.peers|
        invariant peers == OthersOf(c, c.peers[..i])
      {
        assert c.peers[..i + 1][..i] == c.peers[..i];
        if c.peers[i] != c.selfID {
          peers := peers + [c.peers[i]];
        }
      }
      assert c.peers[..|c.peers|] == c.peers;
    }

    method ProbeOnce(c: Config, r: Round, announce: bool) returns (sent: seq<Notice>)
      modifies this
      ensures Result(dog, sent) == ProbePeers(old(dog), c, r, announce)
    {
      var peers := OtherPeers(c);
      sent := [];
      var heard := if |peers| < 2 then r.lineUp else exists p :: p in peers && p in r.up;
      if !heard {
        dog := dog.(isolated := true, down := map[]);
        return;
      }
      dog := dog.(isolated := false);
      sent := VisitPeers(c, r, peers, announce);
    }

    method VisitPeers(c: Config, r: Round, peers: seq<string>, announce: bool) returns (sent: seq<Notice>)
      modifies this
      ensures Result(dog, sent) == VisitAll(old(dog), c, r, peers, announce)
    {
      sent := [];
      for i := 0 to |peers|
        invariant Result(dog, sent) == VisitAll(old(dog), c, r, peers[..i], announce)
      {
        assert peers[..i + 1][..i] == peers[..i];
        var one := VisitPeer(c, r, peers[i], announce);
        sent := sent + one;
      }
      assert peers[..|peers|] == peers;
    }

    method VisitPeer(c: Config, r: Round, p: string, announce: bool) returns (sent: seq<Notice>)
      modifies this
      ensures Result(dog, sent) == Visit(old(dog), c, r, p, announce)
    {
      sent := [];
      if p in r.up {
        var wasAnnounced := p in dog.announced;
        dog := dog.(down := dog.down[p := 0], announced := dog.announced - {p});
        if wasAnnounced && announce && MaySend(dog, c) && PeerBack(p) in r.delivered {
          sent := [PeerBack(p)];
        }
        return;
      }
      dog := dog.(down := dog.down[p := (if p in dog.down then dog.down[p] else 0) + 1]);
      var failures, already := dog.down[p], p in dog.announced;
      if announce && !already && failures >= DOWN_AFTER && MaySend(dog, c) && PeerDown(p) in r.delivered {
        sent := [PeerDown(p)];
        dog := dog.(announced := dog.announced + {p});
      }
    }

    method TickOnce(r: Round) returns (sent: seq<Notice>)
      modifies this
      ensures Result(dog, sent) == Tick(old(dog), r)
    {
      sent := [];
      var c := dog.cfg;
      if !c.enabled || !c.hooks {
        return;
      }
      sent := ProbeOnce(c, r, !r.connected);
      if r.connected {
        var noticed := dog.panelNoticed;
        dog := dog.(panelLost := None, panelNoticed := false);
        sent := sent + (if noticed && PanelBack in r.delivered then [PanelBack] else []);
        return;
      }
      if dog.panelLost.None? {
        dog := dog.(panelLost := Some(r.now));
      }
      var skip := c.panelQuietMin <= 0 || dog.panelNoticed || dog.isolated || !MaySend(dog, c)
                  || r.now - dog.panelLost.value < c.panelQuietMin * MINUTE;
      if skip || r.panelSeen || PanelQuiet !in r.delivered {
        sent := sent + [];
        return;
      }
      sent := sent + [PanelQuiet];
      dog := dog.(panelNoticed := true);
    }
  }

  // -------------------------------------------------- what a tick does to a peer

  ghost predicate Distinct(s: seq<string>) {
    forall i, j :: 0 <= i < j < |s| ==> s[i] != s[j]
  }

  ghost predicate Untouched(d: Dog, d': Dog, sent: seq<Notice>, p: string) {
    && Failures(d', p) == Failures(d, p) && (p in d'.announced <==> p in d.announced)
    && PeerDown(p) !in sent && PeerBack(p) !in sent
  }

  ghost predicate Answered(d: Dog, d': Dog, sent: seq<Notice>, p: string, announce: bool) {
    && Failures(d', p) == 0 && p !in d'.announced && PeerDown(p) !in sent
    && (PeerBack(p) in sent ==> p in d.announced && announce)
  }

  ghost predicate Failed(d: Dog, d': Dog, sent: seq<Notice>, p: string, announce: bool) {
    && Failures(d', p) == Failures(d, p) + 1 && PeerBack(p) !in sent
    && (PeerDown(p) in sent ==> announce && p !in d.announced && Failures(d', p) >= DOWN_AFTER)
    && (p in d'.announced <==> p in d.announced || PeerDown(p) in sent)
  }

  ghost predicate Visited(d: Dog, d': Dog, sent: seq<Notice>, r: Round, p: string, announce: bool) {
    if p in r.up then Answered(d, d', sent, p, announce) else Failed(d, d', sent, p, announce)
  }

  lemma VisitOne(d: Dog, c: Config, r: Round, q: string, announce: bool, p: string)
    ensures var v := Visit(d, c, r, q, announce);
            if p == q then Visited(d, v.dog, v.sent, r, p, announce) else Untouched(d, v.dog, v.sent, p)
  {
  }

  /** Among distinct peers each is visited once and left alone by the others' visits. */
  lemma {:induction false} VisitEach(d: Dog, c: Config, r: Round, peers: seq<string>, announce: bool, p: string)
    requires Distinct(peers)
    ensures var v := VisitAll(d, c, r, peers, announce);
            if p in peers then Visited(d, v.dog, v.sent, r, p, announce) else Untouched(d, v.dog, v.sent, p)
  {
    if peers != [] {
      var init, q := peers[..|peers| - 1], peers[|peers| - 1];
      assert peers == init + [q];
      VisitEach(d, c, r, init, announce, p);
      VisitOne(VisitAll(d, c, r, init, announce).dog, c, r, q, announce, p);
    }
  }

  lemma {:induction false} OthersDistinct(c: Config, peers: seq<string>)
    requires Distinct(peers)
    ensures Distinct(OthersOf(c, peers))
    ensures forall p :: p in OthersOf(c, peers) <==> p in peers && p != c.selfID
  {
    if peers != [] {
      var init := peers[..|peers| - 1];
      assert peers == init + [peers[|peers| - 1]];
      OthersDistinct(c, init);
      forall i | 0 <= i < |OthersOf(c, init)| ensures OthersOf(c, init)[i] != peers[|peers| - 1] {
        assert OthersOf(c, init)[i] in init;
      }
    }
  }

  /** The tick really probed p, and believed what it saw. */
  predicate Probes(d: Dog, r: Round, p: string) {
    Runs(d.cfg) && !CutOff(d.cfg, r) && p in Others(d.cfg)
  }

  lemma TickPeer(d: Dog, r: Round, p: string)
    requires Distinct(d.cfg.peers)
    ensures var t := Tick(d, r);
            if Probes(d, r, p) then Visited(d, t.dog, t.sent, r, p, !r.connected)
            else if Runs(d.cfg) && CutOff(d.cfg, r) then
              && Failures(t.dog, p) == 0 && t.dog.announced == d.announced
              && PeerDown(p) !in t.sent && PeerBack(p) !in t.sent
            else Untouched(d, t.dog, t.sent, p)
    ensures Tick(d, r).dog.cfg == d.cfg
  {
    if Runs(d.cfg) && !CutOff(d.cfg, r) {
      OthersDistinct(d.cfg, d.cfg.peers);
      VisitEach(d.(isolated := false), d.cfg, r, Others(d.cfg), !r.connected, p);
    }
    TickKeepsConfig(d, r);
  }

  lemma TickKeepsConfig(d: Dog, r: Round)
    ensures Tick(d, r).dog.cfg == d.cfg
  {
    VisitKeepsConfig(d.(isolated := false), d.cfg, r, Others(d.cfg), !r.connected);
  }

  lemma {:induction false} VisitKeepsConfig(d: Dog, c: Config, r: Round, peers: seq<string>, announce: bool)
    ensures VisitAll(d, c, r, peers, announce).dog.cfg == d.cfg
  {
    if peers != [] {
      VisitKeepsConfig(d, c, r, peers[..|peers| - 1], announce);
    }
  }

  // ------------------------------------------------------------------- runs

  datatype Event = Ticked(r: Round) | Reconfigured(c: Config)

  function Step(d: Dog, e: Event): Result {
    match e
    case Ticked(r) => Tick(d, r)
    case Reconfigured(c) => Result(Configured(d, c), [])
  }

  ghost predicate StepAt(ds: seq<Dog>, es: seq<Event>, i: nat)
    requires i < |es| && |ds| == |es| + 1
  {
    ds[i + 1] == Step(ds[i], es[i]).dog && Distinct(ds[i].cfg.peers)
  }

  ghost predicate Run(ds: seq<Dog>, es: seq<Event>) {
    && |ds| == |es| + 1 && ds[0].down == map[] && ds[0].announced == {} && !ds[0].panelNoticed
    && forall i :: 0 <= i < |es| ==> StepAt(ds, es, i)
  }

  function SentAt(ds: seq<Dog>, es: seq<Event>, i: nat): seq<Notice>
    requires i < |es| && |ds| == |es| + 1
  {
    Step(ds[i], es[i]).sent
  }

  predicate RoleChange(d: Dog, e: Event) { e.Reconfigured? && e.c.role != d.cfg.role }

  /** A believed successful probe. */
  predicate Succeeds(d: Dog, e: Event, p: string) { e.Ticked? && Probes(d, e.r, p) && p in e.r.up }

  predicate Fails(d: Dog, e: Event, p: string) { e.Ticked? && Probes(d, e.r, p) && p !in e.r.up }

  predicate Isolated(d: Dog, e: Event) { e.Ticked? && Runs(d.cfg) && CutOff(d.cfg, e.r) }

  /** What starts a peer's failure count over. */
  predicate Resets(d: Dog, e: Event, p: string) { RoleChange(d, e) || Succeeds(d, e, p) || Isolated(d, e) }

  predicate FailsAt(ds: seq<Dog>, es: seq<Event>, i: nat, p: string) {
    i < |es| && i < |ds| && Fails(ds[i], es[i], p)
  }

  predicate ResetsAt(ds: seq<Dog>, es: seq<Event>, i: nat, p: string) {
    i < |es| && i < |ds| && Resets(ds[i], es[i], p)
  }

  /** A role change or a believed success: what ends an announced outage. */
  predicate EndsAt(ds: seq<Dog>, es: seq<Event>, i: nat, p: string) {
    i < |es| && i < |ds| && (RoleChange(ds[i], es[i]) || Succeeds(ds[i], es[i], p))
  }

  predicate DownSentAt(ds: seq<Dog>, es: seq<Event>, i: nat, p: string) {
    i < |es| && |ds| == |es| + 1 && PeerDown(p) in SentAt(ds, es, i)
  }

  predicate BackSentAt(ds: seq<Dog>, es: seq<Event>, i: nat, p: string) {
    i < |es| && |ds| == |es| + 1 && PeerBack(p) in SentAt(ds, es, i)
  }

  lemma StepPeer(ds: seq<Dog>, es: seq<Event>, i: nat, p: string)
    requires Run(ds, es) && i < |es|
    ensures ResetsAt(ds, es, i, p) ==> Failures(ds[i + 1], p) == 0
    ensures FailsAt(ds, es, i, p) ==> Failures(ds[i + 1], p) == Failures(ds[i], p) + 1 && !ResetsAt(ds, es, i, p)
    ensures !ResetsAt(ds, es, i, p) && !FailsAt(ds, es, i, p) ==> Failures(ds[i + 1], p) == Failures(ds[i], p)
    ensures DownSentAt(ds, es, i, p) ==>
              && FailsAt(ds, es, i, p) && p !in ds[i].announced && Failures(ds[i + 1], p) >= DOWN_AFTER
              && es[i].Ticked? && !es[i].r.connected
    ensures BackSentAt(ds, es, i, p) ==> Succeeds(ds[i], es[i], p) && p in ds[i].announced && !es[i].r.connected
    ensures p in ds[i + 1].announced <==>
              DownSentAt(ds, es, i, p) || (p in ds[i].announced && !EndsAt(ds, es, i, p))
  {
    assert StepAt(ds, es, i);
    if es[i].Ticked? {
      TickPeer(ds[i], es[i].r, p);
    }
  }

  /** The steps rise, stay below n, and p fails its probe at each. */
  ghost predicate Failing(ds: seq<Dog>, es: seq<Event>, steps: seq<nat>, n: nat, p: string) {
    && (forall i :: 0 <= i < |steps| ==> steps[i] < n && FailsAt(ds, es, steps[i], p))
    && (forall i, j :: 0 <= i < j < |steps| ==> steps[i] < steps[j])
  }

  ghost predicate NoResets(ds: seq<Dog>, es: seq<Event>, from: nat, n: nat, p: string) {
    forall t: nat :: from <= t < n ==> !ResetsAt(ds, es, t, p)
  }

  ghost predicate UnbrokenFailures(ds: seq<Dog>, es: seq<Event>, steps: seq<nat>, n: nat, p: string) {
    Failing(ds, es, steps, n, p) && (steps != [] ==> NoResets(ds, es, steps[0], n, p))
  }

  lemma FailsOnceMore(ds: seq<Dog>, es: seq<Event>, steps: seq<nat>, n: nat, p: string)
    requires UnbrokenFailures(ds, es, steps, n, p) && FailsAt(ds, es, n, p) && !ResetsAt(ds, es, n, p)
    ensures UnbrokenFailures(ds, es, steps + [n], n + 1, p)
  {
    assert forall i :: 0 <= i < |steps| ==> (steps + [n])[i] == steps[i];
  }

  lemma FailsNoMore(ds: seq<Dog>, es: seq<Event>, steps: seq<nat>, n: nat, p: string)
    requires UnbrokenFailures(ds, es, steps, n, p) && !ResetsAt(ds, es, n, p)
    ensures UnbrokenFailures(ds, es, steps, n + 1, p)
  {
  }

  /** What one step does to a peer's count. */
  lemma CountStep(ds: seq<Dog>, es: seq<Event>, n: nat, p: string)
    requires Run(ds, es) && n < |es|
    ensures ResetsAt(ds, es, n, p) ==> Failures(ds[n + 1], p) == 0 && !FailsAt(ds, es, n, p)
    ensures !ResetsAt(ds, es, n, p) ==>
      Failures(ds[n + 1], p) == Failures(ds[n], p) + if FailsAt(ds, es, n, p) then 1 else 0
  {
    StepPeer(ds, es, n, p);
  }

  /** A peer's count is the number of failed probes since the last reset. */
  lemma {:induction false} CountedFailures(ds: seq<Dog>, es: seq<Event>, n: nat, p: string) returns (steps: seq<nat>)
    requires Run(ds, es) && n <= |es|
    ensures |steps| == Failures(ds[n], p) && UnbrokenFailures(ds, es, steps, n, p)
  {
    if n == 0 {
      steps := [];
    } else {
      steps := CountedFailures(ds, es, n - 1, p);
      steps := OneMoreStep(ds, es, steps, n - 1, p);
    }
  }

  lemma OneMoreStep(ds: seq<Dog>, es: seq<Event>, steps: seq<nat>, n: nat, p: string) returns (steps': seq<nat>)
    requires Run(ds, es) && n < |es| && |steps| == Failures(ds[n], p) && UnbrokenFailures(ds, es, steps, n, p)
    ensures |steps'| == Failures(ds[n + 1], p) && UnbrokenFailures(ds, es, steps', n + 1, p)
    ensures FailsAt(ds, es, n, p) ==> steps' == steps + [n]
  {
    CountStep(ds, es, n, p);
    steps' := steps;
    if ResetsAt(ds, es, n, p) {
      steps' := [];
    } else if FailsAt(ds, es, n, p) {
      steps' := steps + [n];
      FailsOnceMore(ds, es, steps, n, p);
    } else {
      FailsNoMore(ds, es, steps, n, p);
    }
  }

  /** A peer-down notice is sent only with the tunnel down, at the last of three or
      more failed probes with no success, isolated tick or role change among them. */
  lemma DownNoticeNeedsThreeFailures(ds: seq<Dog>, es: seq<Event>, n: nat, p: string) returns (steps: seq<nat>)
    requires Run(ds, es) && DownSentAt(ds, es, n, p)
    ensures es[n].Ticked? && !es[n].r.connected
    ensures |steps| >= 3 && UnbrokenFailures(ds, es, steps, n + 1, p) && steps[|steps| - 1] == n
  {
    StepPeer(ds, es, n, p);
    steps := CountedFailures(ds, es, n, p);
    steps := OneMoreStep(ds, es, steps, n, p);
  }

  predicate AnnouncedAt(ds: seq<Dog>, n: nat, p: string) {
    n < |ds| && p in ds[n].announced
  }

  lemma NotAtStart(ds: seq<Dog>, es: seq<Event>, p: string)
    requires Run(ds, es)
    ensures !AnnouncedAt(ds, 0, p)
  {
  }

  /** While p stays announced, nobody changed the role and p never answered. */
  lemma {:induction false} AnnouncedSince(ds: seq<Dog>, es: seq<Event>, n: nat, p: string) returns (i: nat)
    requires Run(ds, es) && n <= |es| && AnnouncedAt(ds, n, p)
    ensures i < n && DownSentAt(ds, es, i, p) && Unended(ds, es, i, n, p)
  {
    NotAtStart(ds, es, p);
    i := n - 1;
    StillAnnounced(ds, es, n - 1, p);
    if !DownSentAt(ds, es, n - 1, p) {
      i := AnnouncedSince(ds, es, n - 1, p);
      UnendedStep(ds, es, i, n, p);
    }
  }

  /** Nothing between steps i and n ended p's outage. */
  ghost predicate Unended(ds: seq<Dog>, es: seq<Event>, i: nat, n: nat, p: string) {
    forall t: nat :: i < t < n ==> !EndsAt(ds, es, t, p)
  }

  lemma UnendedStep(ds: seq<Dog>, es: seq<Event>, i: nat, n: nat, p: string)
    requires i < n - 1 && Unended(ds, es, i, n - 1, p) && !EndsAt(ds, es, n - 1, p)
    ensures Unended(ds, es, i, n, p)
  {
  }

  lemma StillAnnounced(ds: seq<Dog>, es: seq<Event>, n: nat, p: string)
    requires Run(ds, es) && n < |es| && AnnouncedAt(ds, n + 1, p)
    ensures DownSentAt(ds, es, n, p) || (AnnouncedAt(ds, n, p) && !EndsAt(ds, es, n, p))
  {
    StepPeer(ds, es, n, p);
  }

  /** A recovery notice follows an announced outage, with nothing having ended it before. */
  lemma RecoveryFollowsAnnouncement(ds: seq<Dog>, es: seq<Event>, n: nat, p: string) returns (i: nat)
    requires Run(ds, es) && BackSentAt(ds, es, n, p)
    ensures i < n && DownSentAt(ds, es, i, p) && Succeeds(ds[n], es[n], p)
    ensures Unended(ds, es, i, n, p)
  {
    StepPeer(ds, es, n, p);
    i := AnnouncedSince(ds, es, n, p);
  }

  lemma {:induction false} EndedBetween(ds: seq<Dog>, es: seq<Event>, i: nat, j: nat, p: string) returns (k: nat)
    requires Run(ds, es) && i < j <= |es| && p in ds[i + 1].announced && p !in ds[j].announced
    ensures i < k < j && EndsAt(ds, es, k, p)
    decreases j
  {
    StepPeer(ds, es, j - 1, p);
    if p in ds[j - 1].announced {
      k := j - 1;
    } else {
      k := EndedBetween(ds, es, i, j - 1, p);
    }
  }

  /** Two down notices for a peer have a successful probe or a role change between them. */
  lemma NeverAnnouncedTwice(ds: seq<Dog>, es: seq<Event>, i: nat, j: nat, p: string) returns (k: nat)
    requires Run(ds, es) && i < j && DownSentAt(ds, es, i, p) && DownSentAt(ds, es, j, p)
    ensures i < k < j && EndsAt(ds, es, k, p)
  {
    StepPeer(ds, es, i, p);
    StepPeer(ds, es, j, p);
    k := EndedBetween(ds, es, i, j, p);
  }

  // ------------------------------------------------------------ what is sent

  /** Whether the gate is open when peer k of a tick is visited. A secondary's is while it has announced
      the primary it names, and closes when the tick finds that server up. */
  predicate GateOpen(d: Dog, c: Config, r: Round, peers: seq<string>, k: nat)
    requires k < |peers|
  {
    SecondaryTo(c) ==> c.primaryID in d.announced && !(c.primaryID in peers[..k + 1] && c.primaryID in r.up)
  }

  lemma PrefixSnoc(peers: seq<string>, k: nat)
    requires k < |peers|
    ensures forall p :: p in peers[..k + 1] <==> p in peers[..k] || p == peers[k]
  {
    assert peers[..k + 1] == peers[..k] + [peers[k]];
  }

  /** The primary is never announced by a secondary that has not announced it already. */
  lemma {:induction false} PrimaryAnnounced(d: Dog, c: Config, r: Round, peers: seq<string>, announce: bool, k: nat)
    requires SecondaryTo(c) && k <= |peers|
    ensures c.primaryID in VisitAll(d, c, r, peers[..k], announce).dog.announced <==>
      c.primaryID in d.announced && !(c.primaryID in peers[..k] && c.primaryID in r.up)
  {
    if k > 0 {
      PrimaryAnnounced(d, c, r, peers, announce, k - 1);
      PrefixSnoc(peers, k - 1);
      assert peers[..k][..k - 1] == peers[..k - 1];
    }
  }

  /** What is sent about a peer is sent when it is visited. */
  lemma {:induction false} SentWhenVisited(d: Dog, c: Config, r: Round, peers: seq<string>, announce: bool, k: nat)
    requires Distinct(peers) && k < |peers|
    ensures var v := Visit(VisitAll(d, c, r, peers[..k], announce).dog, c, r, peers[k], announce);
      && (PeerDown(peers[k]) in VisitAll(d, c, r, peers, announce).sent <==> PeerDown(peers[k]) in v.sent)
      && (PeerBack(peers[k]) in VisitAll(d, c, r, peers, announce).sent <==> PeerBack(peers[k]) in v.sent)
    decreases |peers|
  {
    var n, p := |peers| - 1, peers[k];
    var init := peers[..n];
    assert peers == init + [peers[n]];
    if k == n {
      VisitEach(d, c, r, init, announce, p);
    } else {
      assert init[..k] == peers[..k];
      SentWhenVisited(d, c, r, init, announce, k);
      VisitOne(VisitAll(d, c, r, init, announce).dog, c, r, peers[n], announce, p);
    }
  }

  ghost predicate DownDue(d: Dog, c: Config, r: Round, peers: seq<string>, announce: bool, k: nat)
    requires k < |peers|
  {
    var p := peers[k];
    && announce && p !in r.up && p !in d.announced && Failures(d, p) + 1 >= DOWN_AFTER
    && PeerDown(p) in r.delivered && GateOpen(d, c, r, peers, k)
  }

  ghost predicate BackDue(d: Dog, c: Config, r: Round, peers: seq<string>, announce: bool, k: nat)
    requires k < |peers|
  {
    var p := peers[k];
    announce && p in r.up && p in d.announced && PeerBack(p) in r.delivered && GateOpen(d, c, r, peers, k)
  }

  lemma VisitSends(d: Dog, c: Config, r: Round, peers: seq<string>, announce: bool, k: nat)
    requires Distinct(peers) && k < |peers|
    ensures PeerDown(peers[k]) in VisitAll(d, c, r, peers, announce).sent <==> DownDue(d, c, r, peers, announce, k)
    ensures PeerBack(peers[k]) in VisitAll(d, c, r, peers, announce).sent <==> BackDue(d, c, r, peers, announce, k)
  {
    var p, before := peers[k], VisitAll(d, c, r, peers[..k], announce).dog;
    SentWhenVisited(d, c, r, peers, announce, k);
    VisitEach(d, c, r, peers[..k], announce, p);
    PrefixSnoc(peers, k);
    if SecondaryTo(c) {
      PrimaryAnnounced(d, c, r, peers, announce, k);
    }
  }

  /** Exactly what a tick sends about the k-th of the other peers: that it is down if the tunnel is down
      and this is at least its third failure, or that it is back if it had been announced, each if the
      gate is open and the notice gets through. */
  lemma TickSends(d: Dog, r: Round, k: nat)
    requires Distinct(d.cfg.peers) && Runs(d.cfg) && !CutOff(d.cfg, r) && k < |Others(d.cfg)|
    ensures var p := Others(d.cfg)[k];
      && (PeerDown(p) in Tick(d, r).sent <==> DownDue(d, d.cfg, r, Others(d.cfg), !r.connected, k))
      && (PeerBack(p) in Tick(d, r).sent <==> BackDue(d, d.cfg, r, Others(d.cfg), !r.connected, k))
  {
    OthersDistinct(d.cfg, d.cfg.peers);
    VisitSends(d.(isolated := false), d.cfg, r, Others(d.cfg), !r.connected, k);
  }

  /** A primary, or a secondary that names no other, announces a peer exactly like this. */
  lemma OpenTickSends(d: Dog, r: Round, p: string)
    requires Distinct(d.cfg.peers) && !SecondaryTo(d.cfg) && Probes(d, r, p)
    ensures PeerDown(p) in Tick(d, r).sent <==>
      !r.connected && p !in r.up && p !in d.announced && Failures(d, p) + 1 >= DOWN_AFTER && PeerDown(p) in r.delivered
    ensures PeerBack(p) in Tick(d, r).sent <==>
      !r.connected && p in r.up && p in d.announced && PeerBack(p) in r.delivered
  {
    var k :| 0 <= k < |Others(d.cfg)| && Others(d.cfg)[k] == p;
    TickSends(d, r, k);
  }

  // -------------------------------------------------------- the silent secondary

  /** A secondary whose named primary is not among the announced. */
  predicate Shut(c: Config, announced: set<string>) {
    SecondaryTo(c) && c.primaryID !in announced
  }

  lemma {:induction false} VisitSilent(d: Dog, c: Config, r: Round, peers: seq<string>, announce: bool)
    requires Shut(c, d.announced)
    ensures VisitAll(d, c, r, peers, announce).sent == []
    ensures VisitAll(d, c, r, peers, announce).dog.announced <= d.announced
    ensures VisitAll(d, c, r, peers, announce).dog.panelNoticed == d.panelNoticed
  {
    if peers != [] {
      VisitSilent(d, c, r, peers[..|peers| - 1], announce);
    }
  }

  /** A running tick that finds the tunnel up. */
  predicate Hears(d: Dog, e: Event) { e.Ticked? && Runs(d.cfg) && e.r.connected }

  /** What a secondary does that has not announced the primary it names: it may still say that the
      panel is back, if it once said that it was gone, and nothing else. */
  lemma SecondaryStep(d: Dog, e: Event)
    requires Shut(d.cfg, d.announced)
    ensures Step(d, e).dog.announced <= d.announced
    ensures Step(d, e).dog.panelNoticed == (d.panelNoticed && !Hears(d, e))
    ensures Step(d, e).sent == if d.panelNoticed && Hears(d, e) && PanelBack in e.r.delivered then [PanelBack] else []
  {
    if e.Ticked? {
      VisitSilent(d.(isolated := false), d.cfg, e.r, Others(d.cfg), !e.r.connected);
    }
  }

  predicate HearsAt(ds: seq<Dog>, es: seq<Event>, i: nat) {
    i < |es| && i < |ds| && Hears(ds[i], es[i])
  }

  /** From step m up to step n it is a secondary, and names no primary it had announced at step m. */
  ghost predicate ShutFrom(ds: seq<Dog>, m: nat, n: nat)
    requires m < |ds|
  {
    forall i :: m <= i < n && i < |ds| ==> Shut(ds[i].cfg, ds[m].announced)
  }

  /** No tick from step m up to step n found the tunnel up. */
  ghost predicate Unheard(ds: seq<Dog>, es: seq<Event>, m: nat, n: nat) {
    forall i: nat :: m <= i < n ==> !HearsAt(ds, es, i)
  }

  /** At start-up and after every change of role nothing is announced. */
  lemma NothingAnnouncedYet(ds: seq<Dog>, es: seq<Event>, m: nat)
    requires Run(ds, es) && m <= |es| && (m == 0 || RoleChange(ds[m - 1], es[m - 1]))
    ensures ds[m].announced == {}
  {
    if m > 0 {
      assert StepAt(ds, es, m - 1);
    }
  }

  lemma {:induction false} SecondaryKeeps(ds: seq<Dog>, es: seq<Event>, m: nat, n: nat)
    requires Run(ds, es) && m <= n <= |es| && ShutFrom(ds, m, n)
    ensures ds[n].announced <= ds[m].announced
    ensures ds[n].panelNoticed <==> ds[m].panelNoticed && Unheard(ds, es, m, n)
    decreases n
  {
    if m < n {
      SecondaryKeeps(ds, es, m, n - 1);
      assert StepAt(ds, es, n - 1);
      SecondaryStep(ds[n - 1], es[n - 1]);
      assert Unheard(ds, es, m, n) <==> Unheard(ds, es, m, n - 1) && !HearsAt(ds, es, n - 1);
    }
  }

  /** A secondary that names another server as primary, from any step on and for as long as it names
      none it had announced at that step, announces nothing more, sends nothing about a peer and never
      says the panel is gone: its gate opens only on a flag that only a permitted send can set. All it
      can ever send is one notice that the panel is back, exactly if it had noticed the panel gone
      before, at the first tick that finds the tunnel up. */
  lemma SecondaryIsSilent(ds: seq<Dog>, es: seq<Event>, m: nat, n: nat)
    requires Run(ds, es) && m <= n < |es| && ShutFrom(ds, m, n + 1)
    ensures ds[n].announced <= ds[m].announced
    ensures SentAt(ds, es, n) ==
      if ds[m].panelNoticed && Unheard(ds, es, m, n) && HearsAt(ds, es, n) && PanelBack in es[n].r.delivered
      then [PanelBack] else []
  {
    SecondaryKeeps(ds, es, m, n);
    SecondaryStep(ds[n], es[n]);
  }

  lemma ExtendRun(ds: seq<Dog>, es: seq<Event>, e: Event) returns (ds': seq<Dog>, es': seq<Event>)
    requires Run(ds, es) && Distinct(ds[|es|].cfg.peers)
    ensures Run(ds', es') && es' == es + [e] && ds' == ds + [Step(ds[|es|], e).dog]
  {
    ds', es' := ds + [Step(ds[|es|], e).dog], es + [e];
    forall i | 0 <= i < |es'| ensures StepAt(ds', es', i) {
      if i < |es| {
        assert StepAt(ds, es, i);
      }
    }
  }

  /** Such a notice is really sent: a primary that has announced the panel gone is made a secondary,
      and then hears from the panel. */
  lemma DemotedPrimarySpeaks() returns (ds: seq<Dog>, es: seq<Event>)
    ensures Run(ds, es) && |es| == 4
    ensures RoleChange(ds[2], es[2]) && SecondaryTo(ds[3].cfg) && SentAt(ds, es, 3) == [PanelBack]
  {
    var primary := Config(true, true, "primary", "", "a", [], 1);
    var secondary := Config(true, true, "secondary", "b", "a", [], 1);
    var away := Round(false, {}, true, false, {PanelQuiet, PanelBack}, 0);
    var back := away.(connected := true);
    ds, es := [Dog(primary, map[], {}, false, None, false)], [];
    ds, es := ExtendRun(ds, es, Ticked(away));
    assert ds[1] == Dog(primary, map[], {}, false, Some(0), false);
    ds, es := ExtendRun(ds, es, Ticked(away.(now := MINUTE)));
    assert ds[2] == Dog(primary, map[], {}, false, Some(0), true);
    ds, es := ExtendRun(ds, es, Reconfigured(secondary));
    assert ds[3] == Dog(secondary, map[], {}, false, Some(0), true);
    ds, es := ExtendRun(ds, es, Ticked(back));
  }

  // ------------------------------------------------------ a secondary that speaks

  function Peers(): seq<string> {
    ["x", "y", "z"]
  }

  /** A secondary, naming the given primary. */
  function Naming(primary: string): Config {
    Config(true, true, "secondary", primary, "a", Peers(), 0)
  }

  /** The tunnel is down, z answers, and perhaps y. */
  function Outage(y: bool): Round {
    Round(false, if y then {"y", "z"} else {"z"}, true, false, {PeerDown("x"), PeerDown("y")}, 0)
  }

  lemma ThreeOthers(c: Config)
    requires c.peers == Peers() && c.selfID == "a"
    ensures Others(c) == Peers() && Distinct(c.peers)
  {
    var s := Peers();
    assert s[..2] == ["x", "y"] && s[..2][..1] == ["x"] && s[..2][..1][..0] == [];
    assert OthersOf(c, ["x"]) == ["x"];
    assert OthersOf(c, ["x", "y"]) == ["x", "y"];
  }

  lemma OutageNotCutOff(c: Config, y: bool)
    requires c.peers == Peers() && c.selfID == "a"
    ensures !CutOff(c, Outage(y))
  {
    ThreeOthers(c);
    assert Peers()[2] == "z" && "z" in Peers();
  }

  /** How one tick of the outage leaves x and y. */
  lemma OutageTick(d: Dog, y: bool)
    requires d.cfg == Naming(d.cfg.primaryID)
    ensures var t := Tick(d, Outage(y)).dog;
      && t.cfg == d.cfg && Failures(t, "x") == Failures(d, "x") + 1
      && Failures(t, "y") == (if y then 0 else Failures(d, "y") + 1)
      && ("x" in d.announced ==> "x" in t.announced)
      && ("y" !in d.announced && (y || Failures(d, "y") + 1 < DOWN_AFTER) ==> "y" !in t.announced)
  {
    ThreeOthers(d.cfg);
    OutageNotCutOff(d.cfg, y);
    assert Peers()[0] == "x" && Peers()[1] == "y";
    TickPeer(d, Outage(y), "x");
    TickPeer(d, Outage(y), "y");
  }

  lemma AnnouncesX(d: Dog)
    requires d.cfg == Naming("") && Failures(d, "x") == 2 && "x" !in d.announced
    ensures "x" in Tick(d, Outage(true)).dog.announced
  {
    ThreeOthers(d.cfg);
    OutageNotCutOff(d.cfg, true);
    assert Peers()[0] == "x";
    OpenTickSends(d, Outage(true), "x");
    TickPeer(d, Outage(true), "x");
  }

  lemma AnnouncesY(d: Dog)
    requires d.cfg == Naming("x") && Failures(d, "y") == 2 && "y" !in d.announced && "x" in d.announced
    ensures PeerDown("y") in Tick(d, Outage(false)).sent
  {
    ThreeOthers(d.cfg);
    OutageNotCutOff(d.cfg, false);
    assert Peers()[1] == "y";
    TickSends(d, Outage(false), 1);
  }

  lemma StartsUnannounced(d: Dog, y: bool)
    requires d.cfg == Naming("") && Failures(d, "x") + 1 < DOWN_AFTER && "x" !in d.announced
    ensures "x" !in Tick(d, Outage(y)).dog.announced
  {
    ThreeOthers(d.cfg);
    OutageNotCutOff(d.cfg, y);
    assert Peers()[0] == "x";
    TickPeer(d, Outage(y), "x");
  }

  /** The gate can be open: a secondary that names no primary, as one is when it is the lone candidate,
      announces x, is then told that x is the primary, and announces y while naming x. */
  lemma SecondarySpeaks() returns (ds: seq<Dog>, es: seq<Event>)
    ensures Run(ds, es) && |es| == 7 && SecondaryTo(ds[6].cfg) && PeerDown("y") in SentAt(ds, es, 6)
  {
    ds, es := AnnouncedThenNamed();
    var later := Ticked(Outage(false));
    ThreeOthers(Naming("x"));
    OutageTick(ds[4], false);
    ds, es := ExtendRun(ds, es, later);
    OutageTick(ds[5], false);
    ds, es := ExtendRun(ds, es, later);
    AnnouncesY(ds[6]);
    ds, es := ExtendRun(ds, es, later);
  }

  lemma AnnouncedThenNamed() returns (ds: seq<Dog>, es: seq<Event>)
    ensures Run(ds, es) && |es| == 4 && ds[4].cfg == Naming("x")
    ensures "x" in ds[4].announced && "y" !in ds[4].announced && Failures(ds[4], "y") == 0
  {
    ds, es := TwoFailures();
    ThreeOthers(Naming(""));
    OutageTick(ds[2], true);
    AnnouncesX(ds[2]);
    ds, es := ExtendRun(ds, es, Ticked(Outage(true)));
    ds, es := ExtendRun(ds, es, Reconfigured(Naming("x")));
  }

  lemma TwoFailures() returns (ds: seq<Dog>, es: seq<Event>)
    ensures Run(ds, es) && |es| == 2 && ds[2].cfg == Naming("")
    ensures "x" !in ds[2].announced && "y" !in ds[2].announced && Failures(ds[2], "x") == 2 && Failures(ds[2], "y") == 0
  {
    var first := Ticked(Outage(true));
    ds, es := [Dog(Naming(""), map[], {}, false, None, false)], [];
    ThreeOthers(Naming(""));
    OutageTick(ds[0], true);
    StartsUnannounced(ds[0], true);
    ds, es := ExtendRun(ds, es, first);
    OutageTick(ds[1], true);
    StartsUnannounced(ds[1], true);
    ds, es := ExtendRun(ds, es, first);
  }

  // -------------------------------------------------------------- panel notices

  lemma {:induction false} VisitKeepsPanel(d: Dog, c: Config, r: Round, peers: seq<string>, announce: bool)
    ensures var v := VisitAll(d, c, r, peers, announce);
      && v.dog.panelLost == d.panelLost && v.dog.panelNoticed == d.panelNoticed && v.dog.isolated == d.isolated
      && PanelQuiet !in v.sent && PanelBack !in v.sent
  {
    if peers != [] {
      VisitKeepsPanel(d, c, r, peers[..|peers| - 1], announce);
    }
  }

  /** How long the panel has been out of reach at a tick, by the clock of the first that found it so. */
  function Away(d: Dog, r: Round): Time {
    if d.panelLost.Some? then r.now - d.panelLost.value else 0
  }

  /** The panel is reported gone exactly by a tick that finds the tunnel down, once it has been for the
      minutes asked for, not yet reported, by a watcher that is not cut off and whose gate is open after
      the peers' visits, with no other server seeing the panel and the notice delivered. */
  lemma PanelQuietExactly(d: Dog, r: Round)
    requires Runs(d.cfg)
    ensures PanelQuiet in Tick(d, r).sent <==>
      && !r.connected && d.cfg.panelQuietMin > 0 && !d.panelNoticed && !CutOff(d.cfg, r)
      && MaySend(ProbePeers(d, d.cfg, r, true).dog, d.cfg)
      && Away(d, r) >= d.cfg.panelQuietMin * MINUTE && !r.panelSeen && PanelQuiet in r.delivered
  {
    VisitKeepsPanel(d.(isolated := false), d.cfg, r, Others(d.cfg), !r.connected);
  }

  /** And back exactly by one that finds the tunnel up, if it had been reported gone. */
  lemma PanelBackExactly(d: Dog, r: Round)
    requires Runs(d.cfg)
    ensures PanelBack in Tick(d, r).sent <==> r.connected && d.panelNoticed && PanelBack in r.delivered
    ensures r.connected ==> Tick(d, r).dog.panelLost.None? && !Tick(d, r).dog.panelNoticed
    ensures !r.connected ==> Tick(d, r).dog.panelLost == Some(if d.panelLost.Some? then d.panelLost.value else r.now)
  {
    VisitKeepsPanel(d.(isolated := false), d.cfg, r, Others(d.cfg), !r.connected);
  }

  /** A watcher takes itself for cut off exactly if no other peer answers, of two or more, or with fewer
      if its own line is down; it then counts no failures and says nothing of its peers. */
  lemma CutOffExactly(d: Dog, r: Round)
    requires Runs(d.cfg)
    ensures |Others(d.cfg)| >= 2 ==> (CutOff(d.cfg, r) <==> forall p :: p in Others(d.cfg) ==> p !in r.up)
    ensures |Others(d.cfg)| < 2 ==> (CutOff(d.cfg, r) <==> !r.lineUp)
    ensures CutOff(d.cfg, r) ==> Tick(d, r).dog.down == map[] && Tick(d, r).dog.announced == d.announced
    ensures Tick(d, r).dog.isolated == CutOff(d.cfg, r)
  {
    VisitKeepsPanel(d.(isolated := false), d.cfg, r, Others(d.cfg), !r.connected);
  }

  /** A configuration with the same role keeps everything tracked. */
  lemma ConfiguredKeeps(d: Dog, c: Config)
    ensures Configured(d, c).cfg == c && Configured(d, c).panelNoticed == d.panelNoticed
    ensures c.role == d.cfg.role ==> Configured(d, c).down == d.down && Configured(d, c).announced == d.announced
    ensures c.role != d.cfg.role ==> Configured(d, c).down == map[] && Configured(d, c).announced == {}
  {
  }
}
