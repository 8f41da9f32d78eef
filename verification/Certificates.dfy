/** Certificate alerts: each evaluation of a server's sites leaves exactly the
    flags those sites call for. */
module Certificates {
  import opened Base
  import opened Samples
  import opened Alerts

  const WARN_DAYS := 14
  const CRIT_DAYS := 3

  datatype Site = Site(domain: string, notAfter: Option<Time>)

  datatype Level = Warn | Crit | Expired

  function LevelName(l: Level): string {
    match l
    case Warn => "warn"
    case Crit => "crit"
    case Expired => "expired"
  }

  function LevelSeverity(l: Level): Severity { if l == Warn then Warning else Critical }

  function Key(vps: string, domain: string, l: Level): Condition {
    Condition(vps, CertExpiring, domain + "|" + LevelName(l))
  }

  /** The level's name is the last part of the key, so a key names one domain and level. */
  lemma KeysAreUnique(vps: string, d: string, l: Level, vps': string, d': string, l': Level)
    ensures Key(vps, d, l) == Key(vps', d', l') ==> vps == vps' && d == d' && l == l'
  {
    var s, s' := d + "|" + LevelName(l), d' + "|" + LevelName(l');
    if s == s' {
      assert s[|s| - 1] == LevelName(l)[|LevelName(l)| - 1];
      assert s'[|s'| - 1] == LevelName(l')[|LevelName(l')| - 1];
      assert s[..|s| - 1 - |LevelName(l)|] == d && s'[..|s'| - 1 - |LevelName(l')|] == d';
    }
  }

  predicate Counts(s: Site) { s.notAfter.Some? && s.domain != "" }

  function LevelOf(s: Site, now: Time): Option<Level>
    requires Counts(s)
  {
    var left := s.notAfter.value - now;
    if left <= 0 then Some(Expired)
    else if left <= CRIT_DAYS * DAY then Some(Crit)
    else if left <= WARN_DAYS * DAY then Some(Warn)
    else None
  }

  /** A certificate is at a level exactly from fourteen days before its end on, at the critical one from
      three days before, and expired from its end. */
  lemma LevelByDays(s: Site, now: Time)
    requires Counts(s)
    ensures LevelOf(s, now) == Some(Expired) <==> s.notAfter.value <= now
    ensures LevelOf(s, now) == Some(Crit) <==> now < s.notAfter.value <= now + 3 * DAY
    ensures LevelOf(s, now) == Some(Warn) <==> now + 3 * DAY < s.notAfter.value <= now + 14 * DAY
    ensures LevelOf(s, now) == None <==> s.notAfter.value > now + 14 * DAY
  {
  }

  /** The domains listed with a certificate. */
  function Seen(sites: seq<Site>): set<string> {
    set s | s in sites && Counts(s) :: s.domain
  }

  /** The level of a domain's last listed site. */
  function LastLevel(sites: seq<Site>, d: string, now: Time): Option<Level> {
    if sites == [] then None
    else if Counts(sites[|sites| - 1]) && sites[|sites| - 1].domain == d then LevelOf(sites[|sites| - 1], now)
    else LastLevel(sites[..|sites| - 1], d, now)
  }

  // -------------------------------------------------------------- evaluation

  function ClearOthers(e: Engine, vps: string, d: string, keep: Option<Level>): Engine {
    var e1 := if keep == Some(Warn) then e else Clear(e, Key(vps, d, Warn));
    var e2 := if keep == Some(Crit) then e1 else Clear(e1, Key(vps, d, Crit));
    if keep == Some(Expired) then e2 else Clear(e2, Key(vps, d, Expired))
  }

  function EvaluateSite(e: Engine, vps: string, s: Site, now: Time): Engine {
    if !Counts(s) then e
    else
      var level := LevelOf(s, now);
      var cleared := ClearOthers(e, vps, s.domain, level);
      if level.None? then cleared else Fire(cleared, Key(vps, s.domain, level.value), LevelSeverity(level.value))
  }

  function EvaluateSites(e: Engine, vps: string, sites: seq<Site>, now: Time): Engine {
    if sites == [] then e
    else EvaluateSite(EvaluateSites(e, vps, sites[..|sites| - 1], now), vps, sites[|sites| - 1], now)
  }

  /** The engine's flags and rows, and the domains each server last listed. */
  class CertWatch {
    var engine: Engine
    var certHosts: map<string, set<string>>

    constructor (e: Engine)
      ensures engine == e && certHosts == map[]
    {
      engine, certHosts := e, map[];
    }

    ghost function Hosts(vps: string): set<string>
      reads this
    {
      if vps in certHosts then certHosts[vps] else {}
    }

    /** After an evaluation, the server's certificate flags are those its sites
        call for, plus any for domains neither listed now nor remembered. */
    method EvaluateCerts(vps: string, sites: seq<Site>, now: Time)
      modifies this
      ensures Hosts(vps) == Seen(sites)
      ensures forall other :: other != vps ==> Hosts(other) == old(Hosts(other))
      ensures Refreshed(old(engine).active, old(Hosts(vps)), vps, sites, now, engine.active)
      ensures old(Agrees(engine)) ==> Agrees(engine)
    {
      var listed, seen := EvaluateListed(engine, vps, sites, now);
      var gone := (if vps in certHosts then certHosts[vps] else {}) - seen;
      var cleared := ForgetDomains(listed, vps, gone);
      ListedThenForgotten(engine.active, Hosts(vps), vps, sites, now, listed.active);
      engine := cleared;
      certHosts := certHosts[vps := seen];
    }
  }

  /** The loop over the listed sites. */
  method EvaluateListed(e: Engine, vps: string, sites: seq<Site>, now: Time) returns (e': Engine, seen: set<string>)
    ensures seen == Seen(sites)
    ensures Refreshed(e.active, {}, vps, sites, now, e'.active)
    ensures Agrees(e) ==> Agrees(e')
  {
    e', seen := e, {};
    for i := 0 to |sites|
      invariant seen == Seen(sites[..i]) && e' == EvaluateSites(e, vps, sites[..i], now)
    {
      var s := sites[i];
      assert sites[..i + 1] == sites[..i] + [s];
      assert sites[..i + 1][..i] == sites[..i];
      if !Counts(s) {
        continue;
      }
      seen := seen + {s.domain};
      e' := EvaluateSite(e', vps, s, now);
    }
    assert sites[..|sites|] == sites;
    SitesEvaluated(e, vps, sites, now);
  }

  /** The loop over the domains that were listed last time and no longer are. */
  method ForgetDomains(e: Engine, vps: string, gone: set<string>) returns (e': Engine)
    ensures e'.active == Unflagged(e.active, vps, gone)
    ensures Agrees(e) ==> Agrees(e')
  {
    e' := e;
    var todo := gone;
    while todo != {}
      invariant todo <= gone && e'.active == Unflagged(e.active, vps, gone - todo)
      invariant Agrees(e) ==> Agrees(e')
      decreases |todo|
    {
      var d :| d in todo;
      ClearedAll(e', vps, d);
      UnflaggedOneMore(e.active, vps, gone - todo, d);
      e' := ClearOthers(e', vps, d, None);
      assert gone - (todo - {d}) == (gone - todo) + {d};
      todo := todo - {d};
    }
  }

  ghost predicate CertKey(vps: string, c: Condition) {
    exists d, l :: c == Key(vps, d, l)
  }

  /** The flags after evaluating a server's sites: its certificate flags are as
      expected, and no other flag has changed. */
  ghost predicate Refreshed(before: set<Condition>, hosts: set<string>, vps: string, sites: seq<Site>, now: Time,
                            after: set<Condition>)
  {
    && (forall d, l :: Key(vps, d, l) in after <==> Expected(before, hosts, vps, sites, now, d, l))
    && (forall c :: !CertKey(vps, c) ==> (c in after <==> c in before))
  }

  lemma ListedThenForgotten(before: set<Condition>, hosts: set<string>, vps: string, sites: seq<Site>, now: Time,
                            listed: set<Condition>)
    requires Refreshed(before, {}, vps, sites, now, listed)
    ensures Refreshed(before, hosts, vps, sites, now, Unflagged(listed, vps, hosts - Seen(sites)))
  {
    UnflaggedKeys(listed, vps, hosts - Seen(sites));
  }

  /** Whether domain d is to be flagged at level l once `sites` are evaluated. */
  ghost predicate Expected(active: set<Condition>, hosts: set<string>, vps: string, sites: seq<Site>, now: Time,
                           d: string, l: Level)
  {
    if d in Seen(sites) then LastLevel(sites, d, now) == Some(l)
    else d !in hosts && Key(vps, d, l) in active
  }

  function Unflagged(active: set<Condition>, vps: string, domains: set<string>): set<Condition> {
    active - (set d, l | d in domains && l in {Warn, Crit, Expired} :: Key(vps, d, l))
  }

  lemma UnflaggedOneMore(active: set<Condition>, vps: string, domains: set<string>, d: string)
    ensures Unflagged(active, vps, domains + {d}) ==
            Unflagged(active, vps, domains) - {Key(vps, d, Warn), Key(vps, d, Crit), Key(vps, d, Expired)}
  {
  }

  lemma UnflaggedKeys(active: set<Condition>, vps: string, domains: set<string>)
    ensures forall d, l :: Key(vps, d, l) in Unflagged(active, vps, domains) <==>
              Key(vps, d, l) in active && d !in domains
    ensures forall c :: !CertKey(vps, c) ==> (c in Unflagged(active, vps, domains) <==> c in active)
  {
    forall d, l
      ensures Key(vps, d, l) in Unflagged(active, vps, domains) <==> Key(vps, d, l) in active && d !in domains
    {
      forall d', l' ensures Key(vps, d', l') == Key(vps, d, l) ==> d' == d { KeysAreUnique(vps, d', l', vps, d, l); }
    }
  }

  lemma ClearedAll(e: Engine, vps: string, d: string)
    ensures ClearOthers(e, vps, d, None).active ==
            e.active - {Key(vps, d, Warn), Key(vps, d, Crit), Key(vps, d, Expired)}
    ensures Agrees(e) ==> Agrees(ClearOthers(e, vps, d, None))
  {
    if Agrees(e) { ClearOthersAgrees(e, vps, d, None); }
  }

  lemma ClearOthersAgrees(e: Engine, vps: string, d: string, keep: Option<Level>)
    requires Agrees(e)
    ensures Agrees(ClearOthers(e, vps, d, keep))
  {
    var e1 := if keep == Some(Warn) then e else Clear(e, Key(vps, d, Warn));
    StepAgrees(e, Cleared(Key(vps, d, Warn)));
    var e2 := if keep == Some(Crit) then e1 else Clear(e1, Key(vps, d, Crit));
    StepAgrees(e1, Cleared(Key(vps, d, Crit)));
    StepAgrees(e2, Cleared(Key(vps, d, Expired)));
  }

  function OtherKeys(vps: string, d: string, keep: Option<Level>): set<Condition> {
    set l | l in {Warn, Crit, Expired} && keep != Some(l) :: Key(vps, d, l)
  }

  lemma OthersCleared(e: Engine, vps: string, d: string, keep: Option<Level>)
    ensures ClearOthers(e, vps, d, keep).active == e.active - OtherKeys(vps, d, keep)
  {
    OtherKeysAre(vps, d, keep);
    ClearedActive(e, vps, d, keep);
  }

  function KeyUnless(vps: string, d: string, l: Level, keep: Option<Level>): set<Condition> {
    if keep == Some(l) then {} else {Key(vps, d, l)}
  }

  lemma OtherKeysAre(vps: string, d: string, keep: Option<Level>)
    ensures OtherKeys(vps, d, keep) ==
      KeyUnless(vps, d, Warn, keep) + KeyUnless(vps, d, Crit, keep) + KeyUnless(vps, d, Expired, keep)
  {
    var keys := OtherKeys(vps, d, keep);
    assert forall l :: keep != Some(l) ==> Key(vps, d, l) in keys;
  }

  lemma ClearActive(e: Engine, c: Condition)
    ensures Clear(e, c).active == e.active - {c}
  {
  }

  lemma ClearedActive(e: Engine, vps: string, d: string, keep: Option<Level>)
    ensures ClearOthers(e, vps, d, keep).active ==
      e.active - (KeyUnless(vps, d, Warn, keep) + KeyUnless(vps, d, Crit, keep) + KeyUnless(vps, d, Expired, keep))
  {
    var e1 := if keep == Some(Warn) then e else Clear(e, Key(vps, d, Warn));
    ClearActive(e, Key(vps, d, Warn));
    assert e1.active == e.active - KeyUnless(vps, d, Warn, keep);
    var e2 := if keep == Some(Crit) then e1 else Clear(e1, Key(vps, d, Crit));
    ClearActive(e1, Key(vps, d, Crit));
    assert e2.active == e1.active - KeyUnless(vps, d, Crit, keep);
    ClearActive(e2, Key(vps, d, Expired));
  }

  lemma SiteEvaluated(e: Engine, vps: string, s: Site, now: Time)
    requires Counts(s)
    ensures var e' := EvaluateSite(e, vps, s, now);
            && (forall l :: Key(vps, s.domain, l) in e'.active <==> LevelOf(s, now) == Some(l))
            && (forall c :: (forall l :: c != Key(vps, s.domain, l)) ==> (c in e'.active <==> c in e.active))
  {
    OthersCleared(e, vps, s.domain, LevelOf(s, now));
    forall l, l' ensures Key(vps, s.domain, l) == Key(vps, s.domain, l') ==> l == l' {
      KeysAreUnique(vps, s.domain, l, vps, s.domain, l');
    }
    forall l
      ensures Key(vps, s.domain, l) in OtherKeys(vps, s.domain, LevelOf(s, now)) <==> LevelOf(s, now) != Some(l)
    {
    }
  }

  /** A newly reached level is a new row at the end, a warning only at the first level. */
  lemma SiteReported(e: Engine, vps: string, s: Site, now: Time, l: Level)
    requires Counts(s) && LevelOf(s, now) == Some(l) && Key(vps, s.domain, l) !in e.active
    ensures var rows := EvaluateSite(e, vps, s, now).rows;
      rows != [] && var a := rows[|rows| - 1];
      a.about == Key(vps, s.domain, l) && !a.resolved && (a.severity == Warning <==> l == Warn)
  {
    ClearedActive(e, vps, s.domain, Some(l));
    FireAdds(ClearOthers(e, vps, s.domain, Some(l)), Key(vps, s.domain, l), LevelSeverity(l));
  }

  lemma SiteAgrees(e: Engine, vps: string, s: Site, now: Time)
    requires Agrees(e)
    ensures Agrees(EvaluateSite(e, vps, s, now))
  {
    if Counts(s) {
      var level := LevelOf(s, now);
      ClearOthersAgrees(e, vps, s.domain, level);
      if level.Some? {
        FireAgrees(ClearOthers(e, vps, s.domain, level), Key(vps, s.domain, level.value), LevelSeverity(level.value));
      }
    }
  }

  lemma {:induction false} SitesEvaluated(e: Engine, vps: string, sites: seq<Site>, now: Time)
    ensures Refreshed(e.active, {}, vps, sites, now, EvaluateSites(e, vps, sites, now).active)
    ensures Agrees(e) ==> Agrees(EvaluateSites(e, vps, sites, now))
  {
    if sites != [] {
      var init, s := sites[..|sites| - 1], sites[|sites| - 1];
      SitesEvaluated(e, vps, init, now);
      var before := EvaluateSites(e, vps, init, now);
      if Agrees(before) {
        SiteAgrees(before, vps, s, now);
      }
      OneMoreSite(e.active, before, vps, sites, now);
    }
  }

  lemma SeenSnoc(init: seq<Site>, s: Site)
    ensures Seen(init + [s]) == Seen(init) + (if Counts(s) then {s.domain} else {})
  {
    forall x: Site ensures x in init + [s] <==> x in init || x == s {
    }
  }

  lemma LastLevelSnoc(init: seq<Site>, s: Site, d: string, now: Time)
    ensures LastLevel(init + [s], d, now) ==
      if Counts(s) && s.domain == d then LevelOf(s, now) else LastLevel(init, d, now)
  {
    assert (init + [s])[..|init|] == init;
  }

  lemma OtherDomain(e: Engine, vps: string, s: Site, now: Time, d: string, l: Level)
    requires Counts(s) && d != s.domain
    ensures Key(vps, d, l) in EvaluateSite(e, vps, s, now).active <==> Key(vps, d, l) in e.active
  {
    SiteEvaluated(e, vps, s, now);
    forall l' ensures Key(vps, d, l) != Key(vps, s.domain, l') {
      KeysAreUnique(vps, d, l, vps, s.domain, l');
    }
  }

  lemma OtherCondition(e: Engine, vps: string, s: Site, now: Time, c: Condition)
    requires !CertKey(vps, c)
    ensures c in EvaluateSite(e, vps, s, now).active <==> c in e.active
  {
    if Counts(s) {
      SiteEvaluated(e, vps, s, now);
    }
  }

  lemma ExpectedSnoc(start: set<Condition>, e: Engine, vps: string, init: seq<Site>, s: Site, now: Time,
                     d: string, l: Level)
    requires Key(vps, d, l) in e.active <==> Expected(start, {}, vps, init, now, d, l)
    ensures Key(vps, d, l) in EvaluateSite(e, vps, s, now).active <==> Expected(start, {}, vps, init + [s], now, d, l)
  {
    SeenSnoc(init, s);
    LastLevelSnoc(init, s, d, now);
    if Counts(s) {
      if d == s.domain {
        SiteEvaluated(e, vps, s, now);
      } else {
        OtherDomain(e, vps, s, now, d, l);
      }
    }
  }

  lemma OneMoreSite(start: set<Condition>, e: Engine, vps: string, sites: seq<Site>, now: Time)
    requires sites != [] && Refreshed(start, {}, vps, sites[..|sites| - 1], now, e.active)
    ensures Refreshed(start, {}, vps, sites, now, EvaluateSite(e, vps, sites[|sites| - 1], now).active)
  {
    var init, s := sites[..|sites| - 1], sites[|sites| - 1];
    assert sites == init + [s];
    forall d, l
      ensures Key(vps, d, l) in EvaluateSite(e, vps, s, now).active <==>
        Expected(start, {}, vps, sites, now, d, l)
    {
      ExpectedSnoc(start, e, vps, init, s, now, d, l);
    }
    forall c | !CertKey(vps, c) ensures c in EvaluateSite(e, vps, s, now).active <==> c in start {
      OtherCondition(e, vps, s, now, c);
    }
  }

  // ------------------------------------------------------------------- runs

  /** Every certificate flag of the server is for a domain it is remembered to have listed. */
  ghost predicate Remembered(active: set<Condition>, hosts: set<string>, vps: string) {
    forall d, l :: Key(vps, d, l) in active ==> d in hosts
  }

  /** The flags are a pure function of the sites: one per listed domain within 14
      days of expiry or past it, at the level of its last listed site, none else. */
  ghost predicate Exactly(active: set<Condition>, vps: string, sites: seq<Site>, now: Time) {
    forall d, l :: Key(vps, d, l) in active <==> d in Seen(sites) && LastLevel(sites, d, now) == Some(l)
  }

  /** An evaluation gives exactly the flags its sites call for, unless — and only
      unless — some flag is for a domain neither listed now nor remembered. */
  lemma ExactUnlessForgotten(before: set<Condition>, hosts: set<string>, vps: string, sites: seq<Site>, now: Time,
                             after: set<Condition>)
    requires Refreshed(before, hosts, vps, sites, now, after)
    ensures Exactly(after, vps, sites, now) <==>
            forall d, l :: Key(vps, d, l) in before ==> d in hosts || d in Seen(sites)
    ensures Remembered(before, hosts, vps) ==> Exactly(after, vps, sites, now) && Remembered(after, Seen(sites), vps)
  {
    if d, l :| Key(vps, d, l) in before && d !in hosts && d !in Seen(sites) {
      assert Key(vps, d, l) in after;
    }
  }

  /** One evaluation of one server, or anything else that happens to the flags in between. */
  datatype CertEvent = Evaluated(vps: string, sites: seq<Site>, now: Time) | Elsewhere

  datatype CertState = CertState(active: set<Condition>, hosts: map<string, set<string>>)

  ghost function HostsOf(s: CertState, vps: string): set<string> {
    if vps in s.hosts then s.hosts[vps] else {}
  }

  ghost predicate CertStep(s: CertState, e: CertEvent, s': CertState) {
    match e
    case Evaluated(vps, sites, now) =>
      && s'.hosts == s.hosts[vps := Seen(sites)]
      && Refreshed(s.active, HostsOf(s, vps), vps, sites, now, s'.active)
    case Elsewhere =>
      && s'.hosts == s.hosts
      && forall c: Condition :: c.kind == CertExpiring ==> (c in s.active <==> c in s'.active)
  }

  ghost predicate CertStepAt(states: seq<CertState>, es: seq<CertEvent>, i: nat)
    requires i < |es| && |states| == |es| + 1
  {
    CertStep(states[i], es[i], states[i + 1])
  }

  ghost predicate CertRun(states: seq<CertState>, es: seq<CertEvent>) {
    && |states| == |es| + 1
    && (forall i :: 0 <= i < |es| ==> CertStepAt(states, es, i))
    && (forall c :: c in states[0].active ==> c.kind != CertExpiring)
  }

  lemma OtherServersKeys(vps: string, d: string, l: Level, other: string)
    requires other != vps
    ensures !CertKey(vps, Key(other, d, l))
  {
    forall d', l' ensures Key(other, d, l) != Key(vps, d', l') {
      KeysAreUnique(other, d, l, vps, d', l');
    }
  }

  lemma {:induction false} RunRemembers(states: seq<CertState>, es: seq<CertEvent>, n: nat, vps: string)
    requires CertRun(states, es) && n <= |es|
    ensures Remembered(states[n].active, HostsOf(states[n], vps), vps)
  {
    if n > 0 {
      RunRemembers(states, es, n - 1, vps);
      assert CertStepAt(states, es, n - 1);
      var e := es[n - 1];
      if e.Evaluated? {
        var s, s' := states[n - 1], states[n];
        if e.vps == vps {
          ExactUnlessForgotten(s.active, HostsOf(s, vps), vps, e.sites, e.now, s'.active);
        } else {
          forall d, l ensures Key(vps, d, l) in s'.active <==> Key(vps, d, l) in s.active {
            OtherServersKeys(e.vps, d, l, vps);
          }
        }
      }
    }
  }

  /** In every run that did not start with adopted certificate alerts, each
      evaluation leaves exactly the flags its sites call for. */
  lemma CertificatesRefinePureFunction(states: seq<CertState>, es: seq<CertEvent>, n: nat)
    requires CertRun(states, es) && n < |es| && es[n].Evaluated?
    ensures Exactly(states[n + 1].active, es[n].vps, es[n].sites, es[n].now)
  {
    RunRemembers(states, es, n, es[n].vps);
    assert CertStepAt(states, es, n);
    ExactUnlessForgotten(states[n].active, HostsOf(states[n], es[n].vps), es[n].vps, es[n].sites, es[n].now,
                         states[n + 1].active);
  }
}
