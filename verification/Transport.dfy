/** Moving an agent from Tailscale to the built-in WireGuard tunnel and back:
    the trial, its confirmation and its expiry. */
module Transport {
  import opened Base
  import opened Samples
  import opened Text

  const TAILSCALE := "tailscale"
  const WIREGUARD := "wireguard"
  const SWITCH_FALLBACK := 10 * MINUTE

  /** The tunnel settings, as far as the protocol tells them apart. */
  type Tunnel = string

  /** What a join token decodes to; `url` is blank when it names no panel. */
  datatype JoinToken = JoinToken(url: string, tunnel: Tunnel, vpsID: string)

  datatype Config = Config(
    transport: string, wg: Option<Tunnel>, backendURL: string, vpsID: string, token: string,
    fallbackURL: string, fallbackUntil: Option<Time>)
  {
    predicate IsWireGuard() { transport == WIREGUARD && wg.Some? }

    /** A switch not yet heard through the tunnel. */
    predicate OnTrial(now: Time) {
      IsWireGuard() && fallbackURL != "" && fallbackUntil.Some? && now < fallbackUntil.value
    }

    /** Whether a failed tunnel may be followed by the old URL. */
    predicate FallbackActive(now: Time) {
      IsWireGuard() && fallbackURL != "" && (fallbackUntil.None? || now < fallbackUntil.value)
    }
  }

  // ------------------------------------------------------------- operations

  function Joined(c: Config, j: Option<JoinToken>): Result<Config> {
    if j.None? then Err("bad join token")
    else if j.value.url == "" then Err("join token has no panel address")
    else Ok(Config(WIREGUARD, Some(j.value.tunnel), j.value.url, j.value.vpsID, "", "", None))
  }

  function SwitchedToWireGuard(c: Config, j: Option<JoinToken>, now: Time): Result<Config> {
    if j.None? then Err("bad join token")
    else
      var t := j.value;
      if t.url == "" then Err("join token has no panel address")
      else
        var d := if c.fallbackURL == "" && c.backendURL != "" && c.backendURL != t.url
                 then c.(fallbackURL := c.backendURL, fallbackUntil := Some(now + SWITCH_FALLBACK)) else c;
        Ok(d.(transport := WIREGUARD, wg := Some(t.tunnel), backendURL := t.url,
              vpsID := if t.vpsID != "" then t.vpsID else c.vpsID))
  }

  function SwitchedToTailscale(c: Config, url: string): Result<Config> {
    if TrimSpace(url) == "" then Err("backend_url required")
    else
      Ok(c.(transport := TAILSCALE, backendURL := TrimSpace(url), wg := None,
            fallbackURL := "", fallbackUntil := None))
  }

  function Expired(c: Config, now: Time): Config {
    if !c.IsWireGuard() || c.fallbackURL == "" || c.fallbackUntil.None? || now < c.fallbackUntil.value then c
    else c.(backendURL := c.fallbackURL, transport := TAILSCALE, wg := None, fallbackURL := "", fallbackUntil := None)
  }

  function Acknowledged(c: Config, vpsID: string, token: string, viaTunnel: bool): Config {
    var d := c.(vpsID := if vpsID != "" then vpsID else c.vpsID, token := if token != "" then token else c.token);
    if viaTunnel && d.IsWireGuard() then d.(fallbackUntil := None) else d
  }

  function Kept(c: Config, r: Result<Config>): Config {
    if r.Ok? then r.value else c
  }

  /** The tunnel a dial goes through: none on Tailscale or over the active fallback. */
  function DialledOver(c: Config, useFallback: bool, now: Time): Option<Tunnel> {
    if c.IsWireGuard() && !(useFallback && c.FallbackActive(now)) then c.wg else None
  }

  /** Nothing but the tunnel to reach the panel by: no fallback, and so no trial to expire. */
  predicate TunnelOnly(c: Config) {
    c.IsWireGuard() && c.fallbackURL == ""
  }

  /** The configuration the agent holds, changed under the transport lock. */
  class AgentConfig {
    var config: Config

    constructor (c: Config)
      ensures config == c
    {
      config := c;
    }

    method ApplyJoin(j: Option<JoinToken>) returns (ok: bool)
      modifies this
      ensures ok <==> j.Some? && j.value.url != ""
      ensures !ok ==> config == old(config)
      ensures ok ==> config == Joined(old(config), j).value && TunnelOnly(config) && config.token == ""
      ensures ok ==> forall t :: Expired(config, t) == config && !config.OnTrial(t)
      ensures ok ==> forall t, useFallback :: DialledOver(config, useFallback, t) == Some(j.value.tunnel)
    {
      if j.None? || j.value.url == "" {
        return false;
      }
      config := config.(transport := WIREGUARD, wg := Some(j.value.tunnel), backendURL := j.value.url,
                        vpsID := j.value.vpsID, token := "");
      config := config.(fallbackURL := "", fallbackUntil := None);
      return true;
    }

    method ApplySwitchToWireGuard(j: Option<JoinToken>, now: Time) returns (ok: bool)
      modifies this
      ensures ok == SwitchedToWireGuard(old(config), j, now).Ok?
      ensures config == Kept(old(config), SwitchedToWireGuard(old(config), j, now))
    {
      if j.None? || j.value.url == "" {
        return false;
      }
      if config.fallbackURL == "" && config.backendURL != "" && config.backendURL != j.value.url {
        config := config.(fallbackURL := config.backendURL, fallbackUntil := Some(now + SWITCH_FALLBACK));
      }
      config := config.(transport := WIREGUARD, wg := Some(j.value.tunnel), backendURL := j.value.url);
      if j.value.vpsID != "" {
        config := config.(vpsID := j.value.vpsID);
      }
      return true;
    }

    method ApplySwitchToTailscale(url: string) returns (ok: bool)
      modifies this
      ensures ok == SwitchedToTailscale(old(config), url).Ok?
      ensures config == Kept(old(config), SwitchedToTailscale(old(config), url))
    {
      if TrimSpace(url) == "" {
        return false;
      }
      config := config.(transport := TAILSCALE, backendURL := TrimSpace(url), wg := None);
      config := config.(fallbackURL := "", fallbackUntil := None);
      return true;
    }

    method ExpireTrial(now: Time)
      modifies this
      ensures config == Expired(old(config), now)
    {
      if !config.IsWireGuard() || config.fallbackURL == "" || config.fallbackUntil.None? {
        return;
      }
      if now < config.fallbackUntil.value {
        return;
      }
      config := config.(backendURL := config.fallbackURL, transport := TAILSCALE, wg := None);
      config := config.(fallbackURL := "", fallbackUntil := None);
    }

    method ApplyRegisterAck(vpsID: string, token: string, viaTunnel: bool)
      modifies this
      ensures config == Acknowledged(old(config), vpsID, token, viaTunnel)
    {
      if vpsID != "" && config.vpsID != vpsID {
        config := config.(vpsID := vpsID);
      }
      if token != "" && config.token != token {
        config := config.(token := token);
      }
      if viaTunnel && config.IsWireGuard() && config.fallbackUntil.Some? {
        config := config.(fallbackUntil := None);
      }
    }
  }

  // ------------------------------------------------------------------- runs

  /** A session between choosing its endpoint and the panel's answer: whether it
      asked for the fallback, the tunnel it really dialled through, whether it
      will count as having come through the tunnel (decided when the handshake
      starts), and how many switches there had been when it dialled. */
  datatype Session = Session(useFallback: bool, over: Option<Tunnel>, viaTunnel: Option<bool>, epoch: nat)

  /** `home` is the URL the agent must never lose: the Tailscale one, or the one it last joined at.
      That one is an address inside the tunnel `joined`, and no use outside it. */
  datatype Agent = Agent(config: Config, session: Option<Session>, epoch: nat, home: string, joined: Option<Tunnel>)

  datatype Event =
    | SwitchWG(j: Option<JoinToken>, now: Time)
    | SwitchTS(url: string)
    | Join(j: Option<JoinToken>)
    | Expire(now: Time)
    | Dial(useFallback: bool, now: Time)
    | StartHandshake
    | Ack(vpsID: string, token: string)
    | Hangup

  predicate Enabled(a: Agent, e: Event) {
    match e
    case StartHandshake => a.session.Some? && a.session.value.viaTunnel.None?
    case Ack(_, _) => a.session.Some? && a.session.value.viaTunnel.Some?
    case Dial(_, _) => a.session.None?
    case _ => true
  }

  function Step(a: Agent, e: Event): Agent
    requires Enabled(a, e)
  {
    match e
    case SwitchWG(j, now) =>
      var r := SwitchedToWireGuard(a.config, j, now);
      if r.Ok? then a.(config := r.value, epoch := a.epoch + 1) else a
    case SwitchTS(url) =>
      var r := SwitchedToTailscale(a.config, url);
      if r.Ok? then a.(config := r.value, epoch := a.epoch + 1, home := TrimSpace(url), joined := None) else a
    case Join(j) =>
      // A separate start of the program rewrites the configuration; whatever session there was is gone.
      var r := Joined(a.config, j);
      if r.Ok? then Agent(r.value, None, a.epoch + 1, j.value.url, Some(j.value.tunnel)) else a
    case Expire(now) =>
      var d := Expired(a.config, now);
      a.(config := d, epoch := if d == a.config then a.epoch else a.epoch + 1)
    case Dial(useFallback, now) =>
      a.(session := Some(Session(useFallback, DialledOver(a.config, useFallback, now), None, a.epoch)))
    case StartHandshake =>
      var s := a.session.value;
      a.(session := Some(s.(viaTunnel := Some(a.config.IsWireGuard() && !s.useFallback))))
    case Ack(vpsID, token) =>
      a.(config := Acknowledged(a.config, vpsID, token, a.session.value.viaTunnel.value), session := None)
    case Hangup => a.(session := None)
  }

  /** Home is the URL in use, or the fallback of a tunnel in use. */
  ghost predicate HomeKept(c: Config, home: string) {
    && home != ""
    && (c.fallbackURL == "" || c.fallbackURL == home)
    && (c.fallbackURL == "" ==> c.backendURL == home)
    && (c.fallbackUntil.Some? ==> c.IsWireGuard() && c.fallbackURL == home)
    && (c.fallbackURL != "" ==> c.IsWireGuard())
  }

  ghost predicate SessionOk(a: Agent) {
    a.session.Some? && a.session.value.epoch == a.epoch ==>
      var s := a.session.value;
      && s.epoch <= a.epoch
      && (a.config.IsWireGuard() && !s.useFallback ==> s.over == a.config.wg)
      && (s.viaTunnel == Some(true) ==> a.config.IsWireGuard() && !s.useFallback)
  }

  ghost predicate Inv(a: Agent) {
    && HomeKept(a.config, a.home)
    && SessionOk(a)
    && (a.session.Some? ==> a.session.value.epoch <= a.epoch)
  }

  lemma StepInv(a: Agent, e: Event)
    requires Inv(a) && Enabled(a, e)
    ensures Inv(Step(a, e))
    ensures Step(a, e).home ==
      if e.SwitchTS? && TrimSpace(e.url) != "" then TrimSpace(e.url)
      else if e.Join? && e.j.Some? && e.j.value.url != "" then e.j.value.url
      else a.home
  {
  }

  ghost predicate StepAt(states: seq<Agent>, es: seq<Event>, i: nat)
    requires i < |es| && |states| == |es| + 1
  {
    Enabled(states[i], es[i]) && states[i + 1] == Step(states[i], es[i])
  }

  ghost predicate Run(states: seq<Agent>, es: seq<Event>) {
    && |states| == |es| + 1
    && (forall i :: 0 <= i < |es| ==> StepAt(states, es, i))
    && Start(states[0])
  }

  /** A Tailscale agent with a panel URL and no switch pending. */
  ghost predicate Start(a: Agent) {
    && a.config.transport != WIREGUARD && a.config.backendURL == a.home != ""
    && a.config.fallbackURL == "" && a.config.fallbackUntil.None? && a.session.None? && a.joined.None?
  }

  lemma {:induction false} RunInv(states: seq<Agent>, es: seq<Event>, n: nat)
    requires Run(states, es) && n <= |es|
    ensures Inv(states[n])
  {
    if n > 0 {
      RunInv(states, es, n - 1);
      assert StepAt(states, es, n - 1);
      StepInv(states[n - 1], es[n - 1]);
    }
  }

  /** Never stranded: through any sequence of switches, joins, sessions,
      acknowledgements and expiries, home is the URL in use or the
      fallback; a running trial means WireGuard with that fallback; and an
      expiry that fires restores exactly that URL. */
  lemma NeverStranded(states: seq<Agent>, es: seq<Event>, n: nat, now: Time)
    requires Run(states, es) && n <= |es|
    ensures var a := states[n];
            && a.home in {a.config.backendURL, a.config.fallbackURL}
            && (a.config.fallbackUntil.Some? ==> a.config.IsWireGuard() && a.config.fallbackURL == a.home)
            && (a.config.fallbackUntil.Some? && now >= a.config.fallbackUntil.value ==>
                  Expired(a.config, now).backendURL == a.home && Expired(a.config, now).transport == TAILSCALE)
  {
    RunInv(states, es, n);
  }

  /** A join gives up the old home: it is still the current or the fallback URL exactly if the token
      names it, and then only through the tunnel, with no expiry to go back by. */
  lemma JoinGivesUpHome(a: Agent, j: JoinToken, now: Time)
    requires Inv(a) && j.url != ""
    ensures var c := Step(a, Join(Some(j))).config;
            && (a.home in {c.backendURL, c.fallbackURL} <==> a.home == j.url)
            && TunnelOnly(c) && Expired(c, now) == c && c.token == ""
  {
  }

  predicate SetsHome(e: Event, home: string, joined: Option<Tunnel>) {
    match e
    case SwitchTS(url) => joined.None? && home == TrimSpace(url)
    case Join(j) => j.Some? && home == j.value.url && joined == Some(j.value.tunnel)
    case _ => false
  }

  /** Where home comes from: the start, the last switch to Tailscale, or the last join. */
  lemma {:induction false} HomeOrigin(states: seq<Agent>, es: seq<Event>, n: nat) returns (k: nat)
    requires Run(states, es) && n <= |es|
    ensures var a := states[n];
      if k < n then SetsHome(es[k], a.home, a.joined) else k == n && a.home == states[0].home && a.joined.None?
  {
    k := n;
    if n > 0 {
      assert StepAt(states, es, n - 1);
      k := HomeOrigin(states, es, n - 1);
      if (states[n].home, states[n].joined) != (states[n - 1].home, states[n - 1].joined) {
        k := n - 1;
      } else if k == n - 1 {
        k := n;
      }
    }
  }

  /** After a join, home is no way back: an agent joined at one panel address and then switched to a
      tunnel with another goes, when that trial expires, to Tailscale at the first, which only its
      tunnel led to. */
  lemma JoinedHomeIsNoWayBack(a0: Agent, j1: JoinToken, j2: JoinToken, now: Time)
      returns (states: seq<Agent>, es: seq<Event>)
    requires Start(a0) && j1.url != "" && j2.url != "" && j1.url != j2.url
    ensures Run(states, es) && |es| == 3 && es[2].Expire? && states[2].config.OnTrial(now)
    ensures var a := states[3];
      && a.joined == Some(j1.tunnel) && a.home == a.config.backendURL == j1.url && a.config.transport == TAILSCALE
      && forall useFallback, t :: DialledOver(a.config, useFallback, t) == None
  {
    es := [Join(Some(j1)), SwitchWG(Some(j2), now), Expire(now + SWITCH_FALLBACK)];
    var a1 := Step(a0, es[0]);
    var a2 := Step(a1, es[1]);
    states := [a0, a1, a2, Step(a2, es[2])];
  }

  /** The URLs one round dials outside the tunnel: the first attempt, and the fallback if it may follow. */
  function TriedOutside(c: Config, now: Time): set<string> {
    (if DialledOver(c, false, now).None? then {c.backendURL} else {})
    + (if c.FallbackActive(now) && DialledOver(c, true, now).None? then {c.fallbackURL} else {})
  }

  /** A round with configuration c dials home by a way that leads there: outside the tunnel, or for a
      home that was joined at through the tunnel of that join. */
  predicate Reaches(a: Agent, c: Config, now: Time) {
    if a.joined.None? then a.home in TriedOutside(c, now)
    else c.backendURL == a.home && DialledOver(c, false, now) == a.joined
  }

  /** The loop of `Run`: an expiry at t1, then attempts at t2. A Tailscale home is reached exactly off
      WireGuard or while the fallback is active. Otherwise either the trial ended between the two clock
      readings, and the next round's expiry goes back to home, or there is nothing but the tunnel: then
      every dial goes through it, and no expiry ever changes that. A joined home is reached exactly
      while the tunnel and the address of the join are the ones in use. */
  lemma HomeIsTried(states: seq<Agent>, es: seq<Event>, n: nat, t1: Time, t2: Time, t3: Time)
    requires Run(states, es) && n <= |es| && t1 <= t2 <= t3
    ensures var a := states[n]; var c := Expired(a.config, t1);
            && (a.joined.None? ==> (Reaches(a, c, t2) <==>
                  !c.IsWireGuard() || (c.fallbackURL != "" && (c.fallbackUntil.None? || t2 < c.fallbackUntil.value))))
            && (a.joined.None? && !Reaches(a, c, t2) && c.fallbackURL != "" ==>
                  t1 < c.fallbackUntil.value <= t2 && Reaches(a, Expired(c, t3), t3))
            && (a.joined.None? && !Reaches(a, c, t2) && c.fallbackURL == "" ==>
                  TunnelOnly(c) && c.backendURL == a.home && Expired(c, t3) == c && !Reaches(a, c, t3))
            && (a.joined.Some? ==>
                  (Reaches(a, c, t2) <==> c.IsWireGuard() && c.wg == a.joined && c.backendURL == a.home))
  {
    RunInv(states, es, n);
  }

  /** When there is nothing but the tunnel: after a join, or a switch with a token that names home
      itself, until the next successful switch. */
  lemma StepTunnelOnly(a: Agent, e: Event)
    requires Inv(a) && Enabled(a, e)
    ensures TunnelOnly(Step(a, e).config) <==>
      match e
      case Join(j) => (j.Some? && j.value.url != "") || TunnelOnly(a.config)
      case SwitchWG(j, _) =>
        if j.Some? && j.value.url != "" then a.config.fallbackURL == "" && j.value.url == a.home
        else TunnelOnly(a.config)
      case SwitchTS(url) => TrimSpace(url) == "" && TunnelOnly(a.config)
      case _ => TunnelOnly(a.config)
  {
  }

  /** A session stems from one dial, and knows how that went out. */
  lemma {:induction false} DialOf(states: seq<Agent>, es: seq<Event>, n: nat) returns (k: nat)
    requires Run(states, es) && n <= |es| && states[n].session.Some?
    ensures k < n && es[k].Dial? && forall i :: k < i <= n ==> states[i].session.Some?
    ensures var s, d := states[n].session.value, es[k];
            s.useFallback == d.useFallback && s.over == DialledOver(states[k].config, d.useFallback, d.now)
  {
    assert n > 0;
    assert StepAt(states, es, n - 1);
    if es[n - 1].Dial? {
      k := n - 1;
    } else {
      k := DialOf(states, es, n - 1);
    }
  }

  lemma CountedAsTunnelled(states: seq<Agent>, es: seq<Event>, n: nat)
    requires Run(states, es) && n <= |es| && states[n].session.Some? && states[n].session.value.viaTunnel == Some(true)
    ensures !states[n].session.value.useFallback
  {
    assert n > 0;
    assert StepAt(states, es, n - 1);
    if !es[n - 1].StartHandshake? {
      CountedAsTunnelled(states, es, n - 1);
    }
  }

  /** What ends a trial on WireGuard: a join, or an acknowledgement that counts as tunnelled. That
      one really came through a tunnel if and only if the agent was on WireGuard when it dialled, and
      through the tunnel now configured if nothing was switched since. */
  lemma OnlyTheTunnelConfirms(states: seq<Agent>, es: seq<Event>, n: nat) returns (k: nat)
    requires Run(states, es) && n < |es|
    requires states[n].config.fallbackUntil.Some? && states[n + 1].config.fallbackUntil.None?
    requires states[n + 1].config.IsWireGuard()
    ensures es[n].Join? || (es[n].Ack? && states[n].session.Some? && states[n].session.value.viaTunnel == Some(true))
    ensures es[n].Ack? ==>
      && k < n && es[k].Dial? && (forall i :: k < i <= n ==> states[i].session.Some?)
      && (states[n].session.value.over.Some? <==> states[k].config.IsWireGuard())
      && (states[n].session.value.epoch == states[n].epoch ==> states[n].session.value.over == states[n].config.wg)
  {
    RunInv(states, es, n);
    assert StepAt(states, es, n);
    k := 0;
    if es[n].Ack? {
      k := DialOf(states, es, n);
      CountedAsTunnelled(states, es, n);
    }
  }

  /** The other case happens: an agent switched between dialling over
      Tailscale and starting the handshake takes the answer for the tunnel's. */
  lemma ConfirmedWithoutTunnel(a0: Agent, j: JoinToken, now: Time) returns (states: seq<Agent>, es: seq<Event>)
    requires Start(a0) && j.url != "" && j.url != a0.home
    ensures Run(states, es) && |es| == 4
    ensures states[3].config.OnTrial(now) && states[3].session.Some? && states[3].session.value.over == None
    ensures states[4].config.IsWireGuard() && states[4].config.fallbackUntil.None?
  {
    es := [Dial(false, now), SwitchWG(Some(j), now), StartHandshake, Ack("", "")];
    var a1 := Step(a0, es[0]);
    var a2 := Step(a1, es[1]);
    var a3 := Step(a2, es[2]);
    var a4 := Step(a3, es[3]);
    states := [a0, a1, a2, a3, a4];
  }

  // ------------------------------------------------------- who the agent is

  predicate Usable(j: Option<JoinToken>) {
    j.Some? && j.value.url != ""
  }

  /** The server id an event gives the agent, if it gives one; a join always does. */
  function IdOf(e: Event): Option<string> {
    match e
    case Join(j) => if Usable(j) then Some(j.value.vpsID) else None
    case SwitchWG(j, _) => if Usable(j) && j.value.vpsID != "" then Some(j.value.vpsID) else None
    case Ack(vpsID, _) => if vpsID != "" then Some(vpsID) else None
    case _ => None
  }

  /** The credential an event gives it; a join takes it away. */
  function TokenOf(e: Event): Option<string> {
    match e
    case Join(j) => if Usable(j) then Some("") else None
    case Ack(_, token) => if token != "" then Some(token) else None
    case _ => None
  }

  /** The tunnel settings an event leaves it with, given the configuration it meets. */
  function TunnelOf(c: Config, e: Event): Option<Option<Tunnel>> {
    match e
    case Join(j) => if Usable(j) then Some(Some(j.value.tunnel)) else None
    case SwitchWG(j, _) => if Usable(j) then Some(Some(j.value.tunnel)) else None
    case SwitchTS(url) => if TrimSpace(url) != "" then Some(None) else None
    case Expire(now) => if c.fallbackUntil.Some? && now >= c.fallbackUntil.value then Some(None) else None
    case _ => None
  }

  ghost predicate NoId(es: seq<Event>, k: nat, n: nat) {
    forall i :: k <= i < n && i < |es| ==> IdOf(es[i]).None?
  }

  ghost predicate NoToken(es: seq<Event>, k: nat, n: nat) {
    forall i :: k <= i < n && i < |es| ==> TokenOf(es[i]).None?
  }

  /** What one event does to the agent's id and credential. */
  lemma StepIdentity(a: Agent, e: Event)
    requires Enabled(a, e)
    ensures Step(a, e).config.vpsID == if IdOf(e).Some? then IdOf(e).value else a.config.vpsID
    ensures Step(a, e).config.token == if TokenOf(e).Some? then TokenOf(e).value else a.config.token
  {
  }

  /** In every run the id is that of the last join, switch token or acknowledgement that named one. */
  lemma {:induction false} IdOrigin(states: seq<Agent>, es: seq<Event>, n: nat) returns (k: nat)
    requires Run(states, es) && n <= |es|
    ensures if k < n then IdOf(es[k]) == Some(states[n].config.vpsID) && NoId(es, k + 1, n)
            else k == n && NoId(es, 0, n) && states[n].config.vpsID == states[0].config.vpsID
  {
    k := n;
    if n > 0 {
      assert StepAt(states, es, n - 1);
      StepIdentity(states[n - 1], es[n - 1]);
      if IdOf(es[n - 1]).Some? {
        k := n - 1;
      } else {
        k := IdOrigin(states, es, n - 1);
        if k == n - 1 {
          k := n;
        }
      }
    }
  }

  /** And the credential that of the last acknowledgement that named one, none having been since a join. */
  lemma {:induction false} TokenOrigin(states: seq<Agent>, es: seq<Event>, n: nat) returns (k: nat)
    requires Run(states, es) && n <= |es|
    ensures if k < n then TokenOf(es[k]) == Some(states[n].config.token) && NoToken(es, k + 1, n)
            else k == n && NoToken(es, 0, n) && states[n].config.token == states[0].config.token
  {
    k := n;
    if n > 0 {
      assert StepAt(states, es, n - 1);
      StepIdentity(states[n - 1], es[n - 1]);
      if TokenOf(es[n - 1]).Some? {
        k := n - 1;
      } else {
        k := TokenOrigin(states, es, n - 1);
        if k == n - 1 {
          k := n;
        }
      }
    }
  }

  /** The tunnel is that of the last token, and gone after a switch to Tailscale or an expired trial. */
  lemma StepTunnel(a: Agent, e: Event)
    requires Inv(a) && Enabled(a, e)
    ensures Step(a, e).config.wg == if TunnelOf(a.config, e).Some? then TunnelOf(a.config, e).value else a.config.wg
    ensures Step(a, e).config.transport ==
      match TunnelOf(a.config, e)
      case None => a.config.transport
      case Some(t) => if t.Some? then WIREGUARD else TAILSCALE
  {
  }

  /** An acknowledgement leaves the way to the panel alone, and ends a trial exactly on WireGuard if it
      counts as tunnelled. */
  lemma AckLeavesTheWay(a: Agent, vpsID: string, token: string)
    requires Enabled(a, Ack(vpsID, token))
    ensures var c, d := a.config, Step(a, Ack(vpsID, token)).config;
      && d.transport == c.transport && d.wg == c.wg && d.backendURL == c.backendURL && d.fallbackURL == c.fallbackURL
      && d.fallbackUntil ==
           if a.session.value.viaTunnel.value && c.transport == WIREGUARD && c.wg.Some? then None else c.fallbackUntil
  {
  }

  /** A switch starts a trial of ten minutes with home to fall back to, unless the token names home or
      there is a fallback already; that one and its deadline are kept. */
  lemma SwitchStartsTrial(a: Agent, j: JoinToken, now: Time)
    requires Inv(a) && j.url != ""
    ensures var c, d := a.config, Step(a, SwitchWG(Some(j), now)).config;
      && d.backendURL == j.url
      && d.fallbackURL == (if c.fallbackURL == "" && j.url == a.home then "" else a.home)
      && d.fallbackUntil ==
           if c.fallbackURL == "" && j.url != a.home then Some(now + 10 * MINUTE) else c.fallbackUntil
  {
  }
}
