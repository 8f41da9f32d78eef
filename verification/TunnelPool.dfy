/**
 * Tunnel addresses. A WireGuard server gets the lowest free address of 10.87.0.0/16; creating and
 * rekeying hold one lock across allocation and write, while forgetting and deleting a server do
 * not. No interleaving gives two servers the same address.
 */
module TunnelPool {
  import opened Base

  // --------------------------------------------------------------- addresses

  const BASE: nat := 10 * 0x100_0000 + 87 * 0x1_0000
  const SIZE: nat := 0x1_0000
  const BACKEND: nat := BASE + 1
  /** How many addresses the pool can give out: 254 in each of 256 blocks, less the backend's. */
  const CAPACITY: nat := 256 * 254 - 1

  predicate InPrefix(a: nat) {
    a / SIZE == BASE / SIZE
  }

  predicate Edge(a: nat) {
    a % 256 == 0 || a % 256 == 255
  }

  predicate Usable(a: nat) {
    InPrefix(a) && !Edge(a) && a != BACKEND
  }

  datatype Server = Server(
    tunnelIP: Option<nat>, publicKey: string, secrets: (string, string), endpoint: string, wireguard: bool)
  {
    predicate HasPeer() {
      publicKey != "" && tunnelIP.Some?
    }
  }

  type Registry = map<string, Server>

  function Taken(reg: Registry): set<nat> {
    set id | id in reg && reg[id].tunnelIP.Some? :: reg[id].tunnelIP.value
  }

  ghost predicate LowestFree(tip: nat, reg: Registry) {
    && Usable(tip) && tip !in Taken(reg)
    && forall a: nat :: a < tip && Usable(a) ==> a in Taken(reg)
  }

  ghost predicate Exhausted(reg: Registry) {
    forall a: nat :: Usable(a) ==> a in Taken(reg)
  }

  lemma InPool(a: nat)
    ensures InPrefix(a) <==> BASE <= a < BASE + SIZE
  {
  }

  /** The addresses of the pool, by their bytes. */
  lemma UsableBytes(a: nat)
    ensures Usable(a) <==>
      exists x: nat, y: nat :: ByteForm(a, x, y) && x < 256 && 1 <= y <= 254 && !(x == 0 && y == 1)
  {
    if Usable(a) {
      InPool(a);
      var r := a - BASE;
      assert ByteForm(a, r / 256, r % 256);
      LastByte(r / 256, r % 256);
    }
    if x: nat, y: nat :| ByteForm(a, x, y) && x < 256 && 1 <= y <= 254 && !(x == 0 && y == 1) {
      InPool(a);
      LastByte(x, y);
    }
  }

  /** a is 10.87.x.y. */
  predicate ByteForm(a: nat, x: nat, y: nat) {
    a == 10 * 16_777_216 + 87 * 65_536 + x * 256 + y
  }

  lemma LastByte(x: nat, y: nat)
    requires y < 256
    ensures (BASE + x * 256 + y) % 256 == y
  {
    assert BASE % 256 == 0;
  }

  method UsedAddresses(reg: Registry) returns (used: set<nat>)
    ensures used == {BACKEND} + Taken(reg)
  {
    used := {BACKEND};
    var ids := reg.Keys;
    while ids != {}
      invariant ids <= reg.Keys
      invariant used <= {BACKEND} + Taken(reg)
      invariant BACKEND in used
      invariant forall id :: id in reg && id !in ids && reg[id].tunnelIP.Some? ==> reg[id].tunnelIP.value in used
      decreases |ids|
    {
      var id :| id in ids;
      if reg[id].tunnelIP.Some? {
        used := used + {reg[id].tunnelIP.value};
      }
      ids := ids - {id};
    }
  }

  /** The lowest free address, or an error exactly when there is none. */
  method AllocateTunnelIP(reg: Registry) returns (r: Result<nat>)
    ensures r.Ok? ==> LowestFree(r.value, reg)
    ensures r.Err? <==> Exhausted(reg)
  {
    var used := UsedAddresses(reg);
    var ip := BASE + 2;
    while InPrefix(ip)
      invariant BASE + 2 <= ip <= BASE + SIZE
      invariant forall a: nat :: a < ip && Usable(a) ==> a in Taken(reg)
      decreases BASE + SIZE - ip
    {
      InPool(ip);
      if !Edge(ip) && ip !in used {
        assert Usable(ip);
        return Ok(ip);
      }
      ip := ip + 1;
    }
    forall a: nat | Usable(a) ensures a in Taken(reg) {
      InPool(a);
      InPool(ip);
    }
    r := Err("wireguard: tunnel subnet exhausted");
  }

  // ---------------------------------------------------------------- capacity

  /** The addresses of the first `k` blocks that are not at a block's edge. */
  function Blocks(k: nat): set<nat> {
    set a: nat | BASE <= a < BASE + 256 * k && !Edge(a)
  }

  function Span(lo: nat, n: nat): set<nat> {
    if n == 0 then {} else Span(lo, n - 1) + {lo + n - 1}
  }

  lemma {:induction false} SpanIs(lo: nat, n: nat)
    ensures |Span(lo, n)| == n
    ensures forall a :: a in Span(lo, n) <==> lo <= a < lo + n
  {
    if n > 0 {
      SpanIs(lo, n - 1);
    }
  }

  lemma {:induction false} BlocksSize(k: nat)
    ensures |Blocks(k)| == 254 * k
  {
    if k == 0 {
      assert Blocks(0) == {};
    } else {
      BlocksSize(k - 1);
      var lo := BASE + 256 * (k - 1) + 1;
      SpanIs(lo, 254);
      BlockAdded(k);
      assert Blocks(k - 1) !! Span(lo, 254);
    }
  }

  lemma BlockAdded(k: nat)
    requires k > 0
    ensures Blocks(k) == Blocks(k - 1) + Span(BASE + 256 * (k - 1) + 1, 254)
  {
    var block := Span(BASE + 256 * (k - 1) + 1, 254);
    SpanIs(BASE + 256 * (k - 1) + 1, 254);
    forall a: nat ensures a in Blocks(k) <==> a in Blocks(k - 1) || a in block {
      if a >= BASE + 256 * (k - 1) {
        EdgeOf(a - (BASE + 256 * (k - 1)), k - 1);
      }
    }
  }

  lemma EdgeOf(r: nat, k: nat)
    ensures r < 256 ==> (Edge(BASE + 256 * k + r) <==> r == 0 || r == 255)
  {
    assert BASE % 256 == 0;
    assert (BASE + 256 * k + r) % 256 == r % 256;
  }

  lemma {:induction false} TakenBounded(reg: Registry)
    ensures |Taken(reg)| <= |reg|
    decreases |reg|
  {
    if reg.Keys == {} {
      assert Taken(reg) == {};
    } else {
      var id :| id in reg;
      var rest := reg - {id};
      TakenBounded(rest);
      var one := if reg[id].tunnelIP.Some? then {reg[id].tunnelIP.value} else {};
      forall a | a in Taken(reg) ensures a in Taken(rest) + one {
        var i :| i in reg && reg[i].tunnelIP == Some(a);
        assert i != id ==> i in rest && rest[i] == reg[i];
      }
      assert Taken(reg) <= Taken(rest) + one;
      SubsetSize(Taken(reg), Taken(rest) + one);
    }
  }

  lemma {:induction false} SubsetSize<T>(a: set<T>, b: set<T>)
    requires a <= b
    ensures |a| <= |b|
  {
    if a != {} {
      var x :| x in a;
      SubsetSize(a - {x}, b - {x});
    }
  }

  lemma SubsetFull<T>(a: set<T>, b: set<T>)
    requires a <= b && |a| >= |b|
    ensures a == b
  {
    SubsetSize(b - a, b);
    assert |b - a| == |b| - |a|;
  }

  lemma Pool() returns (usable: set<nat>)
    ensures |usable| == CAPACITY && forall a: nat :: a in usable <==> Usable(a)
  {
    BlocksSize(256);
    usable := Blocks(256) - {BACKEND};
    assert BACKEND in Blocks(256);
    forall a: nat ensures a in usable <==> Usable(a) {
      InPool(a);
    }
  }

  /** Every address given out so far came from the pool. */
  ghost predicate Assigned(reg: Registry) {
    forall id :: id in reg && reg[id].tunnelIP.Some? ==> Usable(reg[id].tunnelIP.value)
  }

  /** The pool is exhausted exactly when all 65023 addresses are held, and never by fewer servers. */
  lemma ExhaustedWhenFull(reg: Registry)
    ensures Exhausted(reg) ==> |reg| >= |Taken(reg)| >= CAPACITY
    ensures Assigned(reg) ==> (Exhausted(reg) <==> |Taken(reg)| == CAPACITY)
  {
    TakenBounded(reg);
    var usable := Pool();
    if Exhausted(reg) {
      SubsetSize(usable, Taken(reg));
    }
    if Assigned(reg) {
      assert Taken(reg) <= usable;
      SubsetSize(Taken(reg), usable);
      if |Taken(reg)| == CAPACITY {
        SubsetFull(Taken(reg), usable);
      }
    }
  }

  // ------------------------------------------------- one operation at a time

  datatype Keys = Keys(public: string, secrets: (string, string))

  function Created(reg: Registry, id: string, endpoint: string, tip: nat, keys: Keys): Registry {
    reg[id := Server(Some(tip), keys.public, keys.secrets, endpoint, true)]
  }

  function Rekeyed(reg: Registry, id: string, endpoint: string, tip: nat, keys: Keys): Registry {
    if id !in reg then reg
    else
      reg[id := reg[id].(tunnelIP := Some(tip), publicKey := keys.public, secrets := keys.secrets,
                         endpoint := if endpoint != "" then endpoint else reg[id].endpoint)]
  }

  function Forgotten(reg: Registry, id: string): Registry {
    if id !in reg then reg else reg[id := Server(None, "", ("", ""), "", false)]
  }

  ghost predicate Distinct(reg: Registry) {
    forall i, j :: i in reg && j in reg && i != j && reg[i].tunnelIP.Some? ==> reg[i].tunnelIP != reg[j].tunnelIP
  }

  /** The panel's view of its WireGuard servers. */
  class WireGuardService {
    var registry: Registry

    /** `keys` is what the key generator answers, if it does; `id` the random id drawn. */
    method CreateServer(id: string, endpoint: string, keys: Option<Keys>) returns (r: Result<Server>)
      modifies this
      ensures r.Ok? <==> keys.Some? && !Exhausted(old(registry))
      ensures r.Err? ==> registry == old(registry)
      ensures r.Ok? ==>
        && r.value.tunnelIP.Some? && LowestFree(r.value.tunnelIP.value, old(registry))
        && registry == Created(old(registry), id, endpoint, r.value.tunnelIP.value, keys.value)
        && r.value == registry[id] && registry - {id} == old(registry) - {id}
        && r.value.publicKey == keys.value.public && r.value.secrets == keys.value.secrets
        && r.value.endpoint == endpoint && r.value.wireguard
      ensures old(Distinct(registry)) ==> Distinct(registry)
      ensures old(Assigned(registry)) ==> Assigned(registry)
    {
      var tip := AllocateTunnelIP(registry);
      if tip.Err? {
        return Err(tip.error);
      }
      if keys.None? {
        return Err("key generation failed");
      }
      FreeIsUnheld(registry, tip.value);
      registry := Created(registry, id, endpoint, tip.value, keys.value);
      r := Ok(registry[id]);
    }

    method Rekey(id: string, endpoint: string, keys: Option<Keys>) returns (r: Result<Server>)
      modifies this
      ensures r.Ok? <==>
        id in old(registry) && keys.Some? && (old(registry)[id].tunnelIP.Some? || !Exhausted(old(registry)))
      ensures r.Err? ==> registry == old(registry)
      ensures r.Ok? ==>
        && r.value.tunnelIP.Some?
        && registry == Rekeyed(old(registry), id, endpoint, r.value.tunnelIP.value, keys.value)
        && r.value == registry[id] && registry - {id} == old(registry) - {id}
        && r.value.publicKey == keys.value.public && r.value.secrets == keys.value.secrets
        && r.value.endpoint == (if endpoint != "" then endpoint else old(registry)[id].endpoint)
        && r.value.wireguard == old(registry)[id].wireguard
        && (if old(registry)[id].tunnelIP.Some? then r.value.tunnelIP == old(registry)[id].tunnelIP
            else LowestFree(r.value.tunnelIP.value, old(registry)))
      ensures old(Distinct(registry)) ==> Distinct(registry)
      ensures old(Assigned(registry)) ==> Assigned(registry)
    {
      if id !in registry {
        return Err("vps not found");
      }
      var tip := registry[id].tunnelIP;
      if tip.None? {
        var got := AllocateTunnelIP(registry);
        if got.Err? {
          return Err(got.error);
        }
        tip := Some(got.value);
      }
      if keys.None? {
        return Err("key generation failed");
      }
      registry := Rekeyed(registry, id, endpoint, tip.value, keys.value);
      r := Ok(registry[id]);
    }

    method Forget(id: string) returns (found: bool)
      modifies this
      ensures found <==> id in old(registry)
      ensures registry == Forgotten(old(registry), id) && registry - {id} == old(registry) - {id}
      ensures found ==>
        && id in registry && registry[id].tunnelIP.None? && registry[id].publicKey == ""
        && registry[id].secrets == ("", "") && registry[id].endpoint == "" && !registry[id].wireguard
      ensures old(Distinct(registry)) ==> Distinct(registry)
      ensures old(Assigned(registry)) ==> Assigned(registry)
    {
      if id !in registry {
        return false;
      }
      registry := Forgotten(registry, id);
      found := true;
    }
  }

  ghost predicate HeldBy(reg: Registry, ip: nat, id: string) {
    id in reg && reg[id].HasPeer() && reg[id].tunnelIP == Some(ip)
  }

  /** The server a tunnel address belongs to: whichever of its holders the map yields first. */
  method FindByTunnelIP(reg: Registry, ip: nat) returns (r: Option<string>)
    ensures r.Some? ==> HeldBy(reg, ip, r.value)
    ensures r.None? ==> forall id :: !HeldBy(reg, ip, id)
    ensures Distinct(reg) && r.Some? ==> forall id :: id in reg && reg[id].tunnelIP == Some(ip) ==> id == r.value
  {
    r := None;
    var ids := reg.Keys;
    while ids != {}
      invariant ids <= reg.Keys && r.None?
      invariant forall id :: HeldBy(reg, ip, id) ==> id in ids
      decreases |ids|
    {
      var id :| id in ids;
      if reg[id].HasPeer() && reg[id].tunnelIP == Some(ip) {
        return Some(id);
      }
      ids := ids - {id};
    }
  }

  ghost predicate Unheld(reg: Registry, tip: nat) {
    forall i :: i in reg ==> reg[i].tunnelIP != Some(tip)
  }

  lemma FreeIsUnheld(reg: Registry, tip: nat)
    ensures tip !in Taken(reg) <==> Unheld(reg, tip)
  {
  }

  // -------------------------------------------------------- every interleaving

  /** Where the one caller inside the creation lock has got to. */
  datatype Holder =
    | Idle
    | Creating(tip: nat)
    | Seen(id: string, known: Option<nat>)
    | Rekeying(id: string, tip: nat)

  datatype World = World(reg: Registry, holder: Holder)

  datatype Event =
    | Allocate
    | WriteNew(id: string, endpoint: string, keys: Keys)
    | Look(id: string)
    | Keep
    | WriteKeys(endpoint: string, keys: Keys)
    | GiveUp
    | Forget(id: string)
    | Delete(id: string)
    | Add(id: string, server: Server)
    | Touch(id: string, server: Server)

  /** Creating: allocate, then write. Rekeying: look the server up, settle its address, then write. */
  ghost predicate Next(w: World, e: Event, w': World) {
    match e
    case Allocate =>
      && w.holder.Idle? && w'.reg == w.reg
      && w'.holder.Creating? && LowestFree(w'.holder.tip, w.reg)
    case WriteNew(id, endpoint, keys) =>
      && w.holder.Creating?
      && w' == World(Created(w.reg, id, endpoint, w.holder.tip, keys), Idle)
    case Look(id) =>
      && w.holder.Idle? && id in w.reg
      && w' == World(w.reg, Seen(id, w.reg[id].tunnelIP))
    case Keep =>
      && w.holder.Seen? && w'.reg == w.reg
      && w'.holder.Rekeying? && w'.holder.id == w.holder.id
      && if w.holder.known.Some? then w'.holder.tip == w.holder.known.value else LowestFree(w'.holder.tip, w.reg)
    case WriteKeys(endpoint, keys) =>
      && w.holder.Rekeying?
      && w' == World(Rekeyed(w.reg, w.holder.id, endpoint, w.holder.tip, keys), Idle)
    case GiveUp => w' == w.(holder := Idle)
    case Forget(id) => w' == w.(reg := Forgotten(w.reg, id))
    case Delete(id) => w' == w.(reg := w.reg - {id})
    case Add(id, server) => server.tunnelIP.None? && w' == w.(reg := w.reg[id := server])
    case Touch(id, server) =>
      && id in w.reg && server.tunnelIP == w.reg[id].tunnelIP
      && w' == w.(reg := w.reg[id := server])
  }

  /** Nobody but the server being rekeyed holds the address. */
  ghost predicate Reserved(reg: Registry, id: string, tip: nat) {
    && Usable(tip)
    && forall i :: i in reg && i != id ==> reg[i].tunnelIP != Some(tip)
  }

  /** A server under the lock has the address that was seen, or has been forgotten since. */
  ghost predicate Unmoved(reg: Registry, id: string, tip: Option<nat>) {
    id in reg ==> reg[id].tunnelIP == None || reg[id].tunnelIP == tip
  }

  ghost predicate HolderOk(w: World) {
    match w.holder
    case Idle => true
    case Creating(tip) => Usable(tip) && tip !in Taken(w.reg)
    case Seen(id, tip) => Unmoved(w.reg, id, tip) && (tip.Some? ==> Reserved(w.reg, id, tip.value))
    case Rekeying(id, tip) => Unmoved(w.reg, id, Some(tip)) && Reserved(w.reg, id, tip)
  }

  ghost predicate Inv(w: World) {
    Distinct(w.reg) && Assigned(w.reg) && HolderOk(w)
  }

  /** The address of a server, if it has one. */
  function AddressOf(reg: Registry, id: string): Option<nat> {
    if id in reg then reg[id].tunnelIP else None
  }

  /** No server gains or changes an address; some may lose theirs. */
  ghost predicate OnlyLoses(reg: Registry, reg': Registry) {
    forall i :: AddressOf(reg', i) == None || AddressOf(reg', i) == AddressOf(reg, i)
  }

  lemma LosingKeeps(w: World, reg': Registry)
    requires Inv(w) && OnlyLoses(w.reg, reg')
    ensures Inv(w.(reg := reg'))
  {
    forall i | i in reg' && reg'[i].tunnelIP.Some?
      ensures i in w.reg && w.reg[i].tunnelIP == reg'[i].tunnelIP
    {
      assert AddressOf(reg', i) == AddressOf(w.reg, i);
    }
  }

  lemma StepInv(w: World, e: Event, w': World)
    requires Inv(w) && Next(w, e, w')
    ensures Inv(w')
  {
    match e
    case Allocate =>
    case WriteNew(id, endpoint, keys) =>
      FreeIsUnheld(w.reg, w.holder.tip);
    case Look(id) =>
    case Keep => KeepInv(w, w');
    case WriteKeys(endpoint, keys) =>
    case GiveUp =>
    case Forget(id) => LosingKeeps(w, w'.reg);
    case Delete(id) => LosingKeeps(w, w'.reg);
    case Add(id, server) => LosingKeeps(w, w'.reg);
    case Touch(id, server) => LosingKeeps(w, w'.reg);
  }

  lemma KeepInv(w: World, w': World)
    requires Inv(w) && Next(w, Keep, w')
    ensures Inv(w')
  {
    var tip := w'.holder.tip;
    if w.holder.known.None? {
      forall i | i in w.reg ensures w.reg[i].tunnelIP != Some(tip) {
      }
    }
  }

  ghost predicate StepAt(ws: seq<World>, es: seq<Event>, i: nat)
    requires |ws| == |es| + 1 && i < |es|
  {
    Next(ws[i], es[i], ws[i + 1])
  }

  ghost predicate Run(ws: seq<World>, es: seq<Event>) {
    |ws| == |es| + 1 && forall i :: 0 <= i < |es| ==> StepAt(ws, es, i)
  }

  lemma {:induction false} RunInv(ws: seq<World>, es: seq<Event>, n: nat)
    requires Run(ws, es) && n <= |es| && Inv(ws[0])
    ensures Inv(ws[n])
  {
    if n > 0 {
      RunInv(ws, es, n - 1);
      assert StepAt(ws, es, n - 1);
      StepInv(ws[n - 1], es[n - 1], ws[n]);
    }
  }

  /** In every run, from a registry with distinct pool addresses, no two servers share an address. */
  lemma AddressesStayDistinct(ws: seq<World>, es: seq<Event>, n: nat, i: string, j: string)
    requires Run(ws, es) && n <= |es|
    requires ws[0].holder.Idle? && Distinct(ws[0].reg) && Assigned(ws[0].reg)
    requires i in ws[n].reg && j in ws[n].reg && i != j && ws[n].reg[i].tunnelIP.Some?
    ensures ws[n].reg[i].tunnelIP != ws[n].reg[j].tunnelIP
  {
    RunInv(ws, es, n);
  }

  /** Every address in use comes from the pool; none is the backend's own. */
  lemma AddressesStayInPool(ws: seq<World>, es: seq<Event>, n: nat, id: string)
    requires Run(ws, es) && n <= |es|
    requires ws[0].holder.Idle? && Distinct(ws[0].reg) && Assigned(ws[0].reg)
    requires AddressOf(ws[n].reg, id).Some?
    ensures Usable(AddressOf(ws[n].reg, id).value)
  {
    RunInv(ws, es, n);
  }

  /** A server that has an address keeps it until it is forgotten, deleted or replaced. */
  lemma AddressIsSticky(ws: seq<World>, es: seq<Event>, n: nat, id: string)
    requires Run(ws, es) && n < |es| && Inv(ws[0])
    requires AddressOf(ws[n].reg, id).Some? && AddressOf(ws[n + 1].reg, id) != AddressOf(ws[n].reg, id)
    ensures es[n] == Forget(id) || es[n] == Delete(id) || (es[n].Add? && es[n].id == id)
      || (es[n].WriteNew? && es[n].id == id)
  {
    RunInv(ws, es, n);
    assert StepAt(ws, es, n);
  }
}
