/**
 * Flagged conditions without an open row. The engine reports a condition once, when its flag goes
 * up; a row that disappears while the flag stays leaves the condition silent. A dismissal does
 * that, and so does the 500-row trim. Which steps do it, and which end it, is stated exactly.
 */
module HiddenAlerts {
  import opened Base
  import opened Alerts

  ghost predicate HasOpen(rows: seq<Alert>, c: Condition) {
    exists a :: a in rows && Open(a, c)
  }

  /** Flagged, so not reported again, with no row to show for it. */
  ghost predicate Hidden(e: Engine, c: Condition) {
    c in e.active && !HasOpen(e.rows, c)
  }

  ghost predicate Shown(e: Engine) {
    forall c :: c in e.active ==> HasOpen(e.rows, c)
  }

  ghost predicate Sound(e: Engine) {
    Agrees(e) && |e.rows| <= MAX_ALERTS
  }

  /** An engine that has just adopted its rows shows every flagged condition. */
  lemma AdoptedShown(stored: seq<Alert>, e: Engine)
    requires AdoptedFrom(stored, e)
    ensures Shown(e)
  {
    forall c | c in e.active ensures HasOpen(e.rows, c) {
      var a :| a in e.rows && a.about == c;
      assert Open(a, c);
    }
  }

  // ------------------------------------------------------------ single steps

  predicate Clears(op: Op, c: Condition) {
    match op
    case Cleared(d) => d == c
    case ReachabilityCleared(vps) => c.vps == vps && c.kind in {AgentOffline, AgentDown} && c.key == ""
    case _ => false
  }

  /** Row i is the one a dismissal of the id removes. */
  ghost predicate FirstWith(rows: seq<Alert>, id: nat, i: nat) {
    i < |rows| && rows[i].id == id && forall j :: 0 <= j < i ==> rows[j].id != id
  }

  function Legacy(vps: string): Condition {
    Condition(vps, ServiceDown, "")
  }

  /** The step takes away the row of a condition and leaves its flag. */
  ghost predicate Hides(e: Engine, op: Op, c: Condition) {
    match op
    case Fired(d, _) => d !in e.active && |e.rows| >= MAX_ALERTS && Open(e.rows[0], c)
    case Dismissed(id) => exists i: nat :: FirstWith(e.rows, id, i) && Open(e.rows[i], c)
    case LegacyDropped(vps) => c == Legacy(vps) && HasOpen(e.rows, c)
    case _ => false
  }

  /** The row of at most one condition goes with the row removed. */
  lemma OpenWithout(rows: seq<Alert>, i: nat, c: Condition)
    requires NoTwoOpen(rows) && i < |rows|
    ensures HasOpen(Without(rows, i), c) <==> HasOpen(rows, c) && !Open(rows[i], c)
  {
    WithoutMembers(rows, i);
    var rest := Without(rows, i);
    if Open(rows[i], c) {
      forall a | a in rest ensures !Open(a, c) {
        var k :| 0 <= k < |rest| && rest[k] == a;
        assert if k < i then rest[k] == rows[k] else rest[k] == rows[k + 1];
      }
    }
  }

  lemma OpenPlus(rows: seq<Alert>, a: Alert, c: Condition)
    ensures HasOpen(rows + [a], c) <==> HasOpen(rows, c) || Open(a, c)
  {
    forall x: Alert ensures x in rows + [a] <==> x in rows || x == a {
    }
  }

  lemma OpenOthers(rows: seq<Alert>, d: Condition, c: Condition)
    ensures HasOpen(Others(rows, d), c) <==> HasOpen(rows, c) && c != d
  {
    OthersMembers(rows, d);
  }

  lemma FireHides(e: Engine, d: Condition, sev: Severity, c: Condition)
    requires Sound(e)
    ensures Hidden(Fire(e, d, sev), c) <==> Hidden(e, c) || Hides(e, Fired(d, sev), c)
  {
    if d !in e.active {
      var a := Alert(e.nextId, d, sev, false);
      if |e.rows| < MAX_ALERTS {
        OpenPlus(e.rows, a, c);
      } else {
        assert Newest(e.rows + [a], MAX_ALERTS) == e.rows[1..] + [a];
        OldestGoes(e.rows, c);
        OpenPlus(e.rows[1..], a, c);
      }
      if HasOpen(e.rows, c) {
        assert c in e.active;
      }
      if |e.rows| > 0 {
        assert e.rows[0] in e.rows;
      }
    }
  }

  lemma OldestGoes(rows: seq<Alert>, c: Condition)
    requires NoTwoOpen(rows) && rows != []
    ensures HasOpen(rows[1..], c) <==> HasOpen(rows, c) && !Open(rows[0], c)
  {
    OpenWithout(rows, 0, c);
    WithoutIs(rows, 0);
    assert rows[..0] + rows[1..] == rows[1..];
  }

  lemma DismissHides(e: Engine, id: nat, c: Condition)
    requires Sound(e)
    ensures Hidden(Dismiss(e, id), c) <==> Hidden(e, c) || Hides(e, Dismissed(id), c)
  {
    if i: nat :| FirstWith(e.rows, id, i) {
      DropsIt(e.rows, i);
      OpenWithout(e.rows, i, c);
      OnlyFirst(e.rows, id, i);
      assert e.rows[i] in e.rows;
    } else {
      NoFirst(e.rows, id);
      DropsNothing(e.rows, id);
    }
  }

  lemma OnlyFirst(rows: seq<Alert>, id: nat, i: nat)
    requires FirstWith(rows, id, i)
    ensures forall j: nat :: FirstWith(rows, id, j) ==> j == i
  {
  }

  lemma {:induction false} NoFirst(rows: seq<Alert>, id: nat)
    requires forall i: nat :: !FirstWith(rows, id, i)
    ensures forall j :: 0 <= j < |rows| ==> rows[j].id != id
  {
    if k :| 0 <= k < |rows| && rows[k].id == id {
      LeastWith(rows, id, k);
      assert false;
    }
  }

  lemma {:induction false} LeastWith(rows: seq<Alert>, id: nat, k: nat)
    requires k < |rows| && rows[k].id == id
    ensures exists i: nat :: FirstWith(rows, id, i)
  {
    if j :| 0 <= j < k && rows[j].id == id {
      LeastWith(rows, id, j);
    } else {
      assert FirstWith(rows, id, k);
    }
  }

  lemma ReachabilityHides(e: Engine, vps: string, c: Condition)
    ensures Hidden(ClearReachability(e, vps), c) <==> Hidden(e, c) && !Clears(ReachabilityCleared(vps), c)
  {
    var off, down := Condition(vps, AgentOffline, ""), Condition(vps, AgentDown, "");
    OpenOthers(e.rows, off, c);
    OpenOthers(Others(e.rows, off), down, c);
  }

  /** A step leaves a condition hidden exactly if it was and is not cleared, or the step hides it. */
  lemma StepHidden(e: Engine, op: Op, c: Condition)
    requires Sound(e)
    ensures Hidden(Step(e, op), c) <==> (Hidden(e, c) && !Clears(op, c)) || Hides(e, op, c)
  {
    match op
    case Fired(d, sev) => FireHides(e, d, sev, c);
    case Cleared(d) => OpenOthers(e.rows, d, c);
    case ReachabilityCleared(vps) => ReachabilityHides(e, vps, c);
    case Dismissed(id) => DismissHides(e, id, c);
    case LegacyDropped(vps) =>
      OpenOthers(e.rows, Legacy(vps), c);
      if HasOpen(e.rows, c) {
        assert c in e.active;
      }
  }

  /** What keeps every flagged condition shown: the alert is a repeat, or there is room for it, or
      the oldest row is an already resolved one; the row dismissed is resolved; no legacy row is open. */
  ghost predicate Keeps(e: Engine, op: Op) {
    match op
    case Fired(c, _) => c in e.active || |e.rows| < MAX_ALERTS || e.rows[0].resolved
    case Dismissed(id) => forall i: nat :: FirstWith(e.rows, id, i) ==> e.rows[i].resolved
    case LegacyDropped(vps) => !HasOpen(e.rows, Legacy(vps))
    case _ => true
  }

  lemma KeepsMeansHidesNone(e: Engine, op: Op)
    ensures Keeps(e, op) <==> forall c :: !Hides(e, op, c)
  {
    match op
    case Fired(d, sev) =>
      if !Keeps(e, op) {
        assert Hides(e, op, e.rows[0].about);
      }
    case Dismissed(id) =>
      if i: nat :| FirstWith(e.rows, id, i) && !e.rows[i].resolved {
        assert Hides(e, op, e.rows[i].about);
      }
    case LegacyDropped(vps) =>
      assert Hides(e, op, Legacy(vps)) <==> !Keeps(e, op);
    case _ =>
  }

  /** Every flagged condition keeps an open row through a step exactly under that condition. */
  lemma StepShown(e: Engine, op: Op)
    requires Sound(e) && Shown(e)
    ensures Shown(Step(e, op)) <==> Keeps(e, op)
  {
    KeepsMeansHidesNone(e, op);
    forall c ensures Hidden(Step(e, op), c) <==> Hides(e, op, c) {
      StepHidden(e, op, c);
    }
    if Shown(Step(e, op)) {
      forall c ensures !Hides(e, op, c) {
        assert !Hidden(Step(e, op), c);
      }
    } else {
      var c :| c in Step(e, op).active && !HasOpen(Step(e, op).rows, c);
      assert Hidden(Step(e, op), c);
    }
  }

  // -------------------------------------------------------------------- runs

  lemma StepSound(e: Engine, op: Op)
    requires Sound(e)
    ensures Sound(Step(e, op))
  {
    StepAgrees(e, op);
    if op.Dismissed? {
      DropShrinks(e.rows, op.id);
    }
  }

  lemma {:induction false} DropShrinks(rows: seq<Alert>, id: nat)
    ensures |DropById(rows, id)| <= |rows|
  {
    if rows != [] && rows[0].id != id {
      DropShrinks(rows[1..], id);
    }
  }

  lemma {:induction false} RunSound(e: Engine, ops: seq<Op>)
    requires Sound(e)
    ensures Sound(After(e, ops))
  {
    if ops != [] {
      RunSound(e, ops[..|ops| - 1]);
      StepSound(After(e, ops[..|ops| - 1]), ops[|ops| - 1]);
    }
  }

  lemma AfterSnoc(e: Engine, ops: seq<Op>, n: nat)
    requires n < |ops|
    ensures After(e, ops[..n + 1]) == Step(After(e, ops[..n]), ops[n])
  {
    assert ops[..n + 1][..n] == ops[..n];
  }

  ghost predicate ShownAt(e: Engine, ops: seq<Op>, n: nat) {
    n <= |ops| && Shown(After(e, ops[..n]))
  }

  ghost predicate KeepsAt(e: Engine, ops: seq<Op>, n: nat) {
    n < |ops| && Keeps(After(e, ops[..n]), ops[n])
  }

  lemma ShownNext(e: Engine, ops: seq<Op>, n: nat)
    requires Sound(e) && n < |ops| && ShownAt(e, ops, n)
    ensures ShownAt(e, ops, n + 1) <==> KeepsAt(e, ops, n)
  {
    RunSound(e, ops[..n]);
    AfterSnoc(e, ops, n);
    StepShown(After(e, ops[..n]), ops[n]);
  }

  lemma {:induction false} ShownUpTo(e: Engine, ops: seq<Op>, n: nat)
    requires Sound(e) && Shown(e) && n <= |ops| && forall i: nat :: i < n ==> KeepsAt(e, ops, i)
    ensures ShownAt(e, ops, n)
  {
    if n == 0 {
      assert ops[..0] == [];
    } else {
      ShownUpTo(e, ops, n - 1);
      ShownNext(e, ops, n - 1);
    }
  }

  /** A run keeps every flagged condition shown at all times exactly when each of its steps does. */
  lemma ShownThroughout(e: Engine, ops: seq<Op>)
    requires Sound(e) && Shown(e)
    ensures (forall n: nat :: n <= |ops| ==> ShownAt(e, ops, n)) <==>
            (forall n: nat :: n < |ops| ==> KeepsAt(e, ops, n))
  {
    if forall n: nat :: n < |ops| ==> KeepsAt(e, ops, n) {
      forall n: nat | n <= |ops| ensures ShownAt(e, ops, n) {
        ShownUpTo(e, ops, n);
      }
    } else {
      var n: nat :| n < |ops| && !KeepsAt(e, ops, n);
      if ShownAt(e, ops, n) {
        ShownNext(e, ops, n);
        assert !ShownAt(e, ops, n + 1);
      }
    }
  }

  /** The condition was hidden at the start (i = 0), or by step i - 1. */
  ghost predicate HiddenBy(e: Engine, ops: seq<Op>, i: nat, c: Condition) {
    i <= |ops| && if i == 0 then Hidden(e, c) else Hides(After(e, ops[..i - 1]), ops[i - 1], c)
  }

  ghost predicate UnclearedSince(ops: seq<Op>, i: nat, c: Condition) {
    forall k :: i <= k < |ops| ==> !Clears(ops[k], c)
  }

  ghost predicate Silenced(e: Engine, ops: seq<Op>, c: Condition) {
    exists i: nat :: HiddenBy(e, ops, i, c) && UnclearedSince(ops, i, c)
  }

  lemma HiddenByPrefix(e: Engine, ops: seq<Op>, i: nat, c: Condition)
    requires ops != [] && i <= |ops| - 1
    ensures HiddenBy(e, ops, i, c) == HiddenBy(e, ops[..|ops| - 1], i, c)
  {
    assert i > 0 ==> ops[..|ops| - 1][..i - 1] == ops[..i - 1];
  }

  lemma UnclearedSnoc(ops: seq<Op>, i: nat, c: Condition)
    requires ops != [] && i <= |ops| - 1
    ensures UnclearedSince(ops, i, c) <==> UnclearedSince(ops[..|ops| - 1], i, c) && !Clears(ops[|ops| - 1], c)
  {
  }

  lemma StaysSilenced(e: Engine, ops: seq<Op>, c: Condition)
    requires ops != [] && Silenced(e, ops[..|ops| - 1], c) && !Clears(ops[|ops| - 1], c)
    ensures Silenced(e, ops, c)
  {
    var i: nat :| HiddenBy(e, ops[..|ops| - 1], i, c) && UnclearedSince(ops[..|ops| - 1], i, c);
    HiddenByPrefix(e, ops, i, c);
    UnclearedSnoc(ops, i, c);
  }

  lemma NewlySilenced(e: Engine, ops: seq<Op>, c: Condition)
    requires ops != [] && Hides(After(e, ops[..|ops| - 1]), ops[|ops| - 1], c)
    ensures Silenced(e, ops, c)
  {
    assert HiddenBy(e, ops, |ops|, c) && UnclearedSince(ops, |ops|, c);
  }

  lemma SilencedBefore(e: Engine, ops: seq<Op>, c: Condition)
    requires ops != [] && Silenced(e, ops, c) && !Hides(After(e, ops[..|ops| - 1]), ops[|ops| - 1], c)
    ensures Silenced(e, ops[..|ops| - 1], c) && !Clears(ops[|ops| - 1], c)
  {
    var i: nat :| HiddenBy(e, ops, i, c) && UnclearedSince(ops, i, c);
    assert i <= |ops| - 1;
    HiddenByPrefix(e, ops, i, c);
    UnclearedSnoc(ops, i, c);
  }

  lemma SilencedSnoc(e: Engine, ops: seq<Op>, c: Condition)
    requires ops != []
    ensures var init, op := ops[..|ops| - 1], ops[|ops| - 1];
      Silenced(e, ops, c) <==> (Silenced(e, init, c) && !Clears(op, c)) || Hides(After(e, init), op, c)
  {
    var init, op := ops[..|ops| - 1], ops[|ops| - 1];
    if Hides(After(e, init), op, c) {
      NewlySilenced(e, ops, c);
    } else if Silenced(e, ops, c) {
      SilencedBefore(e, ops, c);
    } else if Silenced(e, init, c) && !Clears(op, c) {
      StaysSilenced(e, ops, c);
    }
  }

  /** In every run a condition is hidden at the end exactly when it was hidden at the start or some
      step hid it, and no later step cleared it, however often it was raised in between. */
  lemma {:induction false} HiddenExactly(e: Engine, ops: seq<Op>, c: Condition)
    requires Sound(e)
    ensures Hidden(After(e, ops), c) <==> Silenced(e, ops, c)
  {
    if ops == [] {
      assert Hidden(e, c) ==> HiddenBy(e, ops, 0, c) && UnclearedSince(ops, 0, c);
    } else {
      var init := ops[..|ops| - 1];
      HiddenExactly(e, init, c);
      RunSound(e, init);
      StepHidden(After(e, init), ops[|ops| - 1], c);
      SilencedSnoc(e, ops, c);
    }
  }

  predicate Raises(op: Op, c: Condition) {
    op.Fired? && op.c == c
  }

  lemma {:induction false} StaysDown(e: Engine, ops: seq<Op>, c: Condition)
    requires c !in e.active && forall op :: op in ops ==> !Raises(op, c)
    ensures c !in After(e, ops).active
  {
    if ops != [] {
      StaysDown(e, ops[..|ops| - 1], c);
      assert ops[|ops| - 1] in ops;
    }
  }

  /** A clearing step ends the silence: the next time the condition is raised it gets an open row. */
  lemma ReportedAfterClear(e: Engine, op: Op, ops: seq<Op>, c: Condition, sev: Severity)
    requires Clears(op, c) && forall o :: o in ops ==> !Raises(o, c)
    ensures HasOpen(Fire(After(Step(e, op), ops), c, sev).rows, c)
  {
    StaysDown(Step(e, op), ops, c);
    var f := After(Step(e, op), ops);
    var a, rows := Alert(f.nextId, c, sev, false), Fire(f, c, sev).rows;
    assert rows[|rows| - 1] == a;
    assert a in rows && Open(a, c);
  }

  // ------------------------------------------------ the trim at work in a run

  function Full(i: nat): Condition {
    Condition("server", DiskHigh, seq(i, _ => '/'))
  }

  function Raising(n: nat): seq<Op> {
    seq(n, (i: nat) => Fired(Full(i), Warning))
  }

  ghost predicate Row(a: Alert, i: nat) {
    !a.resolved && a.about == Full(i)
  }

  lemma FullDistinct(i: nat, j: nat)
    ensures Full(i) == Full(j) ==> i == j
  {
    assert |Full(i).key| == i && |Full(j).key| == j;
  }

  lemma {:induction false} Filling(n: nat)
    requires n <= MAX_ALERTS
    ensures var e := After(Engine({}, [], 0), Raising(n));
      && |e.rows| == n && (forall i :: 0 <= i < n ==> Row(e.rows[i], i))
      && forall i: nat :: Full(i) in e.active ==> i < n
  {
    if n > 0 {
      Filling(n - 1);
      assert Raising(n)[..n - 1] == Raising(n - 1);
      var e := After(Engine({}, [], 0), Raising(n - 1));
      forall i: nat ensures Full(i) == Full(n - 1) ==> i == n - 1 {
        FullDistinct(i, n - 1);
      }
    }
  }

  /** From an empty store, 501 different disk alerts: the last one takes away the row of the first,
      which stays flagged and is not reported again. */
  lemma TrimHidesOldest()
    ensures Hidden(After(Engine({}, [], 0), Raising(MAX_ALERTS + 1)), Full(0))
  {
    var e0 := Engine({}, [], 0);
    var ops := Raising(MAX_ALERTS);
    Filling(MAX_ALERTS);
    RunSound(e0, ops);
    assert Raising(MAX_ALERTS + 1)[..MAX_ALERTS] == ops;
    var e := After(e0, ops);
    assert Row(e.rows[0], 0);
    assert Full(MAX_ALERTS) !in e.active;
    StepHidden(e, Fired(Full(MAX_ALERTS), Warning), Full(0));
  }
}
