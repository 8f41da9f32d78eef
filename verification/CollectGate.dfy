/** The single-flight cache in front of each collector, with any number of
    callers interleaving at its lock and channel operations. */
module CollectGate {
  import opened Base

  /** Where one call of `do` stands. A channel is named by the number of the
      collection it was made for. */
  datatype Phase<T> =
    | Calling
    | Waiting(ch: nat)
    | Woken(ch: nat)
    | Collecting(ch: nat)
    | Publishing(ch: nat, v: T)
    | Closing(ch: nat, v: T)
    | Returned(v: T, from: nat, joined: Option<nat>)
  {
    /** Between taking `running` and giving it back. */
    predicate Holding() { Collecting? || Publishing? }

    /** Still to close a channel it made. */
    predicate Owes(c: nat) { (Collecting? || Publishing? || Closing?) && ch == c }

    function Rank(): nat {
      match this
      case Calling => 5
      case Waiting(_) => 2
      case Woken(_) => 1
      case Collecting(_) => 3
      case Publishing(_, _) => 2
      case Closing(_, _) => 1
      case Returned(_, _, _) => 0
    }
  }

  /** The gate's fields, the channels made and closed, and what each finished
      collection returned. `creators[ch]` is the caller that made channel ch. */
  datatype Gate<T> = Gate(
    running: bool, done: nat, value: T, at: Option<int>, window: int,
    creators: seq<nat>, closed: set<nat>, results: seq<T>, callers: seq<Phase<T>>)

  datatype Action<T> = Enter(now: int) | Collected(v: T) | Publish(now: int) | Close | Wake | Read

  function Set<T>(g: Gate<T>, c: nat, p: Phase<T>): Gate<T>
    requires c < |g.callers|
  {
    g.(callers := g.callers[c := p])
  }

  predicate Enabled<T>(g: Gate<T>, c: nat, a: Action<T>) {
    && c < |g.callers|
    && match a
       case Enter(_) => g.callers[c].Calling?
       case Collected(_) => g.callers[c].Collecting?
       case Publish(_) => g.callers[c].Publishing?
       case Close => g.callers[c].Closing?
       case Wake => g.callers[c].Waiting? && g.callers[c].ch in g.closed
       case Read => g.callers[c].Woken?
  }

  /** One atomic step of caller c: a region held under the mutex, the return of
      the collection, a close, or a wake-up. */
  function Step<T>(g: Gate<T>, c: nat, a: Action<T>): Gate<T>
    requires Enabled(g, c, a)
  {
    match a
    case Enter(now) =>
      if g.at.Some? && now - g.at.value < g.window then
        Set(g, c, Returned(g.value, if g.results == [] then 0 else |g.results| - 1, None))
      else if g.running then
        Set(g, c, Waiting(g.done))
      else
        Set(g.(running := true, done := |g.creators|, creators := g.creators + [c]), c, Collecting(|g.creators|))
    case Collected(v) => Set(g, c, Publishing(g.callers[c].ch, v))
    case Publish(now) =>
      var p := g.callers[c];
      Set(g.(value := p.v, at := Some(now), running := false, results := g.results + [p.v]), c, Closing(p.ch, p.v))
    case Close =>
      var p := g.callers[c];
      Set(g.(closed := g.closed + {p.ch}), c, Returned(p.v, p.ch, None))
    case Wake => Set(g, c, Woken(g.callers[c].ch))
    case Read =>
      Set(g, c, Returned(g.value, if g.results == [] then 0 else |g.results| - 1, Some(g.callers[c].ch)))
  }

  // -------------------------------------------------------------- invariant

  ghost predicate CallerOk<T>(g: Gate<T>, i: nat)
    requires i < |g.callers|
  {
    match g.callers[i]
    case Calling => true
    case Waiting(ch) => ch < |g.creators|
    case Woken(ch) => ch in g.closed
    case Collecting(ch) => g.running && ch == g.done && ch + 1 == |g.creators| && g.creators[ch] == i
    case Publishing(ch, _) => g.running && ch == g.done && ch + 1 == |g.creators| && g.creators[ch] == i
    case Closing(ch, v) =>
      && ch < |g.results| && g.results[ch] == v
      && ch < |g.creators| && g.creators[ch] == i && ch !in g.closed
    case Returned(v, from, joined) =>
      from < |g.results| && g.results[from] == v && (joined.Some? ==> joined.value <= from)
  }

  ghost predicate GateOk<T>(g: Gate<T>) {
    && |g.creators| == |g.results| + (if g.running then 1 else 0)
    && (g.running ==> g.done == |g.results|)
    && (g.at.Some? <==> g.results != [])
    && (g.results != [] ==> g.value == g.results[|g.results| - 1])
    && (forall ch :: ch in g.closed ==> ch < |g.results|)
    && (forall i :: 0 <= i < |g.creators| ==> g.creators[i] < |g.callers|)
  }

  /** Every channel not yet closed still has its creator to close it. */
  ghost predicate ChannelsOk<T>(g: Gate<T>)
    requires GateOk(g)
  {
    forall ch :: 0 <= ch < |g.creators| && ch !in g.closed ==> g.callers[g.creators[ch]].Owes(ch)
  }

  ghost predicate Inv<T>(g: Gate<T>) {
    GateOk(g) && ChannelsOk(g) && forall i :: 0 <= i < |g.callers| ==> CallerOk(g, i)
  }

  lemma StepGate<T>(g: Gate<T>, c: nat, a: Action<T>)
    requires Inv(g) && Enabled(g, c, a)
    ensures GateOk(Step(g, c, a))
  {
    assert CallerOk(g, c);
  }

  lemma StepChannels<T>(g: Gate<T>, c: nat, a: Action<T>)
    requires Inv(g) && Enabled(g, c, a) && GateOk(Step(g, c, a))
    ensures ChannelsOk(Step(g, c, a))
  {
    assert CallerOk(g, c);
    var h := Step(g, c, a);
    forall ch | 0 <= ch < |h.creators| && ch !in h.closed ensures h.callers[h.creators[ch]].Owes(ch) {
      if ch < |g.creators| {
        assert g.callers[g.creators[ch]].Owes(ch);
      }
    }
  }

  lemma StepSelf<T>(g: Gate<T>, c: nat, a: Action<T>)
    requires Inv(g) && Enabled(g, c, a) && GateOk(Step(g, c, a))
    ensures CallerOk(Step(g, c, a), c)
  {
    assert CallerOk(g, c);
  }

  lemma StepOther<T>(g: Gate<T>, c: nat, a: Action<T>, i: nat)
    requires Inv(g) && Enabled(g, c, a) && GateOk(Step(g, c, a)) && i < |g.callers| && i != c
    ensures CallerOk(Step(g, c, a), i)
  {
    assert CallerOk(g, c) && CallerOk(g, i);
    assert Step(g, c, a).callers[i] == g.callers[i];
  }

  lemma StepInv<T>(g: Gate<T>, c: nat, a: Action<T>)
    requires Inv(g) && Enabled(g, c, a)
    ensures Inv(Step(g, c, a))
  {
    StepGate(g, c, a);
    StepChannels(g, c, a);
    forall i | 0 <= i < |g.callers| ensures CallerOk(Step(g, c, a), i) {
      if i == c {
        StepSelf(g, c, a);
      } else {
        StepOther(g, c, a, i);
      }
    }
  }

  // ------------------------------------------------------------------- runs

  ghost predicate Start<T>(g: Gate<T>) {
    && !g.running && g.at.None? && g.creators == [] && g.closed == {} && g.results == []
    && forall i :: 0 <= i < |g.callers| ==> g.callers[i] == Calling
  }

  ghost predicate StepAt<T>(gs: seq<Gate<T>>, moves: seq<(nat, Action<T>)>, i: nat)
    requires i < |moves| && |gs| == |moves| + 1
  {
    Enabled(gs[i], moves[i].0, moves[i].1) && gs[i + 1] == Step(gs[i], moves[i].0, moves[i].1)
  }

  ghost predicate Run<T>(gs: seq<Gate<T>>, moves: seq<(nat, Action<T>)>) {
    |gs| == |moves| + 1 && Start(gs[0]) && forall i :: 0 <= i < |moves| ==> StepAt(gs, moves, i)
  }

  lemma {:induction false} RunInv<T>(gs: seq<Gate<T>>, moves: seq<(nat, Action<T>)>, n: nat)
    requires Run(gs, moves) && n <= |moves|
    ensures Inv(gs[n])
  {
    if n > 0 {
      RunInv(gs, moves, n - 1);
      assert StepAt(gs, moves, n - 1);
      StepInv(gs[n - 1], moves[n - 1].0, moves[n - 1].1);
    }
  }

  /** At most one collection is under way. */
  ghost predicate Exclusive<T>(g: Gate<T>) {
    forall i, j :: 0 <= i < j < |g.callers| ==> !(g.callers[i].Holding() && g.callers[j].Holding())
  }

  /** A channel about to be closed is open, and was made by the caller closing it. */
  ghost predicate ClosedOnceByCreator<T>(g: Gate<T>) {
    forall i: nat, ch: nat :: i < |g.callers| && g.callers[i].Owes(ch) ==>
      ch !in g.closed && ch < |g.creators| && g.creators[ch] == i
  }

  /** A blocked waiter's channel is closed, or its creator is yet to close it. */
  ghost predicate WaitersReleased<T>(g: Gate<T>) {
    forall i :: 0 <= i < |g.callers| && g.callers[i].Waiting? ==>
      g.callers[i].ch in g.closed || exists j :: 0 <= j < |g.callers| && g.callers[j].Owes(g.callers[i].ch)
  }

  /** Who returned has the result of a finished collection; a waiter, that of the
      one it joined or a later one. */
  ghost predicate ReturnsResults<T>(g: Gate<T>) {
    forall i :: 0 <= i < |g.callers| && g.callers[i].Returned? ==>
      var p := g.callers[i];
      p.from < |g.results| && p.v == g.results[p.from] && (p.joined.Some? ==> p.joined.value <= p.from)
  }

  lemma InvExclusive<T>(g: Gate<T>)
    requires Inv(g)
    ensures Exclusive(g)
  {
    forall i, j | 0 <= i < j < |g.callers| ensures !(g.callers[i].Holding() && g.callers[j].Holding()) {
      assert CallerOk(g, i) && CallerOk(g, j);
    }
  }

  lemma InvClosedOnce<T>(g: Gate<T>)
    requires Inv(g)
    ensures ClosedOnceByCreator(g)
  {
    forall i: nat, ch: nat | i < |g.callers| && g.callers[i].Owes(ch)
      ensures ch !in g.closed && ch < |g.creators| && g.creators[ch] == i
    {
      assert CallerOk(g, i);
    }
  }

  lemma InvReleased<T>(g: Gate<T>)
    requires Inv(g)
    ensures WaitersReleased(g)
  {
    forall i | 0 <= i < |g.callers| && g.callers[i].Waiting? && g.callers[i].ch !in g.closed
      ensures exists j :: 0 <= j < |g.callers| && g.callers[j].Owes(g.callers[i].ch)
    {
      assert CallerOk(g, i);
      var j := g.creators[g.callers[i].ch];
      assert 0 <= j < |g.callers| && g.callers[j].Owes(g.callers[i].ch);
    }
  }

  lemma InvReturns<T>(g: Gate<T>)
    requires Inv(g)
    ensures ReturnsResults(g)
  {
    forall i | 0 <= i < |g.callers| && g.callers[i].Returned?
      ensures var p := g.callers[i];
              p.from < |g.results| && p.v == g.results[p.from] && (p.joined.Some? ==> p.joined.value <= p.from)
    {
      assert CallerOk(g, i);
    }
  }

  /** Single flight, in every state any interleaving reaches. */
  lemma SingleFlight<T>(gs: seq<Gate<T>>, moves: seq<(nat, Action<T>)>, n: nat)
    requires Run(gs, moves) && n <= |moves|
    ensures Exclusive(gs[n]) && ClosedOnceByCreator(gs[n]) && WaitersReleased(gs[n]) && ReturnsResults(gs[n])
  {
    RunInv(gs, moves, n);
    InvExclusive(gs[n]);
    InvClosedOnce(gs[n]);
    InvReleased(gs[n]);
    InvReturns(gs[n]);
  }

  // --------------------------------------------------------------- progress

  ghost function Work<T>(ps: seq<Phase<T>>): nat {
    if ps == [] then 0 else ps[0].Rank() + Work(ps[1..])
  }

  lemma {:induction false} WorkUpdate<T>(ps: seq<Phase<T>>, c: nat, p: Phase<T>)
    requires c < |ps|
    ensures Work(ps[c := p]) == Work(ps) - ps[c].Rank() + p.Rank()
  {
    if c == 0 {
      assert ps[c := p][1..] == ps[1..];
    } else {
      assert ps[c := p][1..] == ps[1..][c - 1 := p];
      WorkUpdate(ps[1..], c - 1, p);
    }
  }

  lemma {:induction false} WorkAtStart<T>(ps: seq<Phase<T>>)
    requires forall i :: 0 <= i < |ps| ==> ps[i] == Calling
    ensures Work(ps) == 5 * |ps|
  {
    if ps != [] {
      WorkAtStart(ps[1..]);
    }
  }

  /** N callers are through in at most 5N steps, whatever the schedule. */
  lemma {:induction false} Terminates<T>(gs: seq<Gate<T>>, moves: seq<(nat, Action<T>)>, n: nat)
    requires Run(gs, moves) && n <= |moves|
    ensures |gs[n].callers| == |gs[0].callers|
    ensures n + Work(gs[n].callers) <= 5 * |gs[0].callers|
  {
    if n == 0 {
      WorkAtStart(gs[0].callers);
    } else {
      Terminates(gs, moves, n - 1);
      assert StepAt(gs, moves, n - 1);
      var g, h, c := gs[n - 1], gs[n], moves[n - 1].0;
      assert h.callers == g.callers[c := h.callers[c]];
      WorkUpdate(g.callers, c, h.callers[c]);
    }
  }

  /** No caller is ever stuck: while one has not returned, some step is possible. */
  lemma NeverStuck<T>(gs: seq<Gate<T>>, moves: seq<(nat, Action<T>)>, n: nat, i: nat, v: T)
      returns (c: nat, a: Action<T>)
    requires Run(gs, moves) && n <= |moves| && i < |gs[n].callers| && !gs[n].callers[i].Returned?
    ensures Enabled(gs[n], c, a)
  {
    RunInv(gs, moves, n);
    var g := gs[n];
    assert CallerOk(g, i);
    c := i;
    if g.callers[i].Waiting? && g.callers[i].ch !in g.closed {
      c := g.creators[g.callers[i].ch];
      assert g.callers[c].Owes(g.callers[i].ch);
    }
    match g.callers[c] {
      case Calling => a := Enter(0);
      case Collecting(_) => a := Collected(v);
      case Publishing(_, _) => a := Publish(0);
      case Closing(_, _) => a := Close;
      case Waiting(_) => a := Wake;
      case Woken(_) => a := Read;
      case Returned(_, _, _) => assert false;
    }
  }

  // -------------------------------------------------------------- freshness

  ghost predicate PublishesAt<T>(moves: seq<(nat, Action<T>)>, k: nat) {
    k < |moves| && moves[k].1.Publish?
  }

  /** Step k is the last before step n to publish a result. */
  ghost predicate LastPublish<T>(moves: seq<(nat, Action<T>)>, k: nat, n: nat) {
    k < n && PublishesAt(moves, k) && forall i: nat :: k < i < n ==> !PublishesAt(moves, i)
  }

  ghost predicate NonePublished<T>(moves: seq<(nat, Action<T>)>, n: nat) {
    forall i: nat :: i < n ==> !PublishesAt(moves, i)
  }

  /** The window is a constant of the gate. */
  lemma {:induction false} SameWindow<T>(gs: seq<Gate<T>>, moves: seq<(nat, Action<T>)>, n: nat)
    requires Run(gs, moves) && n <= |moves|
    ensures gs[n].window == gs[0].window
  {
    if n > 0 {
      SameWindow(gs, moves, n - 1);
      assert StepAt(gs, moves, n - 1);
    }
  }

  /** The gate holds the result published last, with the time of its publication. */
  lemma {:induction false} HoldsLastPublished<T>(gs: seq<Gate<T>>, moves: seq<(nat, Action<T>)>, k: nat, n: nat)
    requires Run(gs, moves) && n <= |moves| && LastPublish(moves, k, n)
    ensures gs[n].at == Some(moves[k].1.now)
    ensures moves[k].0 < |gs[k].callers| && gs[k].callers[moves[k].0].Publishing?
    ensures gs[n].value == gs[k].callers[moves[k].0].v
    decreases n
  {
    assert StepAt(gs, moves, n - 1);
    if k < n - 1 {
      HoldsLastPublished(gs, moves, k, n - 1);
      assert !PublishesAt(moves, n - 1);
    }
  }

  lemma {:induction false} HoldsNothing<T>(gs: seq<Gate<T>>, moves: seq<(nat, Action<T>)>, n: nat)
    requires Run(gs, moves) && n <= |moves| && NonePublished(moves, n)
    ensures gs[n].at.None?
  {
    if n > 0 {
      HoldsNothing(gs, moves, n - 1);
      assert StepAt(gs, moves, n - 1);
      assert !PublishesAt(moves, n - 1);
    }
  }

  /** What entering comes to: an answer at once, a wait for the collection under way, or a collection. */
  ghost predicate EntersWith<T>(g: Gate<T>, h: Gate<T>, c: nat, warm: bool)
    requires c < |g.callers| && c < |h.callers|
  {
    if warm then h.callers[c].Returned? && h.callers[c].v == g.value && h.creators == g.creators
    else if g.running then h.callers[c] == Waiting(g.done) && h.creators == g.creators
    else h.callers[c] == Collecting(|g.creators|) && h.creators == g.creators + [c] && h.running
  }

  /** A caller that enters less than the window after the last publication has that result at once and
      makes no channel; every other one waits for the collection under way or begins one. */
  lemma EnterAfterPublish<T>(gs: seq<Gate<T>>, moves: seq<(nat, Action<T>)>, k: nat, n: nat)
    requires Run(gs, moves) && n < |moves| && moves[n].1.Enter? && LastPublish(moves, k, n)
    ensures moves[n].0 < |gs[n].callers| == |gs[n + 1].callers|
    ensures EntersWith(gs[n], gs[n + 1], moves[n].0, moves[n].1.now - moves[k].1.now < gs[0].window)
    ensures moves[k].0 < |gs[k].callers| && gs[k].callers[moves[k].0].Publishing?
    ensures gs[n].value == gs[k].callers[moves[k].0].v
  {
    SameWindow(gs, moves, n);
    HoldsLastPublished(gs, moves, k, n);
    assert StepAt(gs, moves, n);
  }

  /** Before anything was published nobody is answered at once. */
  lemma EnterBeforePublish<T>(gs: seq<Gate<T>>, moves: seq<(nat, Action<T>)>, n: nat)
    requires Run(gs, moves) && n < |moves| && moves[n].1.Enter? && NonePublished(moves, n)
    ensures moves[n].0 < |gs[n].callers| == |gs[n + 1].callers|
    ensures EntersWith(gs[n], gs[n + 1], moves[n].0, false)
  {
    HoldsNothing(gs, moves, n);
    assert StepAt(gs, moves, n);
  }

  /** So a collection begun after another was published begins at least the window after it. */
  lemma CollectionsApart<T>(gs: seq<Gate<T>>, moves: seq<(nat, Action<T>)>, k: nat, n: nat)
    requires Run(gs, moves) && n < |moves| && LastPublish(moves, k, n)
    requires |gs[n + 1].creators| > |gs[n].creators|
    ensures moves[n].1.Enter? && moves[n].1.now - moves[k].1.now >= gs[0].window
  {
    assert StepAt(gs, moves, n);
    if moves[n].1.Enter? {
      EnterAfterPublish(gs, moves, k, n);
    }
  }
}
