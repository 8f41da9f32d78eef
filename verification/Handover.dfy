/** The whole handover as a protocol: the agent samples to disk, flushes chunks
    into the write queue of whatever session is up, and drops each chunk once
    its frame is queued; sessions end at any moment; the backend backfills what
    reaches it. Any number of flushes may overlap. */
module Handover {
  import opened Base
  import opened Samples
  import opened HistoryLog
  import opened OfflineBuffers

  datatype Frame = Frame(session: nat, samples: seq<Sample>)

  /** A running `flushOffline`: the chunks not yet sent, the drop it owes for the
      one just sent, and the newest time it loaded. */
  datatype Flusher = Flusher(session: nat, todo: seq<seq<Sample>>, owes: Option<Time>, newest: Time)

  /** The last five fields are the minutes ever buffered and the explicit ways a
      minute can leave the protocol. */
  datatype World = World(
    clock: Time, disk: seq<Sample>, live: set<nat>, flushers: map<nat, Flusher>,
    queue: seq<Frame>, server: Series,
    buffered: set<int>, capped: set<int>, lost: set<int>, refused: set<int>, forgotten: set<int>)

  datatype Event =
    | Sampled(s: Sample, dropped: seq<Sample>)
    | Opened(n: nat)
    | FlushStarted(f: nat, n: nat, all: seq<Sample>, chunks: seq<seq<Sample>>)
    | Queued(f: nat)
    | QueuedTooLate(f: nat)
    | FlushStopped(f: nat)
    | DroppedSent(f: nat)
    | Ended(n: nat)
    | FrameLost(i: nat)
    | Delivered(i: nat, now: Time, dropped: seq<Sample>)
    | ServerRecorded(s: Sample)
    | ServerTrimmed(now: Time)
    | ServerRepeated(batch: seq<Sample>, now: Time, dropped: seq<Sample>)

  // ------------------------------------------------------------------ steps

  function QueueMinutes(q: seq<Frame>): set<int> {
    set fr, x | fr in q && x in fr.samples :: Minute(x.at)
  }

  function OfSession(q: seq<Frame>, n: nat, keep: bool): seq<Frame> {
    if q == [] then []
    else
      var r := OfSession(q[..|q| - 1], n, keep);
      if (q[|q| - 1].session == n) == keep then r + [q[|q| - 1]] else r
  }

  function Refused(batch: seq<Sample>, now: Time): set<int> {
    set x | x in batch && !Admissible(x, now) :: Minute(x.at)
  }

  /** The minutes a recorded sample pushes out over the cap; none if it is not accepted. */
  function CutOff(h: Series, s: Sample): set<int> {
    if Accepts(h, s) then Minutes(Older(h.samples + [s], MAX_SAMPLES)) else {}
  }

  function Aged(h: Series, now: Time): set<int> {
    set x | x in h.samples && x.at <= now - RETAIN :: Minute(x.at)
  }

  ghost predicate Next(w: World, e: Event, w': World) {
    match e
    case Sampled(s, dropped) =>
      && s.at >= w.clock
      && Appended(w.disk, s, w'.disk, dropped)
      && w' == w.(clock := s.at, disk := w'.disk, buffered := w.buffered + {Minute(s.at)},
                  capped := w.capped + Minutes(dropped))
    case Opened(n) => n !in w.live && w' == w.(live := w.live + {n})
    case FlushStarted(f, n, all, chunks) =>
      && f !in w.flushers && Loaded(w.disk, all) && all != [] && Cut(chunks, all, CHUNK_SIZE)
      && w' == w.(flushers := w.flushers[f := Flusher(n, chunks, None, LastTime(all))])
    case Queued(f) =>
      && f in w.flushers && w.flushers[f].owes.None? && w.flushers[f].todo != []
      && var fl := w.flushers[f];
      && fl.session in w.live && |OfSession(w.queue, fl.session, true)| < QUEUE_CAPACITY
      && w' == w.(queue := w.queue + [Frame(fl.session, fl.todo[0])], flushers := w.flushers[f := Sent(fl)])
    case QueuedTooLate(f) =>
      // The session ended between the two checks of `send`: the frame goes into
      // a channel nobody reads any more, and counts as sent.
      && f in w.flushers && w.flushers[f].owes.None? && w.flushers[f].todo != []
      && var fl := w.flushers[f];
      && fl.session !in w.live
      && w' == w.(lost := w.lost + Minutes(fl.todo[0]), flushers := w.flushers[f := Sent(fl)])
    case FlushStopped(f) => f in w.flushers && w' == w.(flushers := w.flushers - {f})
    case DroppedSent(f) =>
      && f in w.flushers && w.flushers[f].owes.Some?
      && var fl := w.flushers[f];
      && DroppedUpTo(w.disk, fl.owes.value, w'.disk)
      && w' == w.(disk := w'.disk, flushers := w.flushers[f := fl.(owes := None)])
    case Ended(n) =>
      w' == w.(live := w.live - {n}, queue := OfSession(w.queue, n, false),
               lost := w.lost + QueueMinutes(OfSession(w.queue, n, true)))
    case FrameLost(i) =>
      i < |w.queue| && w' == w.(queue := Without(w.queue, i), lost := w.lost + Minutes(w.queue[i].samples))
    case Delivered(i, now, dropped) =>
      && i < |w.queue|
      && Backfilled(w.server, w.queue[i].samples, now, w'.server, dropped)
      && w' == w.(queue := Without(w.queue, i), server := w'.server,
                  refused := w.refused + Refused(w.queue[i].samples, now),
                  forgotten := w.forgotten + Minutes(dropped))
    case ServerRecorded(s) =>
      w' == w.(server := Record(w.server, s), forgotten := w.forgotten + CutOff(w.server, s))
    case ServerTrimmed(now) =>
      w' == w.(server := Trim(w.server, now), forgotten := w.forgotten + Aged(w.server, now))
    case ServerRepeated(batch, now, dropped) =>
      && Backfilled(w.server, batch, now, w'.server, dropped)
      && w' == w.(server := w'.server, forgotten := w.forgotten + Minutes(dropped))
  }

  /** A chunk has left: it is off the list, and its drop is owed. */
  function Sent(fl: Flusher): Flusher
    requires fl.todo != []
  {
    fl.(todo := fl.todo[1..], owes := Some(LastTime(fl.todo[0])))
  }

  // -------------------------------------------------------------- invariant

  /** Minutes that have left the agent: on their way, arrived, or gone for a stated reason. */
  function Handed(w: World): set<int> {
    QueueMinutes(w.queue) + w.lost + Minutes(w.server.samples) + w.refused + w.forgotten
  }

  ghost predicate Accounted(w: World) {
    w.buffered <= Handed(w) + Minutes(w.disk) + w.capped
  }

  ghost predicate OnDiskOk(disk: seq<Sample>, clock: Time) {
    clock > ZERO_TIME && forall x :: x in disk ==> ZERO_TIME != x.at <= clock
  }

  /** Everything on disk that a flusher has not handed over is still on its list,
      or no older than the newest it loaded; what it is about to drop is handed over. */
  ghost predicate FlusherOk(fl: Flusher, disk: seq<Sample>, handed: set<int>, clock: Time) {
    && fl.newest <= clock
    && InOrder(Flatten(fl.todo))
    && (forall x :: x in Flatten(fl.todo) ==> x.at <= fl.newest)
    && (forall c :: c in fl.todo ==> c != [])
    && (forall x :: x in disk ==> Minute(x.at) in handed || x in Flatten(fl.todo) || x.at >= fl.newest)
    && (fl.owes.Some? ==>
          && fl.owes.value <= fl.newest
          && Minute(fl.owes.value) in handed
          && forall x :: x in disk && x.at <= fl.owes.value ==> Minute(x.at) in handed)
  }

  ghost predicate Inv(w: World) {
    && Accounted(w)
    && OnDiskOk(w.disk, w.clock)
    && forall f :: f in w.flushers ==> FlusherOk(w.flushers[f], w.disk, Handed(w), w.clock)
  }

  // ---------------------------------------------------------- small lemmas

  lemma FlusherKept(fl: Flusher, disk: seq<Sample>, handed: set<int>, clock: Time,
                    disk': seq<Sample>, handed': set<int>, clock': Time)
    requires FlusherOk(fl, disk, handed, clock)
    requires handed <= handed' && clock <= clock'
    requires forall x :: x in disk' ==> x in disk || x.at >= clock
    ensures FlusherOk(fl, disk', handed', clock')
  {
  }

  lemma ChunkSent(fl: Flusher, disk: seq<Sample>, handed: set<int>, clock: Time)
    requires FlusherOk(fl, disk, handed, clock) && fl.todo != []
    ensures FlusherOk(Sent(fl), disk, handed + Minutes(fl.todo[0]), clock)
  {
    var head, tail := fl.todo[0], fl.todo[1..];
    assert head in fl.todo;
    assert Flatten(fl.todo) == head + Flatten(tail);
    OrderedParts(head, Flatten(tail));
    forall c | c in tail ensures c != [] { assert c in fl.todo; }
    LastOfHead(head, Flatten(tail), fl.newest);
    forall x | x in disk && x.at <= LastTime(head) && Minute(x.at) !in handed
      ensures Minute(x.at) in Minutes(head)
    {
      assert x in head + Flatten(tail) || x.at >= fl.newest;
      CutMinute(head, Flatten(tail), fl.newest, x);
    }
  }

  lemma LastOfHead(head: seq<Sample>, rest: seq<Sample>, newest: Time)
    requires head != [] && forall x :: x in head + rest ==> x.at <= newest
    ensures LastTime(head) <= newest && Minute(LastTime(head)) in Minutes(head)
  {
    var last := head[|head| - 1];
    assert last in head && last in head + rest;
  }

  /** A sample no newer than a chunk's last, and not in the chunk, is of the very same time. */
  lemma CutMinute(head: seq<Sample>, rest: seq<Sample>, newest: Time, x: Sample)
    requires head != [] && x.at <= LastTime(head) <= newest && Minute(LastTime(head)) in Minutes(head)
    requires x in head + rest || x.at >= newest
    requires forall u, v :: u in head && v in rest ==> u.at <= v.at
    ensures Minute(x.at) in Minutes(head)
  {
    if x !in head {
      assert head[|head| - 1] in head;
      assert x.at == LastTime(head);
    }
  }

  lemma {:induction false} SessionSplit(q: seq<Frame>, n: nat)
    ensures forall fr :: fr in q <==> fr in OfSession(q, n, true) || fr in OfSession(q, n, false)
  {
    if q != [] {
      SessionSplit(q[..|q| - 1], n);
      assert q == q[..|q| - 1] + [q[|q| - 1]];
    }
  }

  lemma QueueSplit(q: seq<Frame>, a: seq<Frame>, b: seq<Frame>)
    requires forall fr :: fr in q <==> fr in a || fr in b
    ensures QueueMinutes(q) == QueueMinutes(a) + QueueMinutes(b)
  {
  }

  lemma QueueWithout(q: seq<Frame>, i: nat)
    requires i < |q|
    ensures QueueMinutes(q) == QueueMinutes(Without(q, i)) + Minutes(q[i].samples)
  {
    WithoutMembers(q, i);
    QueueSplit(q, Without(q, i), [q[i]]);
    assert QueueMinutes([q[i]]) == Minutes(q[i].samples);
  }

  lemma QueuePlus(q: seq<Frame>, fr: Frame)
    ensures QueueMinutes(q + [fr]) == QueueMinutes(q) + Minutes(fr.samples)
  {
    QueueSplit(q + [fr], q, [fr]);
    assert QueueMinutes([fr]) == Minutes(fr.samples);
  }

  /** No step takes a minute out of the accounted places. */
  lemma HandedGrows(w: World, e: Event, w': World)
    requires Next(w, e, w')
    ensures Handed(w) <= Handed(w')
  {
    match e
    case Queued(f) => QueuePlus(w.queue, Frame(w.flushers[f].session, w.flushers[f].todo[0]));
    case Ended(n) =>
      SessionSplit(w.queue, n);
      QueueSplit(w.queue, OfSession(w.queue, n, true), OfSession(w.queue, n, false));
    case FrameLost(i) => QueueWithout(w.queue, i);
    case Delivered(i, now, dropped) =>
      QueueWithout(w.queue, i);
      BackfillMinutes(w.server, w.queue[i].samples, now, w'.server, dropped);
      AdmissibleOrRefused(w.queue[i].samples, now);
    case ServerRecorded(s) => RecordedMinutes(w.server, s);
    case ServerTrimmed(now) => TrimmedMinutes(w.server, now);
    case ServerRepeated(batch, now, dropped) => BackfillMinutes(w.server, batch, now, w'.server, dropped);
    case _ =>
  }

  lemma AdmissibleOrRefused(batch: seq<Sample>, now: Time)
    ensures Minutes(batch) == AdmissibleMinutes(batch, now) + Refused(batch, now)
  {
  }

  lemma RecordedMinutes(h: Series, s: Sample)
    ensures Minutes(h.samples) <= Minutes(Record(h, s).samples) + CutOff(h, s)
  {
    var all := h.samples + [s];
    assert all == Older(all, MAX_SAMPLES) + Newest(all, MAX_SAMPLES);
    MinutesConcat(Older(all, MAX_SAMPLES), Newest(all, MAX_SAMPLES));
    MinutesConcat(h.samples, [s]);
  }

  lemma TrimmedMinutes(h: Series, now: Time)
    ensures Minutes(h.samples) <= Minutes(Trim(h, now).samples) + Aged(h, now)
  {
    SinceFilters(h.samples, now - RETAIN);
  }

  // ------------------------------------------------------------------- runs

  lemma StepAccounted(w: World, e: Event, w': World)
    requires Inv(w) && Next(w, e, w')
    ensures Accounted(w') && OnDiskOk(w'.disk, w'.clock)
  {
    HandedGrows(w, e, w');
    match e
    case Sampled(s, dropped) => AppendedMembers(w.disk, s, w'.disk, dropped);
    case DroppedSent(f) =>
      assert FlusherOk(w.flushers[f], w.disk, Handed(w), w.clock);
      DroppedMembers(w.disk, w.flushers[f].owes.value, w'.disk);
    case _ =>
  }

  lemma StepFlusher(w: World, e: Event, w': World, g: nat)
    requires Inv(w) && Next(w, e, w') && g in w'.flushers
    requires g in w.flushers && w'.flushers[g] == w.flushers[g]
    ensures FlusherOk(w'.flushers[g], w'.disk, Handed(w'), w'.clock)
  {
    HandedGrows(w, e, w');
    if e.Sampled? {
      AppendedMembers(w.disk, e.s, w'.disk, e.dropped);
    } else if e.DroppedSent? {
      DroppedMembers(w.disk, w.flushers[e.f].owes.value, w'.disk);
    }
    FlusherKept(w.flushers[g], w.disk, Handed(w), w.clock, w'.disk, Handed(w'), w'.clock);
  }

  lemma StepOwnFlusher(w: World, e: Event, w': World, f: nat)
    requires Inv(w) && Next(w, e, w') && f in w'.flushers
    requires f !in w.flushers || w'.flushers[f] != w.flushers[f]
    ensures FlusherOk(w'.flushers[f], w'.disk, Handed(w'), w'.clock)
  {
    HandedGrows(w, e, w');
    match e
    case FlushStarted(_, n, all, chunks) => AfterStart(w, w', f, n, all, chunks);
    case Queued(_) =>
      QueuePlus(w.queue, Frame(w.flushers[f].session, w.flushers[f].todo[0]));
      AfterSend(w, w', f);
    case QueuedTooLate(_) => AfterSend(w, w', f);
    case DroppedSent(_) => AfterDrop(w, w', f);
    case _ =>
  }

  lemma AfterStart(w: World, w': World, f: nat, n: nat, all: seq<Sample>, chunks: seq<seq<Sample>>)
    requires Inv(w) && Next(w, FlushStarted(f, n, all, chunks), w')
    ensures FlusherOk(w'.flushers[f], w'.disk, Handed(w'), w'.clock)
  {
    LoadedMembers(w.disk, all);
    LastIsLatest(all);
    assert all[|all| - 1] in all;
  }

  lemma AfterSend(w: World, w': World, f: nat)
    requires Inv(w) && f in w.flushers && w.flushers[f].todo != []
    requires f in w'.flushers && w'.flushers[f] == Sent(w.flushers[f]) && w'.disk == w.disk && w'.clock == w.clock
    requires Handed(w) + Minutes(w.flushers[f].todo[0]) <= Handed(w')
    ensures FlusherOk(w'.flushers[f], w'.disk, Handed(w'), w'.clock)
  {
    ChunkSent(w.flushers[f], w.disk, Handed(w), w.clock);
    FlusherKept(Sent(w.flushers[f]), w.disk, Handed(w) + Minutes(w.flushers[f].todo[0]), w.clock,
                w'.disk, Handed(w'), w'.clock);
  }

  lemma AfterDrop(w: World, w': World, f: nat)
    requires Inv(w) && Next(w, DroppedSent(f), w') && Handed(w) <= Handed(w')
    ensures FlusherOk(w'.flushers[f], w'.disk, Handed(w'), w'.clock)
  {
    DroppedMembers(w.disk, w.flushers[f].owes.value, w'.disk);
    FlusherKept(w.flushers[f].(owes := None), w.disk, Handed(w), w.clock, w'.disk, Handed(w'), w'.clock);
  }

  lemma StepInv(w: World, e: Event, w': World)
    requires Inv(w) && Next(w, e, w')
    ensures Inv(w')
  {
    StepAccounted(w, e, w');
    forall g | g in w'.flushers ensures FlusherOk(w'.flushers[g], w'.disk, Handed(w'), w'.clock) {
      if g in w.flushers && w'.flushers[g] == w.flushers[g] {
        StepFlusher(w, e, w', g);
      } else {
        StepOwnFlusher(w, e, w', g);
      }
    }
  }

  ghost predicate Start(w: World) {
    && w.disk == [] && w.flushers == map[] && w.queue == [] && w.live == {}
    && w.buffered == {} && w.capped == {} && w.lost == {} && w.refused == {} && w.forgotten == {}
    && w.clock > ZERO_TIME
  }

  ghost predicate NextAt(ws: seq<World>, es: seq<Event>, i: nat)
    requires i < |es| && |ws| == |es| + 1
  {
    Next(ws[i], es[i], ws[i + 1])
  }

  ghost predicate Run(ws: seq<World>, es: seq<Event>) {
    |ws| == |es| + 1 && Start(ws[0]) && forall i :: 0 <= i < |es| ==> NextAt(ws, es, i)
  }

  lemma {:induction false} RunInv(ws: seq<World>, es: seq<Event>, n: nat)
    requires Run(ws, es) && n <= |es|
    ensures Inv(ws[n])
  {
    if n > 0 {
      RunInv(ws, es, n - 1);
      assert NextAt(ws, es, n - 1);
      StepInv(ws[n - 1], es[n - 1], ws[n]);
    }
  }

  /** Conservation: in every run, every minute the agent ever buffered is on its
      disk, in a frame on its way, in the history, or among those explicitly
      capped, lost with a session, refused by the window or aged out. */
  lemma Conservation(ws: seq<World>, es: seq<Event>, n: nat, k: int)
    requires Run(ws, es) && n <= |es| && k in ws[n].buffered
    ensures var w := ws[n];
            || k in Minutes(w.disk) || k in QueueMinutes(w.queue) || k in Minutes(w.server.samples)
            || k in w.capped || k in w.lost || k in w.refused || k in w.forgotten
  {
    RunInv(ws, es, n);
  }

  /** The event takes minute k out of the protocol: it is cut off by the cap of the file, queued into
      a session already over, in a frame that dies with its session or on the way, outside the
      backend's window, or cut off or aged out there. */
  ghost predicate CarriesOff(w: World, e: Event, k: int) {
    match e
    case Sampled(_, dropped) => k in Minutes(dropped)
    case QueuedTooLate(f) => f in w.flushers && w.flushers[f].todo != [] && k in Minutes(w.flushers[f].todo[0])
    case Ended(n) => k in QueueMinutes(OfSession(w.queue, n, true))
    case FrameLost(i) => i < |w.queue| && k in Minutes(w.queue[i].samples)
    case Delivered(i, now, dropped) =>
      (i < |w.queue| && k in Refused(w.queue[i].samples, now)) || k in Minutes(dropped)
    case ServerRecorded(s) => k in CutOff(w.server, s)
    case ServerTrimmed(now) => k in Aged(w.server, now)
    case ServerRepeated(_, _, dropped) => k in Minutes(dropped)
    case _ => false
  }

  function Ledger(w: World): set<int> {
    w.capped + w.lost + w.refused + w.forgotten
  }

  lemma LedgerStep(w: World, e: Event, w': World, k: int)
    requires Next(w, e, w')
    ensures k in Ledger(w') <==> k in Ledger(w) || CarriesOff(w, e, k)
  {
  }

  ghost predicate CarriesOffAt(ws: seq<World>, es: seq<Event>, i: nat, k: int) {
    i < |es| && i < |ws| && CarriesOff(ws[i], es[i], k)
  }

  /** A minute is on the ledger of losses exactly if some event carried it off. */
  lemma {:induction false} LedgerExactly(ws: seq<World>, es: seq<Event>, n: nat, k: int)
    requires Run(ws, es) && n <= |es|
    ensures k in Ledger(ws[n]) <==> exists i: nat :: i < n && CarriesOffAt(ws, es, i, k)
  {
    if n > 0 {
      LedgerExactly(ws, es, n - 1, k);
      assert NextAt(ws, es, n - 1);
      LedgerStep(ws[n - 1], es[n - 1], ws[n], k);
      assert CarriesOffAt(ws, es, n - 1, k) <==> CarriesOff(ws[n - 1], es[n - 1], k);
    }
  }

  /** Once disk and queues have drained, the history holds every minute the agent ever buffered that
      no event carried off: in particular every one if no session ended with frames queued, no frame
      was lost or queued too late, and nothing was capped, out of window or aged out. */
  lemma DrainedMeansRecorded(ws: seq<World>, es: seq<Event>, n: nat, k: int)
    requires Run(ws, es) && n <= |es| && k in ws[n].buffered
    requires ws[n].disk == [] && ws[n].queue == []
    requires forall i: nat :: i < n ==> !CarriesOffAt(ws, es, i, k)
    ensures k in Minutes(ws[n].server.samples)
  {
    RunInv(ws, es, n);
    LedgerExactly(ws, es, n, k);
  }

  lemma Extend(ws: seq<World>, es: seq<Event>, e: Event, w: World) returns (ws': seq<World>, es': seq<Event>)
    requires Run(ws, es) && Next(ws[|es|], e, w)
    ensures Run(ws', es') && ws'[|es'|] == w
  {
    ws', es' := ws + [w], es + [e];
    forall i | 0 <= i < |es'| ensures NextAt(ws', es', i) {
      if i < |es| { assert NextAt(ws, es, i); }
    }
  }

  lemma BufferAndFlush(s: Sample, server: Series) returns (ws: seq<World>, es: seq<Event>)
    requires s.at > ZERO_TIME
    ensures Run(ws, es)
    ensures ws[|es|] == OneSession(s, server, [s], Flusher(0, [[s]], None, s.at), [])
  {
    OneLine(s);
    var w0 := World(s.at, [], {}, map[], [], server, {}, {}, {}, {}, {});
    ws, es := [w0], [];
    var w1 := w0.(disk := [s], buffered := {Minute(s.at)});
    ws, es := Extend(ws, es, Sampled(s, []), w1);
    var w2 := w1.(live := {0});
    ws, es := Extend(ws, es, Opened(0), w2);
    ws, es := Extend(ws, es, FlushStarted(0, 0, [s], [[s]]),
                     w2.(flushers := map[0 := Flusher(0, [[s]], None, s.at)]));
  }

  function OneSession(s: Sample, server: Series, disk: seq<Sample>, fl: Flusher, queue: seq<Frame>): World {
    World(s.at, disk, {0}, map[0 := fl], queue, server, {Minute(s.at)}, {}, {}, {}, {})
  }

  lemma QueuesIt(s: Sample, server: Series)
    requires s.at > ZERO_TIME
    ensures Next(OneSession(s, server, [s], Flusher(0, [[s]], None, s.at), []), Queued(0),
                 OneSession(s, server, [s], Flusher(0, [], Some(s.at), s.at), [Frame(0, [s])]))
  {
    OneFrame(s);
    assert [] + [Frame(0, [s])] == [Frame(0, [s])];
  }

  lemma DropsIt(s: Sample, server: Series)
    requires s.at > ZERO_TIME
    ensures Next(OneSession(s, server, [s], Flusher(0, [], Some(s.at), s.at), [Frame(0, [s])]), DroppedSent(0),
                 OneSession(s, server, [], Flusher(0, [], None, s.at), [Frame(0, [s])]))
  {
    OneLine(s);
    DropNext(OneSession(s, server, [s], Flusher(0, [], Some(s.at), s.at), [Frame(0, [s])]), 0, []);
    OneFlusher(Flusher(0, [], Some(s.at), s.at), Flusher(0, [], None, s.at));
  }

  lemma OneFlusher(a: Flusher, b: Flusher)
    ensures map[0 := a][0 := b] == map[0 := b]
  {
  }

  lemma DropNext(w: World, f: nat, disk: seq<Sample>)
    requires f in w.flushers && w.flushers[f].owes.Some? && DroppedUpTo(w.disk, w.flushers[f].owes.value, disk)
    ensures Next(w, DroppedSent(f), w.(disk := disk, flushers := w.flushers[f := w.flushers[f].(owes := None)]))
  {
  }

  lemma LateNext(w: World, f: nat)
    requires f in w.flushers && w.flushers[f].owes.None? && w.flushers[f].todo != [] && w.flushers[f].session !in w.live
    ensures var fl := w.flushers[f];
      Next(w, QueuedTooLate(f), w.(lost := w.lost + Minutes(fl.todo[0]), flushers := w.flushers[f := Sent(fl)]))
  {
  }

  lemma QueueAndDrop(s: Sample, server: Series) returns (ws: seq<World>, es: seq<Event>)
    requires s.at > ZERO_TIME
    ensures Run(ws, es) && ws[|es|] == OneSession(s, server, [], Flusher(0, [], None, s.at), [Frame(0, [s])])
  {
    ws, es := BufferAndFlush(s, server);
    QueuesIt(s, server);
    ws, es := Extend(ws, es, Queued(0), OneSession(s, server, [s], Flusher(0, [], Some(s.at), s.at), [Frame(0, [s])]));
    DropsIt(s, server);
    ws, es := Extend(ws, es, DroppedSent(0), OneSession(s, server, [], Flusher(0, [], None, s.at), [Frame(0, [s])]));
  }

  /** Acceptance into the write queue is not delivery: a sample buffered, flushed
      and dropped, whose session then ends, is nowhere but among the lost. */
  lemma QueuedIsNotDelivered(s: Sample, server: Series) returns (ws: seq<World>, es: seq<Event>)
    requires s.at > ZERO_TIME && Minute(s.at) !in Minutes(server.samples)
    ensures Run(ws, es) && Nowhere(ws[|es|], s, server)
  {
    OneFrame(s);
    ws, es := QueueAndDrop(s, server);
    ws, es := Extend(ws, es, Ended(0), ws[|es|].(live := {}, queue := [], lost := {Minute(s.at)}));
  }

  ghost predicate Nowhere(w: World, s: Sample, server: Series) {
    Minute(s.at) in w.buffered && w.lost == {Minute(s.at)} && w.disk == [] && w.queue == [] && w.server == server
  }

  /** The other two ways: the frame is lost on the way, */
  lemma FrameLostOnTheWay(s: Sample, server: Series) returns (ws: seq<World>, es: seq<Event>)
    requires s.at > ZERO_TIME && Minute(s.at) !in Minutes(server.samples)
    ensures Run(ws, es) && Nowhere(ws[|es|], s, server)
  {
    ws, es := QueueAndDrop(s, server);
    assert Without([Frame(0, [s])], 0) == [];
    assert Minutes([s]) == {Minute(s.at)};
    ws, es := Extend(ws, es, FrameLost(0), ws[|es|].(queue := [], lost := {Minute(s.at)}));
  }

  lemma EndsUnderFlush(s: Sample, server: Series)
    ensures var fl := Flusher(0, [[s]], None, s.at);
      Next(OneSession(s, server, [s], fl, []), Ended(0), OneSession(s, server, [s], fl, []).(live := {}))
  {
    assert OfSession([], 0, true) == [] && QueueMinutes([]) == {};
  }

  /** or its session ends just before it is queued. */
  lemma QueuedIntoDeadSession(s: Sample, server: Series) returns (ws: seq<World>, es: seq<Event>)
    requires s.at > ZERO_TIME && Minute(s.at) !in Minutes(server.samples)
    ensures Run(ws, es) && Nowhere(ws[|es|], s, server)
  {
    OneFrame(s);
    OneLine(s);
    ws, es := BufferAndFlush(s, server);
    EndsUnderFlush(s, server);
    var w := ws[|es|].(live := {});
    ws, es := Extend(ws, es, Ended(0), w);
    LateNext(w, 0);
    OneFlusher(Flusher(0, [[s]], None, s.at), Flusher(0, [], Some(s.at), s.at));
    OneMinute(s);
    w := w.(lost := {Minute(s.at)}, flushers := map[0 := Flusher(0, [], Some(s.at), s.at)]);
    ws, es := Extend(ws, es, QueuedTooLate(0), w);
    DropNext(w, 0, []);
    OneFlusher(Flusher(0, [], Some(s.at), s.at), Flusher(0, [], None, s.at));
    ws, es := Extend(ws, es, DroppedSent(0), w.(disk := [], flushers := map[0 := Flusher(0, [], None, s.at)]));
  }

  lemma OneMinute(s: Sample)
    ensures Minutes([s]) == {Minute(s.at)} && {} + Minutes([s]) == {Minute(s.at)}
  {
  }

  lemma OneLine(s: Sample)
    requires s.at != ZERO_TIME
    ensures Timed([]) == [] && [] + [s] == [s] && Timed([s]) == [s] && Loaded([s], [s])
    ensures Minutes([]) == {} && Cut([[s]], [s], CHUNK_SIZE)
    ensures DroppedUpTo([s], s.at, [])
  {
    assert [s][..0] == [] && Timed([s]) == Timed([]) + [s];
    assert [[s]][1..] == [] && Flatten([[s]]) == [s] + Flatten([]);
    assert Since([s], s.at) == Since([], s.at) == [];
  }

  lemma OneFrame(s: Sample)
    ensures Sent(Flusher(0, [[s]], None, s.at)) == Flusher(0, [], Some(s.at), s.at)
    ensures QueueMinutes([Frame(0, [s])]) == {Minute(s.at)}
    ensures OfSession([Frame(0, [s])], 0, true) == [Frame(0, [s])]
    ensures OfSession([Frame(0, [s])], 0, false) == []
  {
    var q := [Frame(0, [s])];
    assert q[..0] == [] && q[0] in q && s in q[0].samples;
  }
}
