/** Nothing is invented on the way: whatever the file, the flushes, the queues and the
    history hold was handed in, reading for reading, by some event of the run. */
module Provenance {
  import opened Base
  import opened Samples
  import opened HistoryLog
  import opened OfflineBuffers
  import opened Handover

  // ----------------------------------------------------------------- places

  ghost predicate FromAgent(x: Sample, es: seq<Event>, n: nat) {
    exists i: nat :: i < n && SampledAt(x, es, i)
  }

  predicate SampledAt(x: Sample, es: seq<Event>, i: nat) {
    i < |es| && es[i].Sampled? && es[i].s == x
  }

  /** The backend's own recording, or a chunk delivered to it once more. */
  predicate ToldAt(x: Sample, es: seq<Event>, i: nat) {
    i < |es| && ((es[i].ServerRecorded? && es[i].s == x) || (es[i].ServerRepeated? && x in es[i].batch))
  }

  ghost predicate ToldServer(x: Sample, es: seq<Event>, n: nat) {
    exists i: nat :: i < n && ToldAt(x, es, i)
  }

  ghost predicate InQueue(q: seq<Frame>, x: Sample) { exists fr :: fr in q && x in fr.samples }

  ghost predicate InFlush(fl: Flusher, x: Sample) { x in Flatten(fl.todo) }

  ghost predicate Flushing(flushers: map<nat, Flusher>, x: Sample) {
    exists f :: f in flushers && InFlush(flushers[f], x)
  }

  /** A place on the agent that holds the sample. */
  ghost predicate OnAgent(w: World, x: Sample) {
    x in w.disk || InQueue(w.queue, x) || Flushing(w.flushers, x)
  }

  // ------------------------------------------------------------------ steps

  lemma NewFlusher(flushers: map<nat, Flusher>, f: nat, fl: Flusher, x: Sample)
    requires Flushing(flushers[f := fl], x)
    ensures InFlush(fl, x) || Flushing(flushers, x)
  {
    var g :| g in flushers[f := fl] && InFlush(flushers[f := fl][g], x);
    if g != f {
      assert g in flushers && InFlush(flushers[g], x);
    }
  }

  lemma SentFlusher(w: World, f: nat, x: Sample)
    requires f in w.flushers && w.flushers[f].todo != []
    requires x in w.flushers[f].todo[0] || Flushing(w.flushers[f := Sent(w.flushers[f])], x)
    ensures Flushing(w.flushers, x)
  {
    var fl := w.flushers[f];
    assert Flatten(fl.todo) == fl.todo[0] + Flatten(fl.todo[1..]);
    if x !in fl.todo[0] {
      NewFlusher(w.flushers, f, Sent(fl), x);
    }
  }

  lemma FewerFrames(q: seq<Frame>, q': seq<Frame>, x: Sample)
    requires forall fr :: fr in q' ==> fr in q
    ensures InQueue(q', x) ==> InQueue(q, x)
  {
  }

  lemma StartHolds(w: World, e: Event, w': World, x: Sample)
    requires e.FlushStarted? && Next(w, e, w') && OnAgent(w', x)
    ensures OnAgent(w, x)
  {
    LoadedMembers(w.disk, e.all);
    if Flushing(w'.flushers, x) {
      NewFlusher(w.flushers, e.f, w'.flushers[e.f], x);
    }
  }

  lemma QueueHolds(w: World, e: Event, w': World, x: Sample)
    requires (e.Queued? || e.QueuedTooLate?) && Next(w, e, w') && OnAgent(w', x)
    ensures OnAgent(w, x)
  {
    var fl := w.flushers[e.f];
    if e.Queued? && InQueue(w'.queue, x) {
      var fr :| fr in w'.queue && x in fr.samples;
      if fr !in w.queue {
        SentFlusher(w, e.f, x);
      }
    }
    if Flushing(w'.flushers, x) {
      SentFlusher(w, e.f, x);
    }
  }

  lemma DropHolds(w: World, e: Event, w': World, x: Sample)
    requires e.DroppedSent? && Next(w, e, w') && OnAgent(w', x)
    ensures OnAgent(w, x)
  {
    DroppedMembers(w.disk, w.flushers[e.f].owes.value, w'.disk);
    if Flushing(w'.flushers, x) {
      NewFlusher(w.flushers, e.f, w'.flushers[e.f], x);
    }
  }

  lemma FrameHolds(w: World, e: Event, w': World, x: Sample)
    requires e.Ended? || e.FrameLost? || e.Delivered?
    requires Next(w, e, w') && OnAgent(w', x)
    ensures OnAgent(w, x)
  {
    if e.Ended? {
      SessionSplit(w.queue, e.n);
    } else {
      WithoutMembers(w.queue, e.i);
    }
    FewerFrames(w.queue, w'.queue, x);
  }

  /** A step puts nothing on the agent but the sample it takes. */
  lemma AgentStep(w: World, e: Event, w': World, x: Sample)
    requires Next(w, e, w') && OnAgent(w', x)
    ensures OnAgent(w, x) || (e.Sampled? && e.s == x)
  {
    match e
    case Sampled(s, dropped) => AppendedMembers(w.disk, s, w'.disk, dropped);
    case FlushStarted(_, _, _, _) => StartHolds(w, e, w', x);
    case Queued(_) => QueueHolds(w, e, w', x);
    case QueuedTooLate(_) => QueueHolds(w, e, w', x);
    case DroppedSent(_) => DropHolds(w, e, w', x);
    case Ended(_) => FrameHolds(w, e, w', x);
    case FrameLost(_) => FrameHolds(w, e, w', x);
    case Delivered(_, _, _) => FrameHolds(w, e, w', x);
    case _ =>
  }

  lemma BackfillHolds(h: Series, batch: seq<Sample>, now: Time, h': Series, dropped: seq<Sample>, x: Sample)
    requires Backfilled(h, batch, now, h', dropped) && x in h'.samples
    ensures x in h.samples || x in batch
  {
    Admitted(h.samples, batch, now);
    if h' != h {
      SameElements(dropped + h'.samples, Admit(h.samples, batch, now));
    }
  }

  /** A step puts nothing into the history but what was on the agent or what the backend is told. */
  lemma ServerStep(w: World, e: Event, w': World, x: Sample)
    requires Next(w, e, w') && x in w'.server.samples
    ensures x in w.server.samples || OnAgent(w, x) || ToldAt(x, [e], 0)
  {
    match e
    case Delivered(i, now, dropped) =>
      BackfillHolds(w.server, w.queue[i].samples, now, w'.server, dropped, x);
    case ServerRepeated(batch, now, dropped) => BackfillHolds(w.server, batch, now, w'.server, dropped, x);
    case ServerTrimmed(now) => SinceFilters(w.server.samples, now - RETAIN);
    case _ =>
  }

  // ------------------------------------------------------------------- runs

  /** In every run, whatever the agent's file, flushes and queues hold it sampled itself, unaltered. */
  lemma {:induction false} AgentInventsNothing(ws: seq<World>, es: seq<Event>, n: nat, x: Sample)
    requires Handover.Run(ws, es) && n <= |es| && OnAgent(ws[n], x)
    ensures FromAgent(x, es, n)
  {
    if n > 0 {
      assert NextAt(ws, es, n - 1);
      AgentStep(ws[n - 1], es[n - 1], ws[n], x);
      if OnAgent(ws[n - 1], x) {
        AgentInventsNothing(ws, es, n - 1, x);
      } else {
        assert SampledAt(x, es, n - 1);
      }
    }
  }

  /** In every run, each sample in the history was there at the start, sampled by the agent, or
      recorded or delivered anew by the backend, and never with other readings. */
  lemma {:induction false} ServerInventsNothing(ws: seq<World>, es: seq<Event>, n: nat, x: Sample)
    requires Handover.Run(ws, es) && n <= |es| && x in ws[n].server.samples
    ensures x in ws[0].server.samples || FromAgent(x, es, n) || ToldServer(x, es, n)
  {
    if n > 0 {
      assert NextAt(ws, es, n - 1);
      ServerStep(ws[n - 1], es[n - 1], ws[n], x);
      if x in ws[n - 1].server.samples {
        ServerInventsNothing(ws, es, n - 1, x);
      } else if OnAgent(ws[n - 1], x) {
        AgentInventsNothing(ws, es, n - 1, x);
      } else {
        assert ToldAt(x, es, n - 1);
      }
    }
  }

  predicate MinuteSampledAt(k: int, es: seq<Event>, i: nat) {
    i < |es| && es[i].Sampled? && Minute(es[i].s.at) == k
  }

  /** The minutes that count as buffered are exactly those the agent took a sample in. */
  lemma {:induction false} BufferedExactly(ws: seq<World>, es: seq<Event>, n: nat, k: int)
    requires Handover.Run(ws, es) && n <= |es|
    ensures k in ws[n].buffered <==> exists i: nat :: i < n && MinuteSampledAt(k, es, i)
  {
    if n > 0 {
      BufferedExactly(ws, es, n - 1, k);
      assert NextAt(ws, es, n - 1);
      assert MinuteSampledAt(k, es, n - 1) <==> es[n - 1].Sampled? && Minute(es[n - 1].s.at) == k;
    }
  }
}
