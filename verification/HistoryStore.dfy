/** `History` as the backend runs it: maps from server to series and to the
    time last recorded, changed in place. The samples' files are left out. */
module HistoryStore {
  import opened Base
  import opened Samples
  import opened HistoryLog

  class History {
    var samples: map<string, seq<Sample>>
    var lastAt: map<string, Time>

    ghost function SeriesOf(id: string): Series
      reads this
    {
      Series(if id in samples then samples[id] else [], if id in lastAt then Some(lastAt[id]) else None)
    }

    constructor ()
      ensures forall id :: SeriesOf(id) == Series([], None)
    {
      samples, lastAt := map[], map[];
    }

    /** Stores a sample unless the last one is less than a minute older. */
    method RecordSample(id: string, s: Sample) returns (written: bool)
      modifies this
      ensures SeriesOf(id) == Record(old(SeriesOf(id)), s)
      ensures written == Accepts(old(SeriesOf(id)), s)
      ensures written ==> SeriesOf(id).samples != [] && SeriesOf(id).samples[|SeriesOf(id).samples| - 1] == s
      ensures !written ==> SeriesOf(id) == old(SeriesOf(id))
      ensures forall other :: other != id ==> SeriesOf(other) == old(SeriesOf(other))
    {
      if id in lastAt && s.at - lastAt[id] < MINUTE {
        return false;
      }
      lastAt := lastAt[id := s.at];
      var all := (if id in samples then samples[id] else []) + [s];
      if |all| > MAX_SAMPLES {
        all := all[|all| - MAX_SAMPLES..];
      }
      samples := samples[id := all];
      return true;
    }

    /** Inserts what an agent recorded while this backend was away; returns how
        many samples were new. */
    method Backfill(id: string, batch: seq<Sample>, now: Time) returns (added: nat, ghost dropped: seq<Sample>)
      modifies this
      ensures Backfilled(old(SeriesOf(id)), batch, now, SeriesOf(id), dropped)
      ensures added == |Admit(old(SeriesOf(id)).samples, batch, now)| - |old(SeriesOf(id)).samples|
      ensures forall other :: other != id ==> SeriesOf(other) == old(SeriesOf(other))
    {
      dropped := [];
      if batch == [] {
        return 0, [];
      }
      var held := Series(if id in samples then samples[id] else [], if id in lastAt then Some(lastAt[id]) else None);
      var merged;
      merged, added, dropped := Merge(held, batch, now);
      if added == 0 {
        return;
      }
      samples := samples[id := merged.samples];
      if merged.lastAt.Some? {
        lastAt := lastAt[id := merged.lastAt.value];
      }
    }

    /** What `Backfill` does to the one series it touches. */
    static method Merge(h: Series, batch: seq<Sample>, now: Time)
      returns (h': Series, added: nat, ghost dropped: seq<Sample>)
      ensures Backfilled(h, batch, now, h', dropped)
      ensures added == |Admit(h.samples, batch, now)| - |h.samples|
      ensures h.lastAt.Some? ==> h'.lastAt.Some?
    {
      h', dropped := h, [];
      var existing := FillGaps(h.samples, batch, now);
      added := |existing| - |h.samples|;
      if added == 0 {
        return;
      }
      var kept;
      kept, dropped := SortAndCap(existing);
      var last := kept[|kept| - 1].at;
      h' := Series(kept, if last > LastOrZero(h.lastAt) then Some(last) else h.lastAt);
    }

    static method SortAndCap(existing: seq<Sample>) returns (kept: seq<Sample>, dropped: seq<Sample>)
      ensures InOrder(dropped + kept) && multiset(dropped + kept) == multiset(existing)
      ensures |dropped| == if |existing| > MAX_SAMPLES then |existing| - MAX_SAMPLES else 0
      ensures |dropped| + |kept| == |existing|
    {
      kept := SortSlice(existing, Stamp);
      dropped := [];
      StampOrder(kept);
      SameElements(kept, existing);
      if |kept| > MAX_SAMPLES {
        var cut := |kept| - MAX_SAMPLES;
        assert kept == kept[..cut] + kept[cut..];
        kept, dropped := kept[cut..], kept[..cut];
      }
      assert |dropped| == 0 ==> dropped + kept == kept;
    }

    /** The admission loops of `Backfill`. */
    static method FillGaps(held: seq<Sample>, batch: seq<Sample>, now: Time) returns (existing: seq<Sample>)
      ensures existing == Admit(held, batch, now)
    {
      var occupied: set<int> := {};
      for i := 0 to |held|
        invariant occupied == Minutes(held[..i])
      {
        assert held[..i + 1] == held[..i] + [held[i]];
        MinutesConcat(held[..i], [held[i]]);
        occupied := occupied + {Minute(held[i].at)};
      }
      assert held[..|held|] == held;
      existing := held;
      for i := 0 to |batch|
        invariant existing == Admit(held, batch[..i], now)
        invariant occupied == Minutes(existing)
      {
        var s := batch[i];
        assert batch[..i + 1][..i] == batch[..i];
        if s.at == ZERO_TIME || s.at < now - RETAIN || s.at > now + HOUR {
          continue;
        }
        var key := Minute(s.at);
        if key in occupied {
          continue;
        }
        MinutesConcat(existing, [s]);
        occupied := occupied + {key};
        existing := existing + [s];
      }
      assert batch[..|batch|] == batch;
    }

    /** Drops every server's samples past retention. */
    method TrimAll(now: Time)
      modifies this`samples
      ensures forall id :: SeriesOf(id) == Trim(old(SeriesOf(id)), now)
    {
      var todo := samples.Keys;
      while todo != {}
        invariant todo <= samples.Keys == old(samples).Keys
        invariant forall id :: id in samples ==>
          samples[id] == if id in todo then old(samples)[id] else Since(old(samples)[id], now - RETAIN)
        decreases |todo|
      {
        var id :| id in todo;
        var all := samples[id];
        var keep := [];
        for i := 0 to |all|
          invariant keep == Since(all[..i], now - RETAIN)
        {
          assert all[..i + 1][..i] == all[..i];
          if all[i].at > now - RETAIN {
            keep := keep + [all[i]];
          }
        }
        assert all[..|all|] == all;
        samples := samples[id := keep];
        todo := todo - {id};
      }
    }

    /** The samples inside a window, oldest first; an absent bound is open. */
    method Query(id: string, from: Option<Time>, to: Option<Time>) returns (out: seq<Sample>)
      ensures forall x :: x in out <==>
        x in SeriesOf(id).samples && (from.Some? ==> from.value <= x.at) && (to.Some? ==> x.at <= to.value)
      ensures WellKept(SeriesOf(id)) ==> InOrder(out) && DistinctMinutes(out)
    {
      out := [];
      var all := if id in samples then samples[id] else [];
      ghost var at: seq<nat> := [];
      for i := 0 to |all|
        invariant |at| == |out|
        invariant forall k :: 0 <= k < |at| ==> at[k] < i && out[k] == all[at[k]]
        invariant forall j, k :: 0 <= j < k < |at| ==> at[j] < at[k]
        invariant forall x :: x in out <==>
          x in all[..i] && (from.Some? ==> from.value <= x.at) && (to.Some? ==> x.at <= to.value)
      {
        assert all[..i + 1] == all[..i] + [all[i]];
        if from.Some? && all[i].at < from.value {
          continue;
        }
        if to.Some? && all[i].at > to.value {
          continue;
        }
        out := out + [all[i]];
        at := at + [i];
      }
      assert all[..|all|] == all;
    }

    method Forget(id: string)
      modifies this
      ensures SeriesOf(id) == Series([], None)
      ensures forall other :: other != id ==> SeriesOf(other) == old(SeriesOf(other))
    {
      samples := samples - {id};
      lastAt := lastAt - {id};
    }
  }
}
