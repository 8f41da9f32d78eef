/** The agent's own sample file, kept while the panel is away, and the chunks
    it is handed over in. */
module OfflineBuffers {
  import opened Base
  import opened Samples

  const MAX_BUFFERED := 14 * 24 * 60
  const CHUNK_SIZE := 500
  const QUEUE_CAPACITY := 64

  // ---------------------------------------------------------- specification

  function Timed(file: seq<Sample>): seq<Sample> {
    if file == [] then []
    else
      var r := Timed(file[..|file| - 1]);
      if file[|file| - 1].at == ZERO_TIME then r else r + [file[|file| - 1]]
  }

  /** `Load`: every line with a time, oldest first. */
  ghost predicate Loaded(file: seq<Sample>, all: seq<Sample>) {
    InOrder(all) && multiset(all) == multiset(Timed(file))
  }

  /** `Append`: the line is added, and past the cap the oldest go. */
  ghost predicate Appended(file: seq<Sample>, s: Sample, file': seq<Sample>, dropped: seq<Sample>) {
    if |Timed(file + [s])| <= MAX_BUFFERED then file' == file + [s] && dropped == []
    else Loaded(file + [s], dropped + file') && |file'| == MAX_BUFFERED
  }

  /** `DropUpTo`: what is newer than the cutoff, oldest first. */
  ghost predicate DroppedUpTo(file: seq<Sample>, cutoff: Time, file': seq<Sample>) {
    exists all :: Loaded(file, all) && file' == Since(all, cutoff)
  }

  function Flatten(chunks: seq<seq<Sample>>): seq<Sample> {
    if chunks == [] then [] else chunks[0] + Flatten(chunks[1..])
  }

  // ----------------------------------------------------------------- lemmas

  lemma {:induction false} TimedMembers(file: seq<Sample>)
    ensures forall x :: x in Timed(file) <==> x in file && x.at != ZERO_TIME
  {
    if file != [] {
      var init := file[..|file| - 1];
      assert file == init + [file[|file| - 1]];
      TimedMembers(init);
    }
  }

  /** Lines are left out only for having no time, and kept as often as they stand there. */
  lemma {:induction false} TimedCounts(file: seq<Sample>, x: Sample)
    ensures multiset(Timed(file))[x] == if x.at == ZERO_TIME then 0 else multiset(file)[x]
  {
    if file != [] {
      var init := file[..|file| - 1];
      assert file == init + [file[|file| - 1]];
      TimedCounts(init, x);
    }
  }

  /** An append cuts the file only over two weeks of minutes, and then to exactly that. */
  lemma AppendedCut(file: seq<Sample>, s: Sample, file': seq<Sample>, dropped: seq<Sample>)
    requires Appended(file, s, file', dropped)
    ensures |Timed(file + [s])| <= 14 * 24 * 60 ==> file' == file + [s] && dropped == []
    ensures |Timed(file + [s])| > 14 * 24 * 60 ==>
      |file'| == 14 * 24 * 60 && |dropped| + |file'| == |Timed(file + [s])|
  {
    if |Timed(file + [s])| > MAX_BUFFERED {
      SameElements(dropped + file', Timed(file + [s]));
    }
  }

  /** Loading keeps every timed line. */
  lemma LoadedMembers(file: seq<Sample>, all: seq<Sample>)
    requires Loaded(file, all)
    ensures forall x :: x in all <==> x in file && x.at != ZERO_TIME
  {
    SameElements(all, Timed(file));
    TimedMembers(file);
  }

  /** Appending loses nothing but what it reports as dropped, and that is never
      newer than what stays. */
  lemma AppendedMembers(file: seq<Sample>, s: Sample, file': seq<Sample>, dropped: seq<Sample>)
    requires Appended(file, s, file', dropped)
    ensures forall x :: x in file && x.at != ZERO_TIME ==> x in file' || x in dropped
    ensures s.at != ZERO_TIME ==> s in file' || s in dropped
    ensures forall x :: x in file' || x in dropped ==> x in file || x == s
    ensures forall x, y :: x in dropped && y in file' ==> x.at <= y.at
  {
    if dropped != [] || file' != file + [s] {
      LoadedMembers(file + [s], dropped + file');
      assert forall x :: x in file' || x in dropped <==> x in dropped + file';
      OrderedParts(dropped, file');
    }
  }

  lemma DroppedMembers(file: seq<Sample>, cutoff: Time, file': seq<Sample>)
    requires DroppedUpTo(file, cutoff, file')
    ensures forall x :: x in file' <==> x in file && x.at != ZERO_TIME && x.at > cutoff
  {
    var all :| Loaded(file, all) && file' == Since(all, cutoff);
    LoadedMembers(file, all);
    SinceFilters(all, cutoff);
  }

  lemma {:induction false} FlattenSnoc(chunks: seq<seq<Sample>>, c: seq<Sample>)
    ensures Flatten(chunks + [c]) == Flatten(chunks) + c
  {
    if chunks == [] {
      assert chunks + [c] == [c];
      assert [c][1..] == [];
    } else {
      assert (chunks + [c])[1..] == chunks[1..] + [c];
      FlattenSnoc(chunks[1..], c);
    }
  }

  // ------------------------------------------------------------- operations

  class OfflineBuffer {
    var file: seq<Sample>

    constructor ()
      ensures file == []
    {
      file := [];
    }

    method Load() returns (all: seq<Sample>)
      ensures Loaded(file, all)
    {
      var out := [];
      for i := 0 to |file|
        invariant out == Timed(file[..i])
      {
        assert file[..i + 1][..i] == file[..i];
        if file[i].at == ZERO_TIME {
          continue;
        }
        out := out + [file[i]];
      }
      assert file[..|file|] == file;
      all := SortSlice(out, Stamp);
      StampOrder(all);
    }

    method Append(s: Sample) returns (ghost dropped: seq<Sample>)
      modifies this
      ensures Appended(old(file), s, file, dropped)
    {
      file := file + [s];
      dropped := [];
      var all := Load();
      SameElements(all, Timed(file));
      if |all| > MAX_BUFFERED {
        var cut := |all| - MAX_BUFFERED;
        dropped := all[..cut];
        assert all == all[..cut] + all[cut..];
        file := all[cut..];
      }
    }

    method DropUpTo(cutoff: Time)
      modifies this
      ensures DroppedUpTo(old(file), cutoff, file)
    {
      var all := Load();
      var keep := [];
      for i := 0 to |all|
        invariant keep == Since(all[..i], cutoff)
      {
        assert all[..i + 1][..i] == all[..i];
        if all[i].at > cutoff {
          keep := keep + [all[i]];
        }
      }
      assert all[..|all|] == all;
      file := keep;
    }
  }

  ghost predicate Cut(chunks: seq<seq<Sample>>, all: seq<Sample>, size: nat) {
    && Flatten(chunks) == all
    && forall i :: 0 <= i < |chunks| ==>
         0 < |chunks[i]| <= size && (i < |chunks| - 1 ==> |chunks[i]| == size)
  }

  /** The samples in order, cut into full chunks and one possibly shorter last. */
  method ChunkSamples(all: seq<Sample>, size: int) returns (out: seq<seq<Sample>>)
    ensures Cut(out, all, if size <= 0 then CHUNK_SIZE else size)
    ensures all == [] <==> out == []
  {
    out := [];
    if all == [] {
      return;
    }
    var n := if size <= 0 then CHUNK_SIZE else size;
    var i := 0;
    while i < |all|
      invariant 0 <= i
      invariant i >= |all| ==> out != []
      invariant i < |all| ==> Flatten(out) == all[..i] && FullChunks(out, n)
      invariant i >= |all| ==> Cut(out, all, n)
      decreases |all| - i
    {
      var end := i + n;
      if end > |all| {
        end := |all|;
      }
      OneMoreChunk(out, all, i, end, n);
      out := out + [all[i..end]];
      i := i + n;
    }
  }

  ghost predicate FullChunks(chunks: seq<seq<Sample>>, size: nat) {
    forall k :: 0 <= k < |chunks| ==> |chunks[k]| == size
  }

  lemma OneMoreChunk(chunks: seq<seq<Sample>>, all: seq<Sample>, i: nat, end: nat, size: nat)
    requires i < end <= |all| && end - i <= size && Flatten(chunks) == all[..i] && FullChunks(chunks, size)
    ensures Flatten(chunks + [all[i..end]]) == all[..end]
    ensures end - i == size ==> FullChunks(chunks + [all[i..end]], size)
    ensures end == |all| ==> Cut(chunks + [all[i..end]], all, size)
  {
    FlattenSnoc(chunks, all[i..end]);
    assert all[..i] + all[i..end] == all[..end];
    assert all[..|all|] == all;
  }

  /** A session's write queue, bounded; `done` once the session has ended. */
  class SyncEngine {
    var queue: seq<seq<Sample>>
    var done: bool

    constructor ()
      ensures queue == [] && !done
    {
      queue, done := [], false;
    }

    predicate Accepting()
      reads this
    {
      !done && |queue| < QUEUE_CAPACITY
    }

    /** Queues a frame, or fails without touching anything. */
    method SendBackfill(chunk: seq<Sample>) returns (ok: bool)
      modifies this`queue
      ensures ok == (chunk == [] || old(Accepting()))
      ensures queue == if ok && chunk != [] then old(queue) + [chunk] else old(queue)
    {
      if chunk == [] {
        return true;
      }
      if done || |queue| >= QUEUE_CAPACITY {
        return false;
      }
      queue := queue + [chunk];
      return true;
    }
  }

  function LastTime(chunk: seq<Sample>): Time {
    if chunk == [] then ZERO_TIME else chunk[|chunk| - 1].at
  }

  /** What is on disk once the first n chunks of a file have been handed over. */
  ghost predicate Remaining(file: seq<Sample>, all: seq<Sample>, chunks: seq<seq<Sample>>, n: nat)
    requires n <= |chunks|
  {
    forall x :: x in file <==> x in all && (n > 0 ==> x.at > LastTime(chunks[n - 1]))
  }

  lemma RemainingStep(file: seq<Sample>, all: seq<Sample>, chunks: seq<seq<Sample>>, n: nat, file': seq<Sample>)
    requires Cut(chunks, all, CHUNK_SIZE) && InOrder(all) && n < |chunks|
    requires forall x :: x in all ==> x.at != ZERO_TIME
    requires Remaining(file, all, chunks, n) || (n == 0 && Loaded(file, all))
    requires DroppedUpTo(file, LastTime(chunks[n]), file')
    ensures Remaining(file', all, chunks, n + 1)
  {
    DroppedMembers(file, LastTime(chunks[n]), file');
    if n > 0 {
      LastStamps(chunks, all, n);
    } else if Loaded(file, all) {
      LoadedMembers(file, all);
    }
  }

  /** One chunk: sent, and dropped from the file once its frame is queued. */
  method HandOver(buffer: OfflineBuffer, engine: SyncEngine, chunk: seq<Sample>) returns (ok: bool)
    requires chunk != []
    modifies buffer, engine`queue
    ensures ok == old(engine.Accepting())
    ensures ok ==> engine.queue == old(engine.queue) + [chunk]
    ensures ok ==> DroppedUpTo(old(buffer.file), LastTime(chunk), buffer.file)
    ensures !ok ==> engine.queue == old(engine.queue) && buffer.file == old(buffer.file) && !engine.Accepting()
  {
    ok := engine.SendBackfill(chunk);
    if ok {
      buffer.DropUpTo(LastTime(chunk));
    }
  }

  lemma ChunksNotEmpty(chunks: seq<seq<Sample>>, all: seq<Sample>, size: nat, i: nat)
    requires Cut(chunks, all, size) && i < |chunks|
    ensures chunks[i] != []
  {
  }

  /** `flushOffline` in one undisturbed session: the frames queued are the first
      chunks of the file, as many as the queue takes, and exactly what is newer
      than the last of them stays on disk. */
  method FlushOffline(buffer: OfflineBuffer, engine: SyncEngine)
      returns (sent: nat, ghost all: seq<Sample>, ghost chunks: seq<seq<Sample>>)
    modifies buffer, engine`queue
    ensures Loaded(old(buffer.file), all) && Cut(chunks, all, CHUNK_SIZE)
    ensures sent <= |chunks| && engine.queue == old(engine.queue) + chunks[..sent]
    ensures sent == |chunks| || !engine.Accepting()
    ensures Flushed(old(buffer.file), buffer.file, all, chunks, sent)
  {
    var samples := buffer.Load();
    all := samples;
    sent := 0;
    var cs := ChunkSamples(samples, CHUNK_SIZE);
    chunks := cs;
    while sent < |cs|
      invariant sent <= |cs| && engine.queue == old(engine.queue) + cs[..sent]
      invariant Flushed(old(buffer.file), buffer.file, all, cs, sent)
    {
      ghost var before := buffer.file;
      ChunksNotEmpty(cs, all, CHUNK_SIZE, sent);
      var ok := HandOver(buffer, engine, cs[sent]);
      if !ok {
        break;
      }
      OneMoreQueued(old(engine.queue), cs, sent);
      FlushedStep(old(buffer.file), before, all, cs, sent, buffer.file);
      sent := sent + 1;
    }
  }

  lemma OneMoreQueued(queue: seq<seq<Sample>>, chunks: seq<seq<Sample>>, n: nat)
    requires n < |chunks|
    ensures queue + chunks[..n] + [chunks[n]] == queue + chunks[..n + 1]
  {
  }

  /** The file after n chunks: untouched, or what the last of them left. */
  ghost predicate Flushed(was: seq<Sample>, file: seq<Sample>, all: seq<Sample>, chunks: seq<seq<Sample>>, n: nat) {
    n <= |chunks| && if n == 0 then file == was else Remaining(file, all, chunks, n)
  }

  lemma FlushedStep(was: seq<Sample>, file: seq<Sample>, all: seq<Sample>, chunks: seq<seq<Sample>>, n: nat,
                    file': seq<Sample>)
    requires Loaded(was, all) && Cut(chunks, all, CHUNK_SIZE) && n < |chunks|
    requires Flushed(was, file, all, chunks, n) && DroppedUpTo(file, LastTime(chunks[n]), file')
    ensures Flushed(was, file', all, chunks, n + 1)
  {
    LoadedMembers(was, all);
    RemainingStep(file, all, chunks, n, file');
  }

  lemma {:induction false} InFlatten(chunks: seq<seq<Sample>>, i: nat, j: nat) returns (at: nat)
    requires i < |chunks| && j < |chunks[i]|
    ensures at < |Flatten(chunks)| && Flatten(chunks)[at] == chunks[i][j]
    ensures at == |Flatten(chunks[..i])| + j
  {
    if i == 0 {
      at := j;
      assert chunks[..0] == [];
    } else {
      var r := InFlatten(chunks[1..], i - 1, j);
      at := |chunks[0]| + r;
      assert chunks[..i][0] == chunks[0] && chunks[..i][1..] == chunks[1..][..i - 1];
    }
  }

  /** Chunks follow each other in time. */
  lemma LastStamps(chunks: seq<seq<Sample>>, all: seq<Sample>, i: nat)
    requires Cut(chunks, all, CHUNK_SIZE) && InOrder(all) && 0 < i < |chunks|
    ensures LastTime(chunks[i - 1]) <= LastTime(chunks[i])
  {
    var a := InFlatten(chunks, i - 1, |chunks[i - 1]| - 1);
    var b := InFlatten(chunks, i, |chunks[i]| - 1);
    FlattenSnoc(chunks[..i - 1], chunks[i - 1]);
    assert chunks[..i] == chunks[..i - 1] + [chunks[i - 1]];
  }
}
