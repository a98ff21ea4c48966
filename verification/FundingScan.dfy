/** The chunked search for a milestone's fundings (apps/api/src/chain/adapter.ts, findFundingsByRef). */
module FundingScan {
  import opened Basics

  /** A decoded log; a log without a milestone id is skipped. */
  datatype Log = Log(milestoneId: Option<nat>, amount: nat)

  /** A log and the block it is in. */
  datatype Found = Found(block: nat, log: Log)

  /** The matching logs of every block. */
  type Chain = nat -> seq<Log>

  /** One block's answer. */
  function Answer(logs: seq<Log>, block: nat): (r: seq<Found>)
    ensures |r| == |logs| && forall i :: 0 <= i < |r| ==> r[i] == Found(block, logs[i])
  {
    seq(|logs|, i requires 0 <= i < |logs| => Found(block, logs[i]))
  }

  /** What one query of blocks from..hi answers, oldest first. */
  function Query(chain: Chain, from: nat, hi: nat): seq<Found>
    decreases hi - from
  {
    if from > hi then []
    else (if hi == 0 then [] else Query(chain, from, hi - 1)) + Answer(chain(hi), hi)
  }

  /** The logs the loop keeps: not in block 0, and with a milestone id. */
  function Kept(logs: seq<Found>): seq<Found> {
    if logs == [] then []
    else
      var l := logs[|logs| - 1];
      Kept(logs[..|logs| - 1]) + if l.block != 0 && l.log.milestoneId.Some? then [l] else []
  }

  lemma {:induction false} KeptConcat(s: seq<Found>, t: seq<Found>)
    ensures Kept(s + t) == Kept(s) + Kept(t)
  {
    if t == [] {
      assert s + t == s;
    } else {
      assert (s + t)[..|s + t| - 1] == s + t[..|t| - 1];
      KeptConcat(s, t[..|t| - 1]);
    }
  }

  /** Two adjacent ranges answer what their union does. */
  lemma {:induction false} QuerySplit(chain: Chain, from: nat, mid: nat, hi: nat)
    requires from <= mid <= hi
    ensures mid > 0 ==> Query(chain, from, mid - 1) + Query(chain, mid, hi) == Query(chain, from, hi)
    decreases hi
  {
    if mid > 0 {
      if mid == hi {
        assert Query(chain, hi, hi - 1) == [];
      } else {
        QuerySplit(chain, from, mid, hi - 1);
      }
    }
  }

  /** The logs found in one block, in the order they were found. */
  function LogsOf(found: seq<Found>, block: nat): seq<Log> {
    if found == [] then []
    else
      var l := found[|found| - 1];
      LogsOf(found[..|found| - 1], block) + if l.block == block then [l.log] else []
  }

  /** The logs that carry a milestone id. */
  function Decoded(logs: seq<Log>): seq<Log> {
    if logs == [] then []
    else
      var l := logs[|logs| - 1];
      Decoded(logs[..|logs| - 1]) + if l.milestoneId == None then [] else [l]
  }

  /** Found in the order of the blocks, none of them beyond `hi`. */
  ghost predicate Ordered(found: seq<Found>, hi: nat) {
    forall i, j :: 0 <= i <= j < |found| ==> found[i].block <= found[j].block <= hi
  }

  lemma {:induction false} LogsOfConcat(s: seq<Found>, t: seq<Found>, block: nat)
    ensures LogsOf(s + t, block) == LogsOf(s, block) + LogsOf(t, block)
  {
    if t == [] {
      assert s + t == s;
    } else {
      assert (s + t)[..|s + t| - 1] == s + t[..|t| - 1];
      LogsOfConcat(s, t[..|t| - 1], block);
    }
  }

  lemma {:induction false} AnswerKept(logs: seq<Log>, hi: nat, block: nat)
    ensures LogsOf(Kept(Answer(logs, hi)), block) == if block == hi && hi != 0 then Decoded(logs) else []
  {
    if logs != [] {
      var n := |logs| - 1;
      assert Answer(logs, hi)[..n] == Answer(logs[..n], hi);
      AnswerKept(logs[..n], hi, block);
      LogsOfConcat(Kept(Answer(logs[..n], hi)), if hi != 0 && logs[n].milestoneId.Some? then [Found(hi, logs[n])] else [], block);
    }
  }

  lemma {:induction false} KeptAreFound(logs: seq<Found>)
    ensures forall i :: 0 <= i < |Kept(logs)| ==> Kept(logs)[i] in logs
  {
    if logs != [] { KeptAreFound(logs[..|logs| - 1]); }
  }

  datatype Chunk = Chunk(from: nat, through: nat)

  /** Consecutive ranges of at most `step` blocks each, from `start` to just before `next`. */
  ghost predicate Partition(chunks: seq<Chunk>, start: nat, next: nat, step: nat) {
    if chunks == [] then next == start
    else
      var last := chunks[|chunks| - 1];
      last.from <= last.through < last.from + step && next == last.through + 1
      && Partition(chunks[..|chunks| - 1], start, last.from, step)
  }

  lemma PartitionPush(chunks: seq<Chunk>, start: nat, next: nat, step: nat, hi: nat)
    requires Partition(chunks, start, next, step) && next <= hi < next + step
    ensures Partition(chunks + [Chunk(next, hi)], start, hi + 1, step)
  {
    assert (chunks + [Chunk(next, hi)])[..|chunks|] == chunks;
  }

  /** How many chunks ask about a block. */
  function Asked(chunks: seq<Chunk>, block: nat): nat {
    if chunks == [] then 0
    else
      var last := chunks[|chunks| - 1];
      Asked(chunks[..|chunks| - 1], block) + if last.from <= block <= last.through then 1 else 0
  }

  /** Every block of the range is asked about exactly once, and no other. */
  lemma {:induction false} AskedOnce(chunks: seq<Chunk>, start: nat, next: nat, step: nat, block: nat)
    requires Partition(chunks, start, next, step)
    ensures start <= next && Asked(chunks, block) == if start <= block < next then 1 else 0
    decreases |chunks|
  {
    if chunks != [] {
      var last := chunks[|chunks| - 1];
      AskedOnce(chunks[..|chunks| - 1], start, last.from, step, block);
    }
  }

  /** The loop over one answer. */
  method KeepLogs(logs: seq<Found>) returns (kept: seq<Found>)
    ensures kept == Kept(logs)
  {
    kept := [];
    for i := 0 to |logs|
      invariant kept == Kept(logs[..i])
    {
      assert logs[..i + 1][..i] == logs[..i];
      if logs[i].block == 0 || logs[i].log.milestoneId.None? { continue; }
      kept := kept + [logs[i]];
    }
    assert logs[..|logs|] == logs;
  }

  /** What a scan of the blocks before `next` keeps. */
  function Scanned(chain: Chain, start: nat, next: nat): seq<Found> {
    if next == 0 then [] else Kept(Query(chain, start, next - 1))
  }

  lemma ScannedChunk(chain: Chain, start: nat, from: nat, hi: nat)
    requires start <= from <= hi
    ensures Scanned(chain, start, hi + 1) == Scanned(chain, start, from) + Kept(Query(chain, from, hi))
  {
    if from > 0 {
      QuerySplit(chain, start, from, hi);
      KeptConcat(Query(chain, start, from - 1), Query(chain, from, hi));
    }
  }

  /** One more block. */
  lemma ScannedBlock(chain: Chain, start: nat, next: nat)
    requires start <= next
    ensures Scanned(chain, start, next + 1) == Scanned(chain, start, next) + Kept(Answer(chain(next), next))
  {
    KeptConcat(if next == 0 then [] else Query(chain, start, next - 1), Answer(chain(next), next));
  }

  lemma {:induction false} ScannedInOrder(chain: Chain, start: nat, next: nat)
    requires next > 0
    ensures Ordered(Scanned(chain, start, next), next - 1)
  {
    if start < next {
      var last := next - 1;
      ScannedBlock(chain, start, last);
      KeptAreFound(Answer(chain(last), last));
      if last > 0 { ScannedInOrder(chain, start, last); }
    }
  }

  /** What one more block adds to the logs of `block`. */
  lemma ScannedOfNext(chain: Chain, start: nat, last: nat, block: nat)
    requires start <= last
    ensures LogsOf(Scanned(chain, start, last + 1), block)
      == LogsOf(Scanned(chain, start, last), block) + if block == last && last != 0 then Decoded(chain(block)) else []
  {
    ScannedBlock(chain, start, last);
    LogsOfConcat(Scanned(chain, start, last), Kept(Answer(chain(last), last)), block);
    AnswerKept(chain(last), last, block);
  }

  lemma {:induction false} ScannedOfBlock(chain: Chain, start: nat, next: nat, block: nat)
    ensures LogsOf(Scanned(chain, start, next), block) == if start <= block < next && block != 0 then Decoded(chain(block)) else []
  {
    if start < next {
      var last := next - 1;
      ScannedOfNext(chain, start, last, block);
      ScannedOfBlock(chain, start, last, block);
    } else {
      assert Scanned(chain, start, next) == [];
    }
  }

  /**
   * What the scan keeps of each block: inside the range, except for block 0, the
   * logs with a milestone id, each as often as the chain has it and in its order;
   * and the blocks follow one another.
   */
  lemma FundingsExactly(chain: Chain, start: nat, latest: nat, block: nat)
    ensures LogsOf(Kept(Query(chain, start, latest)), block) == if start <= block <= latest && block != 0 then Decoded(chain(block)) else []
    ensures Ordered(Kept(Query(chain, start, latest)), latest)
  {
    var next := latest + 1;
    ScannedOfBlock(chain, start, next, block);
    ScannedInOrder(chain, start, next);
  }

  /** The first block after the range. */
  function End(start: nat, latest: nat): nat {
    if start <= latest then latest + 1 else start
  }

  lemma ScannedAll(chain: Chain, start: nat, latest: nat)
    ensures Scanned(chain, start, End(start, latest)) == Kept(Query(chain, start, latest))
  {
    if start > latest {
      assert Query(chain, start, latest) == [] == Query(chain, start, start - 1);
    } else {
      assert End(start, latest) - 1 == latest;
    }
  }

  /** The first block not asked about yet. */
  function NextOf(from: nat, start: nat, latest: nat): nat {
    if from <= latest then from else End(start, latest)
  }

  /** The chunks so far cover the blocks before `next`, and `out` is what they keep. */
  ghost predicate Progress(chain: Chain, out: seq<Found>, chunks: seq<Chunk>, start: nat, next: nat, step: nat) {
    out == Scanned(chain, start, next) && Partition(chunks, start, next, step)
  }

  lemma ProgressStep(chain: Chain, out: seq<Found>, chunks: seq<Chunk>, start: nat, from: nat, hi: nat, step: nat)
    requires Progress(chain, out, chunks, start, from, step) && start <= from <= hi < from + step
    ensures Progress(chain, out + Kept(Query(chain, from, hi)), chunks + [Chunk(from, hi)], start, hi + 1, step)
  {
    ScannedChunk(chain, start, from, hi);
    PartitionPush(chunks, start, from, step, hi);
  }

  lemma ProgressDone(chain: Chain, out: seq<Found>, chunks: seq<Chunk>, start: nat, latest: nat, step: nat)
    requires Progress(chain, out, chunks, start, End(start, latest), step)
    ensures out == Kept(Query(chain, start, latest)) && Partition(chunks, start, End(start, latest), step)
  {
    ScannedAll(chain, start, latest);
  }

  /** Asks about one chunk and appends what it keeps. */
  method ScanChunk(chain: Chain, out: seq<Found>, ghost chunks: seq<Chunk>, ghost start: nat, from: nat, hi: nat, ghost step: nat)
    returns (more: seq<Found>, ghost extended: seq<Chunk>, ghost next: nat)
    requires start <= from <= hi < from + step && Progress(chain, out, chunks, start, from, step)
    ensures Progress(chain, more, extended, start, next, step) && next == hi + 1
  {
    var kept := KeepLogs(Query(chain, from, hi));
    ProgressStep(chain, out, chunks, start, from, hi, step);
    more, extended, next := out + kept, chunks + [Chunk(from, hi)], hi + 1;
  }

  lemma ProgressNone(chain: Chain, start: nat, step: nat)
    ensures Progress(chain, [], [], start, start, step)
  {
  }

  method ScanChunks(chain: Chain, start: nat, latest: nat, step: nat)
    returns (out: seq<Found>, ghost chunks: seq<Chunk>, ghost next: nat)
    requires step > 0
    ensures Progress(chain, out, chunks, start, next, step) && next == End(start, latest)
  {
    out, chunks, next := [], [], start;
    ProgressNone(chain, start, step);
    var from := start;
    while from <= latest
      invariant Progress(chain, out, chunks, start, next, step)
      invariant start <= next == NextOf(from, start, latest)
      decreases latest + 1 - from
    {
      var hi := if from + step - 1 < latest then from + step - 1 else latest;
      assert next == from;
      out, chunks, next := ScanChunk(chain, out, chunks, start, from, hi, step);
      from := from + step;
    }
  }

  /** The chunked scan is one scan of the whole range, for any chunk size. */
  method FindFundings(chain: Chain, start: nat, latest: nat, step: nat) returns (out: seq<Found>, ghost chunks: seq<Chunk>)
    requires step > 0
    ensures out == Kept(Query(chain, start, latest))
    ensures Partition(chunks, start, End(start, latest), step)
  {
    ghost var next;
    out, chunks, next := ScanChunks(chain, start, latest, step);
    ProgressDone(chain, out, chunks, start, latest, step);
  }
}
