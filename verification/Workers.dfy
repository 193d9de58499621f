/** The worker loops: bounded retries, commit only after success or a durable failure record,
    and the rollup worker that commits offsets only after its dirty buckets are refreshed. */
module Workers {
  import opened Telemetry

  const RETRY_DELAYS := [1, 5, 30]

  // Retries.

  /** What one call of the operation does. Permanent errors are the ones that no retry helps. */
  datatype Attempt = Success | Transient(error: string) | Permanent(error: string)

  datatype Retried = Succeeded | GaveUp(error: string, retries: nat) | Raised(error: string)

  /** The number of the call that decides: the first that does not fail transiently. */
  function Deciding(calls: nat -> Attempt, n: nat): nat
    requires n <= |RETRY_DELAYS|
    decreases |RETRY_DELAYS| - n
  {
    if n == |RETRY_DELAYS| || !calls(n).Transient? then n else Deciding(calls, n + 1)
  }

  function Verdict(a: Attempt): Retried {
    match a
    case Success => Succeeded
    case Permanent(e) => Raised(e)
    case Transient(e) => GaveUp(e, |RETRY_DELAYS|)
  }

  /** `run_with_retries`: `calls(n)` is the outcome of call `n`. It stops at the first call that
      does not fail transiently and never makes more than four. */
  method RunWithRetries(calls: nat -> Attempt) returns (r: Retried, made: nat, slept: seq<int>)
    ensures 1 <= made <= |RETRY_DELAYS| + 1 && r == Verdict(calls(made - 1)) && slept == RETRY_DELAYS[..made - 1]
    ensures forall n :: 0 <= n < made - 1 ==> calls(n).Transient?
    ensures calls(made - 1).Transient? ==> made == |RETRY_DELAYS| + 1
  {
    slept, made := [], 1;
    if !calls(0).Transient? { return Verdict(calls(0)), made, slept; }
    var last := calls(0);
    for i := 0 to |RETRY_DELAYS|
      invariant made == i + 1 && slept == RETRY_DELAYS[..i] && last == calls(i)
      invariant forall n :: 0 <= n <= i ==> calls(n).Transient?
    {
      slept := slept + [RETRY_DELAYS[i]];
      made := made + 1;
      if !calls(i + 1).Transient? { return Verdict(calls(i + 1)), made, slept; }
      last := calls(i + 1);
    }
    return GaveUp(last.error, |RETRY_DELAYS|), made, slept;
  }

  lemma RetriesStopAtTheDecidingCall(calls: nat -> Attempt, made: nat)
    requires 1 <= made <= |RETRY_DELAYS| + 1 && forall n :: 0 <= n < made - 1 ==> calls(n).Transient?
    requires calls(made - 1).Transient? ==> made == |RETRY_DELAYS| + 1
    ensures made == Deciding(calls, 0) + 1
  {
  }

  // One message at a time: storage and detection workers.

  datatype Part = Part(size: nat, position: nat, committed: nat)

  datatype Outcome = Idle | Completed(reset: bool) | Rewound | Escaped(error: string)

  /** Every offset below a committed one is settled. */
  ghost predicate AllSettled(parts: seq<Part>, settled: set<(int, int)>) {
    forall p, o :: 0 <= p < |parts| && 0 <= o < parts[p].committed ==> (p, o) in settled
  }

  lemma SettleNext(parts: seq<Part>, settled: set<(int, int)>, p: nat, next: Part, more: set<(int, int)>)
    requires AllSettled(parts, settled) && p < |parts| && next.committed <= parts[p].committed + 1
    requires settled <= more && (next.committed == parts[p].committed + 1 ==> (p, parts[p].committed) in more)
    ensures AllSettled(parts[p := next], more)
  {
  }

  class MessageWorker {
    var parts: seq<Part>
    /** Messages that were processed to the end, and messages with a durable failure record. */
    ghost var processed: set<(int, int)>
    ghost var recorded: set<(int, int)>
    /** An error left `run_once`; the process ends and has to be restarted. */
    var down: bool

    /** Every offset below the committed one is settled, and a running worker stands at its
        committed offsets. */
    ghost predicate Valid() reads this {
      && (forall p :: 0 <= p < |parts| ==> parts[p].committed <= parts[p].position <= parts[p].size)
      && AllSettled(parts, processed + recorded)
      && (!down ==> forall p :: 0 <= p < |parts| ==> parts[p].position == parts[p].committed)
    }

    constructor (sizes: seq<nat>)
      ensures Valid() && !down && |parts| == |sizes|
      ensures forall p :: 0 <= p < |parts| ==> parts[p] == Part(sizes[p], 0, 0)
    {
      parts := seq(|sizes|, i requires 0 <= i < |sizes| => Part(sizes[i], 0, 0));
      processed, recorded, down := {}, {}, false;
    }

    /** `_run_worker_once` for the next message of partition `p`. `known` says which permanent
        errors the worker has a failure code for, `sinkWorks` whether a failure can be stored,
        `commitWorks` whether the consumer accepts the commit; an error it raises escapes. */
    method RunOnce(p: nat, calls: nat -> Attempt, known: string -> bool, sinkWorks: bool, commitWorks: bool)
      returns (r: Outcome)
      requires Valid() && !down && p < |parts|
      modifies this
      ensures Valid() && |parts| == |old(parts)| && (down <==> r.Escaped?)
      ensures forall q :: 0 <= q < |parts| && q != p ==> parts[q] == old(parts)[q]
      ensures old(parts)[p].position == old(parts)[p].size ==> r == Idle && parts == old(parts)
      ensures old(parts)[p].position < old(parts)[p].size ==>
        var o, last := old(parts)[p].position, calls(Deciding(calls, 0));
        var settled := last.Success? || (sinkWorks && !(last.Permanent? && !known(last.error)));
        && processed == old(processed) + (if last.Success? then {(p, o)} else {})
        && recorded == old(recorded) + (if settled && !last.Success? then {(p, o)} else {})
        && parts[p].committed == (if settled && commitWorks then o + 1 else o)
        && (r.Completed? <==> settled && commitWorks) && (r.Completed? ==> r.reset == last.Transient?)
        && (r.Rewound? <==> !settled && !(last.Permanent? && !known(last.error)))
        && (r.Rewound? ==> parts == old(parts))
    {
      if parts[p].position == parts[p].size { return Idle; }
      var o := parts[p].position;
      parts := parts[p := parts[p].(position := o + 1)];
      var retried, made, slept := RunWithRetries(calls);
      RetriesStopAtTheDecidingCall(calls, made);
      if retried.Raised? && !known(retried.error) {
        down := true;
        return Escaped(retried.error);
      }
      if !retried.Succeeded? && !sinkWorks {
        parts := parts[p := parts[p].(position := o)];
        return Rewound;
      }
      Settle(p, o, retried.Succeeded?);
      if !commitWorks {
        down := true;
        return Escaped("commit");
      }
      SettleNext(parts, processed + recorded, p, parts[p].(committed := o + 1), processed + recorded);
      parts := parts[p := parts[p].(committed := o + 1)];
      return Completed(retried.GaveUp?);
    }

    /** The message was processed, or its failure was recorded. */
    ghost method Settle(p: nat, o: nat, success: bool)
      modifies this`processed, this`recorded
      ensures processed == old(processed) + (if success then {(p, o)} else {})
      ensures recorded == old(recorded) + (if success then {} else {(p, o)})
    {
      if success { processed := processed + {(p, o)}; } else { recorded := recorded + {(p, o)}; }
    }

    /** A new process starts from the committed offsets. */
    method Restart()
      requires Valid()
      modifies this
      ensures Valid() && !down && |parts| == |old(parts)| && processed == old(processed) && recorded == old(recorded)
      ensures forall p :: 0 <= p < |parts| ==> parts[p] == old(parts)[p].(position := old(parts)[p].committed)
    {
      parts := seq(|parts|, i requires 0 <= i < |parts| reads this => parts[i].(position := parts[i].committed));
      down := false;
    }
  }

  // Batches: the rollup worker.

  datatype Message = Decodable(key: Key) | Poison

  datatype Sink = Absent | Failing | Working

  datatype Stream = Stream(log: seq<Message>, position: nat, committed: nat)

  /** `refreshed` is history: messages whose bucket was refreshed after they had been consumed. */
  datatype Batch = Batch(streams: seq<Stream>, dirty: set<Key>, offsets: map<int, int>, refreshed: set<(int, int)>)

  /** The decodable message at offset `o` of partition `p` has been consumed. */
  predicate Read(streams: seq<Stream>, p: int, o: int) {
    0 <= p < |streams| && 0 <= o < streams[p].position && o < |streams[p].log| && streams[p].log[o].Decodable?
  }

  ghost predicate OffsetsInv(w: Batch) {
    && (forall p :: 0 <= p < |w.streams| ==> w.streams[p].committed <= w.streams[p].position <= |w.streams[p].log|)
    && (forall p :: p in w.offsets ==> Read(w.streams, p, w.offsets[p]))
    && (w.dirty == {} ==> w.offsets == map[])
  }

  /** A consumed message has been refreshed or its bucket is still dirty. */
  ghost predicate DirtyInv(w: Batch) {
    forall p, o :: Read(w.streams, p, o) ==> (p, o) in w.refreshed || w.streams[p].log[o].key in w.dirty
  }

  /** A message below the committed offset has been refreshed. */
  ghost predicate CommittedInv(w: Batch) {
    forall p, o :: Read(w.streams, p, o) && o < w.streams[p].committed ==> (p, o) in w.refreshed
  }

  ghost predicate BatchInv(w: Batch) { OffsetsInv(w) && DirtyInv(w) && CommittedInv(w) }

  ghost predicate AllRefreshed(w: Batch) { forall p, o :: Read(w.streams, p, o) ==> (p, o) in w.refreshed }

  /** The consumed messages whose bucket is among the dirty ones. */
  ghost function ReadDirty(streams: seq<Stream>, dirty: set<Key>): set<(int, int)> {
    set p, o | 0 <= p < |streams| && 0 <= o < streams[p].position && Read(streams, p, o) &&
      streams[p].log[o].key in dirty :: (p, o)
  }

  function Take(w: Batch, p: nat, key: Key): Batch
    requires p < |w.streams|
  {
    var o := w.streams[p].position;
    w.(streams := w.streams[p := w.streams[p].(position := o + 1)], dirty := w.dirty + {key},
      offsets := w.offsets[p := o])
  }

  function SeekTo(w: Batch, p: nat, o: nat): Batch
    requires p < |w.streams|
  {
    w.(streams := w.streams[p := w.streams[p].(position := o)])
  }

  function CommitAt(w: Batch, p: nat, o: nat): Batch
    requires p < |w.streams|
  {
    w.(streams := w.streams[p := w.streams[p].(committed := o + 1)])
  }

  lemma TakeKeepsInv(w: Batch, p: nat, key: Key)
    requires BatchInv(w) && p < |w.streams| && w.streams[p].position < |w.streams[p].log|
    requires w.streams[p].log[w.streams[p].position] == Decodable(key)
    ensures BatchInv(Take(w, p, key))
  {
  }

  /** Consuming a message that cannot be decoded, or going back to it, concerns no other. */
  lemma SeekKeepsInv(w: Batch, p: nat, o: nat)
    requires BatchInv(w) && p < |w.streams| && w.streams[p].committed <= o <= |w.streams[p].log|
    requires o == w.streams[p].position + 1 ==> w.streams[p].log[o - 1].Poison?
    requires o <= w.streams[p].position + 1 && (o <= w.streams[p].position ==> w.offsets == map[])
    ensures BatchInv(SeekTo(w, p, o))
  {
  }

  /** Refreshing the dirty buckets reaches every consumed message, because each one that was
      not refreshed before is dirty. */
  lemma RefreshKeepsInv(w: Batch)
    requires BatchInv(w)
    ensures var t := w.(refreshed := w.refreshed + ReadDirty(w.streams, w.dirty)); BatchInv(t) && AllRefreshed(t)
  {
    var t := w.(refreshed := w.refreshed + ReadDirty(w.streams, w.dirty));
    forall p, o | Read(t.streams, p, o) ensures (p, o) in t.refreshed {
      assert (p, o) in w.refreshed || (p, o) in ReadDirty(w.streams, w.dirty);
    }
  }

  lemma CommitKeepsInv(w: Batch, p: nat, o: nat)
    requires BatchInv(w) && AllRefreshed(w) && p < |w.streams| && o < w.streams[p].position
    ensures BatchInv(CommitAt(w, p, o)) && AllRefreshed(CommitAt(w, p, o))
  {
  }

  /** Nothing but committed offsets changed, and those to just behind the pending messages. */
  ghost predicate OnlyCommits(before: seq<Stream>, after: seq<Stream>, offsets: map<int, int>) {
    && |before| == |after|
    && forall p :: 0 <= p < |before| ==>
         || after[p] == before[p]
         || (p in offsets && offsets[p] >= 0 && after[p] == before[p].(committed := offsets[p] + 1))
  }

  ghost predicate SameLogs(before: seq<Stream>, after: seq<Stream>) {
    |before| == |after| && forall p :: 0 <= p < |before| ==> after[p].log == before[p].log
  }

  class RollupWorker {
    const maxDirty: nat
    var streams: seq<Stream>
    var dirty: set<Key>
    var offsets: map<int, int>
    ghost var refreshed: set<(int, int)>

    ghost function View(): Batch reads this { Batch(streams, dirty, offsets, refreshed) }

    ghost predicate Valid() reads this { maxDirty >= 1 && BatchInv(View()) }

    constructor (logs: seq<seq<Message>>, max: nat)
      requires max >= 1
      ensures Valid() && dirty == {} && offsets == map[] && |streams| == |logs|
    {
      maxDirty := max;
      streams := seq(|logs|, i requires 0 <= i < |logs| => Stream(logs[i], 0, 0));
      dirty, offsets, refreshed := {}, map[], {};
    }

    /** The commits at the end of `flush`; `failing` names a partition whose commit raises. */
    method CommitOffsets(failing: Option<nat>) returns (done: bool)
      requires Valid() && AllRefreshed(View())
      modifies this`streams
      ensures Valid() && AllRefreshed(View()) && OnlyCommits(old(streams), streams, offsets)
      ensures done ==> forall p :: p in offsets ==> streams[p].committed == offsets[p] + 1
      ensures failing.None? ==> done
    {
      var st := streams;
      ghost var w := View();
      for p := 0 to |st|
        invariant w == Batch(st, dirty, offsets, refreshed) && BatchInv(w) && AllRefreshed(w)
        invariant streams == old(streams) && OnlyCommits(streams, st, offsets)
        invariant forall q :: q in offsets && q < p ==> st[q].committed == offsets[q] + 1
      {
        if p in offsets {
          if failing == Some(p) {
            streams := st;
            return false;
          }
          assert Read(st, p, offsets[p]);
          CommitKeepsInv(w, p, offsets[p]);
          st := st[p := st[p].(committed := offsets[p] + 1)];
          w := CommitAt(w, p, offsets[p]);
        }
      }
      forall p | p in offsets ensures st[p].committed == offsets[p] + 1 { assert Read(st, p, offsets[p]); }
      streams := st;
      return true;
    }

    /** `flush`: offsets are committed only after the dirty buckets have been refreshed. */
    method Flush(refreshWorks: bool, failing: Option<nat>) returns (done: bool)
      requires Valid()
      modifies this`streams, this`dirty, this`offsets, this`refreshed
      ensures Valid() && OnlyCommits(old(streams), streams, old(offsets)) && old(refreshed) <= refreshed
      ensures done ==> dirty == {} && offsets == map[] && AllRefreshed(View())
      ensures done ==> forall p :: p in old(offsets) ==> streams[p].committed == old(offsets)[p] + 1
      ensures !done ==> dirty == old(dirty) && offsets == old(offsets)
      ensures old(dirty) == {} || (refreshWorks && failing.None?) ==> done
    {
      if dirty == {} { return true; }
      if !refreshWorks { return false; }
      RefreshKeepsInv(View());
      refreshed := refreshed + ReadDirty(streams, dirty);
      done := CommitOffsets(failing);
      if done { dirty, offsets := {}, map[]; }
    }

    /** A poison message was consumed at offset `o`: flush first, then record it and commit past
        it; if it cannot be recorded, go back to it; without a sink, or when the commit raises,
        the error leaves the worker behind the message, which stays uncommitted. */
    method Quarantine(p: nat, o: nat, refreshWorks: bool, failing: Option<nat>, sink: Sink) returns (fine: bool)
      requires Valid() && p < |streams| && streams[p].position == o + 1 && streams[p].log[o].Poison? &&
        streams[p].committed <= o
      modifies this`streams, this`dirty, this`offsets, this`refreshed
      ensures Valid() && SameLogs(old(streams), streams) && old(refreshed) <= refreshed
      ensures streams[p].committed == o + 1 <==> fine
      ensures fine ==> dirty == {} && streams[p].position == o + 1
      ensures refreshWorks && failing.None? ==>
        (fine <==> sink == Working) && (streams[p].position == o <==> sink == Failing)
    {
      var done := Flush(refreshWorks, failing);
      assert p in old(offsets) ==> Read(old(streams), p, old(offsets)[p]);
      if !done || sink == Absent { return false; }
      if sink == Failing {
        SeekKeepsInv(View(), p, o);
        streams := streams[p := streams[p].(position := o)];
        return false;
      }
      if failing == Some(p) { return false; }
      CommitKeepsInv(View(), p, o);
      streams := streams[p := streams[p].(committed := o + 1)];
      return true;
    }

    method MarkDirty(p: nat, o: nat, key: Key)
      requires Valid() && p < |streams| && streams[p].position == o < |streams[p].log| &&
        streams[p].log[o] == Decodable(key)
      modifies this`streams, this`dirty, this`offsets
      ensures Valid() && View() == Take(old(View()), p, key) && SameLogs(old(streams), streams)
    {
      TakeKeepsInv(View(), p, key);
      streams := streams[p := streams[p].(position := o + 1)];
      dirty := dirty + {key};
      offsets := offsets[p := o];
    }

    /** `run_once` for the next message of partition `p`, or for none. `due` says that the flush
        interval has passed. False means that an error left the method. */
    method RunOnce(p: Option<nat>, due: bool, refreshWorks: bool, failing: Option<nat>, sink: Sink) returns (fine: bool)
      requires Valid() && (p.Some? ==> p.value < |streams|)
      modifies this`streams, this`dirty, this`offsets, this`refreshed
      ensures Valid() && SameLogs(old(streams), streams) && old(refreshed) <= refreshed
      ensures fine && due ==> dirty == {}
      ensures fine ==> |dirty| < maxDirty
    {
      if p.Some? && streams[p.value].position < |streams[p.value].log| {
        var q, o := p.value, streams[p.value].position;
        match streams[q].log[o]
        case Poison =>
          SeekKeepsInv(View(), q, o + 1);
          streams := streams[q := streams[q].(position := o + 1)];
          fine := Quarantine(q, o, refreshWorks, failing, sink);
          return;
        case Decodable(key) =>
          MarkDirty(q, o, key);
      }
      if dirty != {} && (|dirty| >= maxDirty || due) {
        fine := Flush(refreshWorks, failing);
        return;
      }
      return true;
    }

    /** A new process starts from the committed offsets, with nothing dirty. */
    method Restart()
      requires Valid()
      modifies this`streams, this`dirty, this`offsets
      ensures Valid() && SameLogs(old(streams), streams) && dirty == {} && offsets == map[]
      ensures forall p :: 0 <= p < |streams| ==> streams[p] == old(streams)[p].(position := old(streams)[p].committed)
    {
      RestartKeepsInv(View());
      streams := Rewind(streams);
      dirty, offsets := {}, map[];
    }
  }

  function Rewind(streams: seq<Stream>): seq<Stream> {
    seq(|streams|, i requires 0 <= i < |streams| => streams[i].(position := streams[i].committed))
  }

  lemma RestartKeepsInv(w: Batch)
    requires BatchInv(w)
    ensures BatchInv(Batch(Rewind(w.streams), {}, map[], w.refreshed))
  {
  }
}
