/**
 The batched mode of the file storage: records wait in a per-switch queue, a drain moves the
 queue to disk in one pass, and a failed drain puts back what it was writing.
 */
module BatchedWrites {
  import opened Storage

  // ---------------------------------------------------------------------------
  // First occurrences
  // ---------------------------------------------------------------------------

  /** The log without repeats: every entry at its first occurrence. */
  function FirstOccurrences(log: seq<Entry>): seq<Entry> {
    if log == [] then []
    else
      var init, last := log[..|log| - 1], log[|log| - 1];
      if last in init then FirstOccurrences(init) else FirstOccurrences(init) + [last]
  }

  predicate Distinct(log: seq<Entry>) {
    forall i, j :: 0 <= i < j < |log| ==> log[i] != log[j]
  }

  lemma {:induction false} SameEntries(log: seq<Entry>, e: Entry)
    ensures e in FirstOccurrences(log) <==> e in log
  {
    if log != [] {
      var init, last := log[..|log| - 1], log[|log| - 1];
      SameEntries(init, e);
      assert log == init + [last];
    }
  }

  lemma FirstOccurrencesOfAppend(log: seq<Entry>, e: Entry)
    ensures FirstOccurrences(log + [e]) == if e in log then FirstOccurrences(log) else FirstOccurrences(log) + [e]
  {
    assert (log + [e])[..|log|] == log;
  }

  lemma {:induction false} DistinctIsFixed(log: seq<Entry>)
    requires Distinct(log)
    ensures FirstOccurrences(log) == log
  {
    if log != [] {
      var init, last := log[..|log| - 1], log[|log| - 1];
      DistinctIsFixed(init);
      assert log == init + [last];
    }
  }

  /** Logs with the same first occurrences keep them under any common continuation. */
  lemma {:induction false} ExtendBoth(x: seq<Entry>, y: seq<Entry>, more: seq<Entry>)
    requires FirstOccurrences(x) == FirstOccurrences(y)
    ensures FirstOccurrences(x + more) == FirstOccurrences(y + more)
  {
    if more == [] {
      assert x + more == x && y + more == y;
    } else {
      var init, last := more[..|more| - 1], more[|more| - 1];
      ExtendBoth(x, y, init);
      assert x + more == (x + init) + [last] && y + more == (y + init) + [last];
      SameEntries(x + init, last);
      SameEntries(y + init, last);
      FirstOccurrencesOfAppend(x + init, last);
      FirstOccurrencesOfAppend(y + init, last);
    }
  }

  /** Writing again what is already there changes nothing. */
  lemma {:induction false} RepeatsVanish(log: seq<Entry>, again: seq<Entry>)
    requires forall e :: e in again ==> e in log
    ensures FirstOccurrences(log + again) == FirstOccurrences(log)
  {
    if again == [] {
      assert log + again == log;
    } else {
      var init, last := again[..|again| - 1], again[|again| - 1];
      RepeatsVanish(log, init);
      assert log + again == (log + init) + [last];
      FirstOccurrencesOfAppend(log + init, last);
    }
  }

  lemma Reassociate(durable: seq<Entry>, batch: seq<Entry>, w: nat)
    requires w <= |batch|
    ensures var written := durable + batch[..w];
            (written + batch[..w]) + batch[w..] == written + batch && written + batch[w..] == durable + batch
  {
    assert batch == batch[..w] + batch[w..];
  }

  /** A batch of which the first w entries were written before the failure, written again from the start. */
  lemma RetryAddsOnlyRepeats(durable: seq<Entry>, batch: seq<Entry>, w: nat)
    requires w <= |batch|
    ensures FirstOccurrences(durable + batch[..w] + batch) == FirstOccurrences(durable + batch)
  {
    var written := durable + batch[..w];
    RepeatsVanish(written, batch[..w]);
    ExtendBoth(written + batch[..w], written, batch[w..]);
    Reassociate(durable, batch, w);
  }

  // ---------------------------------------------------------------------------
  // The queue
  // ---------------------------------------------------------------------------

  /** One switch's waiting records. */
  datatype Waiting = Waiting(switch: Switch, records: seq<Entry>)

  /** The queue dictionary, in insertion order; no switch twice. */
  type Queue = seq<Waiting>

  predicate WellFormed(queue: Queue) {
    forall i, j :: 0 <= i < j < |queue| ==> queue[i].switch != queue[j].switch
  }

  function Queued(queue: Queue, s: Switch): seq<Entry> {
    if queue == [] then []
    else if queue[0].switch == s then queue[0].records
    else Queued(queue[1..], s)
  }

  /** queue[s] = records */
  function Put(queue: Queue, s: Switch, records: seq<Entry>): Queue {
    if queue == [] then [Waiting(s, records)]
    else if queue[0].switch == s then [Waiting(s, records)] + queue[1..]
    else [queue[0]] + Put(queue[1..], s, records)
  }

  lemma {:induction false} PutSets(queue: Queue, s: Switch, records: seq<Entry>, t: Switch)
    ensures Queued(Put(queue, s, records), t) == if t == s then records else Queued(queue, t)
  {
    if queue != [] {
      var after := Put(queue, s, records);
      if queue[0].switch == s {
        assert after[1..] == queue[1..];
      } else {
        PutSets(queue[1..], s, records, t);
        assert after[1..] == Put(queue[1..], s, records);
      }
    }
  }

  lemma {:induction false} PutStaysWellFormed(queue: Queue, s: Switch, records: seq<Entry>)
    requires WellFormed(queue)
    ensures WellFormed(Put(queue, s, records))
    ensures forall i :: 0 <= i < |Put(queue, s, records)| ==>
              Put(queue, s, records)[i].switch == s
              || exists j :: 0 <= j < |queue| && queue[j].switch == Put(queue, s, records)[i].switch
  {
    if queue != [] && queue[0].switch != s {
      PutStaysWellFormed(queue[1..], s, records);
      var rest := Put(queue[1..], s, records);
      forall i | 0 <= i < |rest| ensures rest[i].switch != queue[0].switch {
        if rest[i].switch != s {
          var j :| 0 <= j < |queue[1..]| && queue[1..][j].switch == rest[i].switch;
          assert queue[j + 1].switch == rest[i].switch;
        }
      }
    }
  }

  lemma {:induction false} QueuedNowhere(queue: Queue, s: Switch)
    requires forall i :: 0 <= i < |queue| && queue[i].switch == s ==> queue[i].records == []
    ensures Queued(queue, s) == []
  {
    if queue != [] { QueuedNowhere(queue[1..], s); }
  }

  /** The switches of a queue that have records waiting. */
  ghost function Nonempty(queue: Queue): set<Switch> {
    set k | 0 <= k < |queue| && queue[k].records != [] :: queue[k].switch
  }

  // ---------------------------------------------------------------------------
  // One switch's records across disk, snapshot and queue
  // ---------------------------------------------------------------------------

  type Logs = map<Switch, seq<Entry>>

  function Everywhere(durable: Logs, inFlight: Queue, queue: Queue, s: Switch): seq<Entry> {
    At(durable, s) + Queued(inFlight, s) + Queued(queue, s)
  }

  /** At-least-once, in order: what is on disk or waiting, without repeats, is the append history without repeats. */
  ghost predicate Complete(durable: Logs, inFlight: Queue, queue: Queue, history: Logs, s: Switch) {
    FirstOccurrences(Everywhere(durable, inFlight, queue, s)) == FirstOccurrences(At(history, s))
  }

  lemma AppendStep(durable: Logs, inFlight: Queue, queue: Queue, history: Logs, s: Switch, e: Entry, t: Switch)
    requires Complete(durable, inFlight, queue, history, t)
    ensures Complete(durable, inFlight, Put(queue, s, Queued(queue, s) + [e]), history[s := At(history, s) + [e]], t)
  {
    PutSets(queue, s, Queued(queue, s) + [e], t);
    if t == s {
      WaitOneMore(At(durable, s), Queued(inFlight, s), Queued(queue, s), At(history, s), e);
    }
  }

  lemma WaitOneMore(d: seq<Entry>, f: seq<Entry>, q: seq<Entry>, h: seq<Entry>, e: Entry)
    requires FirstOccurrences(d + f + q) == FirstOccurrences(h)
    ensures FirstOccurrences(d + f + (q + [e])) == FirstOccurrences(h + [e])
  {
    ExtendBoth(d + f + q, h, [e]);
    assert d + f + (q + [e]) == (d + f + q) + [e];
  }

  /** A successful write moves the records of a switch from one place to another. */
  lemma WriteMoves(durable: Logs, inFlight: Queue, queue: Queue, t: Switch)
    requires WellFormed(inFlight) && inFlight != []
    ensures var s := inFlight[0].switch;
            Everywhere(durable[s := At(durable, s) + inFlight[0].records], inFlight[1..], queue, t)
            == Everywhere(durable, inFlight, queue, t)
  {
    var s := inFlight[0].switch;
    if t == s { QueuedNowhere(inFlight[1..], s); }
  }

  lemma WrittenStep(durable: Logs, inFlight: Queue, queue: Queue, history: Logs, t: Switch)
    requires WellFormed(inFlight) && inFlight != []
    requires Complete(durable, inFlight, queue, history, t)
    ensures var s := inFlight[0].switch;
            Complete(durable[s := At(durable, s) + inFlight[0].records], inFlight[1..], queue, history, t)
  {
    WriteMoves(durable, inFlight, queue, t);
  }

  lemma FailedStep(durable: Logs, inFlight: Queue, queue: Queue, history: Logs, w: nat, t: Switch)
    requires WellFormed(inFlight) && inFlight != [] && w <= |inFlight[0].records|
    requires Complete(durable, inFlight, queue, history, t)
    requires t !in Nonempty(inFlight[1..])
    ensures var s, records := inFlight[0].switch, inFlight[0].records;
            Complete(durable[s := At(durable, s) + records[..w]], [], Put(queue, s, records + Queued(queue, s)), history, t)
  {
    var s, records := inFlight[0].switch, inFlight[0].records;
    PutSets(queue, s, records + Queued(queue, s), t);
    QueuedNowhere(inFlight[1..], t);
    if t == s {
      WriteAgain(At(durable, s), records, Queued(queue, s), w);
    }
  }

  lemma WriteAgain(d: seq<Entry>, records: seq<Entry>, q: seq<Entry>, w: nat)
    requires w <= |records|
    ensures FirstOccurrences(d + records[..w] + [] + (records + q)) == FirstOccurrences(d + records + q)
  {
    RetryAddsOnlyRepeats(d, records, w);
    ExtendBoth(d + records[..w] + records, d + records, q);
    assert d + records[..w] + [] + (records + q) == (d + records[..w] + records) + q;
  }

  /** Where a record can be found after the first switch of the snapshot failed: a record of another switch only survives outside the snapshot. */
  lemma FailureSurvivors(durable: Logs, inFlight: Queue, queue: Queue, w: nat, t: Switch, e: Entry)
    requires inFlight != [] && w <= |inFlight[0].records|
    ensures var s, records := inFlight[0].switch, inFlight[0].records;
            var after := Everywhere(durable[s := At(durable, s) + records[..w]], [], Put(queue, s, records + Queued(queue, s)), t);
            e in after <==> e in At(durable, t) || e in Queued(queue, t) || (t == s && e in records)
  {
    var s, records := inFlight[0].switch, inFlight[0].records;
    PutSets(queue, s, records + Queued(queue, s), t);
    assert Queued([], t) == [];
    if t == s {
      assert forall x :: x in records[..w] ==> x in records;
    }
  }

  /** A concrete loss: two switches wait with one record each, the first write raises, the second record is nowhere. */
  lemma SecondSwitchIsLost(s: Switch, t: Switch, x: Entry, y: Entry)
    requires s != t
    ensures var inFlight := [Waiting(s, [x]), Waiting(t, [y])];
            && y in Everywhere(map[], inFlight, [], t)
            && y !in Everywhere((map[])[s := []], [], Put([], s, [x]), t)
  {
    var inFlight := [Waiting(s, [x]), Waiting(t, [y])];
    assert inFlight[1..] == [Waiting(t, [y])];
    assert Queued(inFlight, t) == [y];
    PutSets([], s, [x], t);
  }

  /**
   The storage between the steps of a drain.  Drains are serialized, so at most one snapshot is
   in flight; appends may come at any point in between.
   */
  class BatchedFileStorage {
    var queue: Queue
    var inFlight: Queue
    var durable: Logs

    /** Whether the i-th write raises before its n-th line, an arbitrary script, and how many writes there were. */
    const raises: (nat, nat) -> bool
    var writes: nat

    /** What was appended for each switch, and the switches some of whose records a drain has dropped. */
    ghost var history: Logs
    ghost var dropped: set<Switch>

    ghost predicate Valid()
      reads this
    {
      && WellFormed(queue) && WellFormed(inFlight)
      && forall s :: s !in dropped ==> Complete(durable, inFlight, queue, history, s)
    }

    constructor (raises: (nat, nat) -> bool)
      ensures Valid() && queue == inFlight == [] && durable == map[] && history == map[] && dropped == {}
      ensures this.raises == raises && writes == 0
    {
      this.raises, writes := raises, 0;
      queue, inFlight, durable, history, dropped := [], [], map[], map[], {};
    }

    /** append_record in batching mode. */
    method AppendRecord(s: Switch, e: Entry)
      requires Valid()
      modifies this`queue, this`history
      ensures Valid()
      ensures history == old(history)[s := At(old(history), s) + [e]]
      ensures queue == Put(old(queue), s, Queued(old(queue), s) + [e])
    {
      PutStaysWellFormed(queue, s, Queued(queue, s) + [e]);
      forall t | t !in dropped
        ensures Complete(durable, inFlight, Put(queue, s, Queued(queue, s) + [e]), history[s := At(history, s) + [e]], t)
      {
        AppendStep(durable, inFlight, queue, history, s, e, t);
      }
      queue, history := Put(queue, s, Queued(queue, s) + [e]), history[s := At(history, s) + [e]];
    }

    /** The i-th write gets so many lines to the disk without raising. */
    ghost predicate Passes(i: nat, lines: nat) {
      forall n :: 0 <= n < lines ==> !raises(i, n)
    }

    /** A write of whole lines that may raise after any number of them. */
    method AppendSync(s: Switch, records: seq<Entry>) returns (ok: bool, written: nat)
      modifies this`durable, this`writes
      ensures ok <==> Passes(old(writes), |records|)
      ensures writes == old(writes) + 1 && written <= |records| && Passes(old(writes), written)
      ensures if ok then written == |records| else written < |records| && raises(old(writes), written)
      ensures durable == old(durable)[s := At(old(durable), s) + records[..written]]
    {
      var lines := At(durable, s);
      written, ok := 0, true;
      while written < |records|
        invariant written <= |records| && ok && Passes(writes, written)
        invariant lines == At(durable, s) + records[..written]
      {
        if raises(writes, written) { ok := false; break; }
        lines := lines + [records[written]];
        written := written + 1;
      }
      durable, writes := durable[s := lines], writes + 1;
    }

    /** The first step of _drain_once: swap the queue out. */
    method TakeSnapshot()
      requires Valid() && inFlight == []
      modifies this`queue, this`inFlight
      ensures Valid()
      ensures inFlight == old(queue) && queue == []
    {
      forall s | s !in dropped ensures Complete(durable, queue, [], history, s) {
        assert Everywhere(durable, queue, [], s) == Everywhere(durable, inFlight, queue, s);
      }
      inFlight, queue := queue, [];
    }

    /**
     The next step: write the first switch of the snapshot.  On a failure its records go back in
     front of what has arrived since, and the rest of the snapshot is forgotten: those switches'
     waiting records are then neither on disk nor in the queue.
     */
    method WriteNext() returns (ok: bool)
      requires Valid() && inFlight != []
      modifies this`queue, this`inFlight, this`durable, this`dropped, this`writes
      ensures Valid()
      ensures writes == old(writes) + 1 && (ok <==> Passes(old(writes), |old(inFlight)[0].records|))
      ensures ok ==> var s, records := old(inFlight)[0].switch, old(inFlight)[0].records;
                     && inFlight == old(inFlight)[1..] && queue == old(queue) && dropped == old(dropped)
                     && durable == old(durable)[s := At(old(durable), s) + records]
      ensures !ok ==> inFlight == [] && dropped == old(dropped) + Nonempty(old(inFlight)[1..])
      ensures !ok ==> var s, records := old(inFlight)[0].switch, old(inFlight)[0].records;
                      && queue == Put(old(queue), s, records + Queued(old(queue), s))
                      && exists w: nat :: w < |records| && Passes(old(writes), w) && raises(old(writes), w)
                                          && durable == old(durable)[s := At(old(durable), s) + records[..w]]
    {
      var s, records := inFlight[0].switch, inFlight[0].records;
      var written;
      ghost var before := durable;
      ok, written := AppendSync(s, records);
      if ok {
        assert records[..written] == records;
        forall t | t !in dropped ensures Complete(durable, inFlight[1..], queue, history, t) {
          WrittenStep(before, inFlight, queue, history, t);
        }
        inFlight := inFlight[1..];
      } else {
        Requeue(before, written);
      }
    }

    /** The except branch of _drain_once, after `written` records of the first switch reached the disk. */
    method Requeue(ghost before: Logs, ghost written: nat)
      requires WellFormed(queue) && WellFormed(inFlight) && inFlight != [] && written <= |inFlight[0].records|
      requires durable == before[inFlight[0].switch := At(before, inFlight[0].switch) + inFlight[0].records[..written]]
      requires forall s :: s !in dropped ==> Complete(before, inFlight, queue, history, s)
      modifies this`queue, this`inFlight, this`dropped
      ensures Valid()
      ensures inFlight == [] && dropped == old(dropped) + Nonempty(old(inFlight)[1..])
      ensures queue == Put(old(queue), old(inFlight)[0].switch,
                           old(inFlight)[0].records + Queued(old(queue), old(inFlight)[0].switch))
    {
      var s, records := inFlight[0].switch, inFlight[0].records;
      var after := Put(queue, s, records + Queued(queue, s));
      PutStaysWellFormed(queue, s, records + Queued(queue, s));
      ghost var snapshot, waiting := inFlight, queue;
      dropped := dropped + Nonempty(inFlight[1..]);
      queue, inFlight := after, [];
      forall t | t !in dropped ensures Complete(durable, inFlight, queue, history, t) {
        FailedStep(before, snapshot, waiting, history, written, t);
      }
    }

    /** _drain_once from start to end; appends may also come between its steps. */
    method DrainOnce() returns (ok: bool)
      requires Valid() && inFlight == []
      modifies this`queue, this`inFlight, this`durable, this`dropped, this`writes
      ensures Valid() && inFlight == []
      ensures ok ==> queue == [] && dropped == old(dropped) && writes == old(writes) + |old(queue)|
      ensures (forall i, n :: old(writes) <= i < old(writes) + |old(queue)| ==> !raises(i, n)) ==> ok
      ensures |old(queue)| <= 1 ==> dropped == old(dropped)
    {
      TakeSnapshot();
      ok := true;
      while inFlight != []
        invariant Valid() && queue == [] && dropped == old(dropped) && ok
        invariant writes == old(writes) + |old(queue)| - |inFlight|
        decreases |inFlight|
      {
        assert |inFlight| == 1 ==> Nonempty(inFlight[1..]) == {};
        ok := WriteNext();
        if !ok { return; }
      }
    }

    /** load_records drains first; when that succeeds and nothing was dropped, the log read back is the whole history. */
    method LoadRecords(s: Switch) returns (ok: bool, records: seq<Entry>)
      requires Valid() && inFlight == []
      modifies this`queue, this`inFlight, this`durable, this`dropped, this`writes
      ensures Valid() && inFlight == []
      ensures (forall i, n :: old(writes) <= i < old(writes) + |old(queue)| ==> !raises(i, n)) ==> ok && dropped == old(dropped)
      ensures ok && s !in dropped ==> FirstOccurrences(records) == FirstOccurrences(At(history, s))
      ensures ok && s !in dropped && Distinct(At(history, s)) ==> FirstOccurrences(records) == At(history, s)
    {
      records := [];
      ok := DrainOnce();
      if ok {
        records := At(durable, s);
        if s !in dropped {
          assert Complete(durable, inFlight, queue, history, s);
          assert records == Everywhere(durable, inFlight, queue, s);
        }
        if Distinct(At(history, s)) { DistinctIsFixed(At(history, s)); }
      }
    }
  }
}
