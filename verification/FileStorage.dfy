/** The rotating file log of one switch: an active segment and numbered older ones. */
module FileStorage {
  import opened Storage

  /** A segment file: missing, or holding whole lines. */
  datatype Segment = Missing | File(lines: seq<Entry>)

  function Contents(segment: Segment): seq<Entry> {
    if segment.File? then segment.lines else []
  }

  /** Number 0 is the active file, higher numbers are older. */
  type Segments = seq<Segment>

  /** Segments n, n - 1, ..., 1 and then the active one: oldest line first. */
  function Reading(segments: Segments, n: nat): seq<Entry>
    requires n < |segments|
  {
    if n == 0 then Contents(segments[0]) else Contents(segments[n]) + Reading(segments, n - 1)
  }

  function Max(a: nat, b: nat): nat { if a < b then b else a }

  /** Every segment renamed one number up, the active one to number 1, and what passes the retention cap n gone. */
  function ShiftedUp(segments: Segments, n: nat): (after: Segments)
    requires |segments| == n + 2
    ensures |after| == |segments|
    ensures forall i :: 0 <= i < |segments| ==> after[i] == if 1 <= i <= Max(n, 1) then segments[i - 1] else Missing
  {
    [Missing] + segments[..Max(n, 1)] + if n == 0 then [] else [Missing]
  }

  /** A file numbered beyond the cap survives a rotation exactly when the cap is 0: the retired active file stays on disk, unread. */
  lemma BeyondRetention(segments: Segments, n: nat)
    requires |segments| == n + 2
    ensures ShiftedUp(segments, n)[n + 1].File? <==> n == 0 && segments[0].File?
  {
  }

  /** Shifting keeps the reading order: what can still be read are the segments one number lower. */
  lemma {:induction false} ShiftKeepsOrder(segments: Segments, k: nat, n: nat)
    requires |segments| == n + 2 && 1 <= k <= n
    ensures Reading(ShiftedUp(segments, n), k) == Reading(segments, k - 1)
  {
    var after := ShiftedUp(segments, n);
    assert after[k] == segments[k - 1];
    if k > 1 {
      ShiftKeepsOrder(segments, k - 1, n);
    } else {
      assert Reading(after, 0) == [];
    }
  }

  lemma {:induction false} ReadingIsBounded(segments: Segments, n: nat, most: nat)
    requires n < |segments|
    requires forall i :: 0 <= i <= n ==> Bytes(Contents(segments[i])) <= most
    ensures Bytes(Reading(segments, n)) <= (n + 1) * most
  {
    if n > 0 {
      ReadingIsBounded(segments, n - 1, most);
      BytesOfConcat(Contents(segments[n]), Reading(segments, n - 1));
      AddOne(n, most, Bytes(Reading(segments, n - 1)), Bytes(Contents(segments[n])));
    }
  }

  lemma AddOne(n: nat, most: nat, rest: nat, one: nat)
    requires rest <= n * most && one <= most
    ensures one + rest <= (n + 1) * most
  {
  }

  lemma {:induction false} AppendToActive(segments: Segments, n: nat, batch: seq<Entry>)
    requires n < |segments|
    ensures Reading(Written(segments, batch), n) == Reading(segments, n) + batch
  {
    if n > 0 {
      AppendToActive(segments, n - 1, batch);
      assert (Contents(segments[n]) + Reading(segments, n - 1)) + batch
          == Contents(segments[n]) + (Reading(segments, n - 1) + batch);
    }
  }

  /** The batch at the end of the active file. */
  function Written(segments: Segments, batch: seq<Entry>): Segments
    requires segments != []
  {
    segments[0 := File(Contents(segments[0]) + batch)]
  }

  ghost predicate Fit(segments: Segments, most: nat) {
    forall i :: 0 <= i < |segments| ==> Bytes(Contents(segments[i])) <= most
  }

  lemma WriteFits(segments: Segments, batch: seq<Entry>, maxBytes: nat, largest: nat)
    requires segments != [] && Fit(segments, Max(maxBytes, largest))
    requires segments[0].File? ==> Bytes(segments[0].lines) + Bytes(batch) <= maxBytes
    ensures Fit(Written(segments, batch), Max(maxBytes, Max(largest, Bytes(batch))))
  {
    BytesOfConcat(Contents(segments[0]), batch);
  }

  class FileLog {
    const maxBytes: nat
    const maxRotated: nat
    var segments: Segments

    /** Everything ever appended, and the part of it that rotation has dropped. */
    ghost var history: seq<Entry>
    ghost var evicted: seq<Entry>
    ghost var rotations: nat
    ghost var largestBatch: nat

    /** What can be read back. */
    ghost function Readable(): seq<Entry>
      requires |segments| == maxRotated + 2
      reads this
    {
      Reading(segments, maxRotated)
    }

    ghost function SegmentLimit(): nat
      reads this
    {
      Max(maxBytes, largestBatch)
    }

    ghost predicate Valid()
      reads this
    {
      && 0 < maxBytes
      && |segments| == maxRotated + 2
      && (0 < maxRotated ==> segments[maxRotated + 1] == Missing)
      && history == evicted + Readable()
      && (rotations <= maxRotated ==> evicted == [])
      && (forall i :: rotations < i < |segments| ==> segments[i] == Missing)
      && Fit(segments, SegmentLimit())
    }

    constructor (maxBytes: nat, maxRotated: nat)
      requires 0 < maxBytes
      ensures Valid() && history == [] && evicted == [] && rotations == 0 && largestBatch == 0
      ensures this.maxBytes == maxBytes && this.maxRotated == maxRotated
    {
      this.maxBytes, this.maxRotated := maxBytes, maxRotated;
      segments := seq(maxRotated + 2, _ => Missing);
      history, evicted, rotations, largestBatch := [], [], 0, 0;
      new;
      NothingToRead(segments, maxRotated);
    }

    /** The three passes of _rotate over the files: unlink beyond retention, rename upwards, retire the active file. */
    method ShiftSegments()
      requires |segments| == maxRotated + 2
      requires 0 < maxRotated ==> segments[maxRotated + 1] == Missing
      modifies this`segments
      ensures segments == ShiftedUp(old(segments), maxRotated)
    {
      var idx: int := maxRotated + 1;
      while idx < 1000 && idx < |segments| && segments[idx].File?
        invariant |segments| == maxRotated + 2
        invariant maxRotated + 1 <= idx
        invariant forall i :: 0 <= i <= maxRotated ==> segments[i] == old(segments)[i]
        invariant maxRotated + 1 < idx || 0 < maxRotated ==> segments[maxRotated + 1] == Missing
      {
        segments := segments[idx := Missing];
        idx := idx + 1;
      }
      idx := maxRotated;
      while idx > 0
        invariant |segments| == maxRotated + 2
        invariant 0 <= idx <= maxRotated
        invariant segments[maxRotated + 1] == Missing
        invariant forall i :: 0 <= i <= idx ==> segments[i] == old(segments)[i]
        invariant segments[idx + 1] == Missing
        invariant forall i :: idx + 2 <= i <= maxRotated ==> segments[i] == old(segments)[i - 1]
      {
        if segments[idx].File? {
          if idx + 1 > maxRotated {
            segments := segments[idx := Missing];
          } else {
            segments := segments[idx + 1 := segments[idx]][idx := Missing];
          }
        }
        idx := idx - 1;
      }
      if segments[0].File? {
        segments := segments[1 := segments[0]][0 := Missing];
      }
    }

    /** One rotation drops exactly the oldest readable segment, and nothing before rotation number max_rotated + 1. */
    method Rotate()
      requires Valid()
      modifies this
      ensures Valid()
      ensures segments == ShiftedUp(old(segments), maxRotated)
      ensures history == old(history) && largestBatch == old(largestBatch)
      ensures rotations == old(rotations) + 1
      ensures evicted == old(evicted) + Contents(old(segments)[maxRotated])
      ensures old(Readable()) == Contents(old(segments)[maxRotated]) + Readable()
    {
      ghost var dropped := Contents(segments[maxRotated]);
      if maxRotated > 0 {
        ShiftKeepsOrder(segments, maxRotated, maxRotated);
      }
      ShiftSegments();
      assert old(Readable()) == dropped + Readable();
      evicted := evicted + dropped;
      rotations := rotations + 1;
    }

    /** _append_sync: rotate first if the batch would push the active segment over the cap, then write it. */
    method AppendSync(batch: seq<Entry>)
      requires Valid()
      modifies this
      ensures Valid()
      ensures history == old(history) + batch && old(evicted) <= evicted
      ensures largestBatch == Max(old(largestBatch), Bytes(batch))
      ensures rotations == old(rotations)
                           + if batch != [] && old(segments)[0].File?
                                && Bytes(old(segments)[0].lines) + Bytes(batch) > maxBytes then 1 else 0
      ensures evicted == old(evicted) + if rotations == old(rotations) then [] else Contents(old(segments)[maxRotated])
      ensures old(evicted) + old(Readable()) + batch == evicted + Readable()
    {
      if batch == [] { return; }
      if segments[0].File? && Bytes(segments[0].lines) + Bytes(batch) > maxBytes {
        Rotate();
      }
      WriteActive(batch);
    }

    /** The write of the whole batch to the active file, once there is room for it. */
    method WriteActive(batch: seq<Entry>)
      requires Valid()
      requires segments[0].File? ==> Bytes(segments[0].lines) + Bytes(batch) <= maxBytes
      modifies this`segments, this`history, this`largestBatch
      ensures Valid()
      ensures history == old(history) + batch
      ensures largestBatch == Max(old(largestBatch), Bytes(batch))
    {
      WriteFits(segments, batch, maxBytes, largestBatch);
      AppendToActive(segments, maxRotated, batch);
      assert (evicted + Readable()) + batch == evicted + (Readable() + batch);
      segments, history, largestBatch := Written(segments, batch), history + batch, Max(largestBatch, Bytes(batch));
    }

    lemma ReadableIsBounded()
      requires Valid()
      ensures Bytes(Readable()) <= (maxRotated + 1) * SegmentLimit()
    {
      ReadingIsBounded(segments, maxRotated, SegmentLimit());
    }

    /** compact: a rotation on demand. */
    method Compact()
      requires Valid()
      modifies this
      ensures Valid()
      ensures history == old(history) && rotations == old(rotations) + 1 && old(evicted) <= evicted
      ensures evicted == old(evicted) + Contents(old(segments)[maxRotated])
      ensures old(Readable()) == Contents(old(segments)[maxRotated]) + Readable()
    {
      Rotate();
    }

    /** A suffix of everything appended, all of it up to rotation number max_rotated, and bounded in size. */
    method LoadRecords() returns (records: seq<Entry>)
      requires Valid()
      ensures |evicted| <= |history| && records == history[|evicted|..]
      ensures rotations <= maxRotated ==> records == history
      ensures Bytes(records) <= (maxRotated + 1) * SegmentLimit()
    {
      records := [];
      var idx: int := maxRotated;
      while idx > 0
        invariant 0 <= idx <= maxRotated
        invariant Reading(segments, maxRotated) == records + Reading(segments, idx)
      {
        records := records + Contents(segments[idx]);
        idx := idx - 1;
      }
      records := records + Contents(segments[0]);
      assert records == Readable();
      ReadableIsBounded();
    }
  }

  lemma {:induction false} NothingToRead(segments: Segments, n: nat)
    requires n < |segments| && forall i :: 0 <= i < |segments| ==> segments[i] == Missing
    ensures Reading(segments, n) == []
  {
    if n > 0 { NothingToRead(segments, n - 1); }
  }
}
