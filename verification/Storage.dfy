/** The in-memory log with first-in-first-out eviction, shared vocabulary for the stored logs. */
module Storage {

  /** One serialized record: which one it is, and the length of its line in bytes. */
  datatype Entry = Entry(id: int, bytes: nat)

  /** A switch, by the identity of its name. */
  datatype Switch = Switch(id: int)

  /** The newest `cap` entries of a log. */
  function Latest(log: seq<Entry>, cap: nat): seq<Entry> {
    if |log| <= cap then log else log[|log| - cap..]
  }

  /** deque(maxlen=cap).append */
  function Push(buffer: seq<Entry>, e: Entry, cap: nat): seq<Entry>
    requires 0 < cap
  {
    if |buffer| < cap then buffer + [e] else buffer[1..] + [e]
  }

  lemma PushKeepsLatest(history: seq<Entry>, e: Entry, cap: nat)
    requires 0 < cap
    ensures Push(Latest(history, cap), e, cap) == Latest(history + [e], cap)
  {
  }

  class BoundedInMemoryStorage {
    const maxRecords: nat
    var log: map<Switch, seq<Entry>>
    ghost var history: map<Switch, seq<Entry>>

    ghost predicate Valid()
      reads this
    {
      && 0 < maxRecords
      && forall s :: At(log, s) == Latest(At(history, s), maxRecords)
    }

    constructor (maxRecords: nat)
      requires 0 < maxRecords
      ensures Valid() && history == map[] && this.maxRecords == maxRecords
    {
      this.maxRecords := maxRecords;
      log, history := map[], map[];
    }

    method AppendRecord(s: Switch, e: Entry)
      requires Valid()
      modifies this
      ensures Valid()
      ensures history == old(history)[s := At(old(history), s) + [e]]
    {
      var buffer := At(log, s);
      PushKeepsLatest(At(history, s), e, maxRecords);
      log := log[s := Push(buffer, e, maxRecords)];
      history := history[s := At(history, s) + [e]];
      forall t: Switch ensures At(log, t) == Latest(At(history, t), maxRecords) {
        if t != s { assert At(log, t) == At(old(log), t) && At(history, t) == At(old(history), t); }
      }
    }

    /** The most recent max_records records of the switch, oldest first. */
    method LoadRecords(s: Switch) returns (records: seq<Entry>)
      requires Valid()
      ensures records == Latest(At(history, s), maxRecords)
      ensures |records| <= maxRecords && (|records| == maxRecords || |records| == |At(history, s)|)
      ensures |records| <= |At(history, s)| && records == At(history, s)[|At(history, s)| - |records|..]
    {
      records := At(log, s);
    }
  }

  /** What a per-switch table holds for a switch; nothing for a switch it has never seen. */
  function At(m: map<Switch, seq<Entry>>, s: Switch): seq<Entry> {
    if s in m then m[s] else []
  }

  /** Total size of the lines. */
  function Bytes(log: seq<Entry>): nat {
    if log == [] then 0 else Bytes(log[..|log| - 1]) + log[|log| - 1].bytes
  }

  lemma {:induction false} BytesOfConcat(a: seq<Entry>, b: seq<Entry>)
    ensures Bytes(a + b) == Bytes(a) + Bytes(b)
  {
    if b == [] {
      assert a + b == a;
    } else {
      assert (a + b)[..|a + b| - 1] == a + b[..|b| - 1];
      BytesOfConcat(a, b[..|b| - 1]);
    }
  }
}
