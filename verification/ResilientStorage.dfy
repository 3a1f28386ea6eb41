/**
 The wrapper that spills to memory while the primary backend fails and drains back, record by
 record, when it recovers.  A failed primary append writes nothing; when it fails is arbitrary.
 */
module ResilientStorage {
  import opened Storage

  type Logs = map<Switch, seq<Entry>>

  /** An InMemoryStorage fallback, or a BoundedInMemoryStorage one. */
  datatype Capacity = Unbounded | AtMost(records: nat)

  function PushWithin(buffer: seq<Entry>, e: Entry, capacity: Capacity): seq<Entry>
    requires capacity.AtMost? ==> 0 < capacity.records
  {
    if capacity.Unbounded? then buffer + [e] else Push(buffer, e, capacity.records)
  }

  // ---------------------------------------------------------------------------
  // What is kept of one switch's history
  // ---------------------------------------------------------------------------

  /** The i-th entry of `a` is entry at[i] of `b`, in order. */
  predicate Embeds(a: seq<Entry>, b: seq<Entry>, at: seq<nat>) {
    && |at| == |a|
    && (forall i, j :: 0 <= i < j < |at| ==> at[i] < at[j])
    && (forall i :: 0 <= i < |at| ==> at[i] < |b| && b[at[i]] == a[i])
  }

  ghost predicate Subsequence(a: seq<Entry>, b: seq<Entry>) {
    exists at: seq<nat> :: Embeds(a, b, at)
  }

  lemma SubsequenceOfItself(a: seq<Entry>)
    ensures Subsequence(a, a)
  {
    assert Embeds(a, a, seq(|a|, i requires 0 <= i < |a| => i));
  }

  lemma SubsequenceAppend(a: seq<Entry>, b: seq<Entry>, e: Entry)
    requires Subsequence(a, b)
    ensures Subsequence(a + [e], b + [e])
  {
    var at: seq<nat> :| Embeds(a, b, at);
    assert Embeds(a + [e], b + [e], at + [|b|]);
  }

  lemma SubsequenceDrop(a: seq<Entry>, k: nat, b: seq<Entry>)
    requires k < |a| && Subsequence(a, b)
    ensures Subsequence(a[..k] + a[k + 1..], b)
  {
    var at: seq<nat> :| Embeds(a, b, at);
    assert Embeds(a[..k] + a[k + 1..], b, at[..k] + at[k + 1..]);
  }

  /**
   Of one switch's history: what is stored is an ordered part of it, and the stored and evicted
   records add up; without evictions it is all of it.
   */
  ghost predicate Kept(primary: seq<Entry>, fallback: seq<Entry>, history: seq<Entry>, evicted: nat) {
    && Subsequence(primary + fallback, history)
    && |primary + fallback| + evicted == |history|
    && (evicted == 0 ==> primary + fallback == history)
  }

  lemma KeptByPrimaryAppend(p: seq<Entry>, h: seq<Entry>, evicted: nat, e: Entry)
    requires Kept(p, [], h, evicted)
    ensures Kept(p + [e], [], h + [e], evicted)
  {
    SubsequenceAppend(p + [], h, e);
    assert (p + [e]) + [] == (p + []) + [e];
  }

  lemma KeptByFallbackAppend(p: seq<Entry>, f: seq<Entry>, h: seq<Entry>, evicted: nat, e: Entry)
    requires Kept(p, f, h, evicted)
    ensures Kept(p, f + [e], h + [e], evicted)
  {
    SubsequenceAppend(p + f, h, e);
    assert p + (f + [e]) == (p + f) + [e];
  }

  lemma KeptByEviction(p: seq<Entry>, f: seq<Entry>, h: seq<Entry>, evicted: nat, e: Entry)
    requires Kept(p, f, h, evicted) && f != []
    ensures Kept(p, f[1..] + [e], h + [e], evicted + 1)
  {
    SubsequenceDrop(p + f, |p|, h);
    assert (p + f)[..|p|] + (p + f)[|p| + 1..] == p + f[1..];
    SubsequenceAppend(p + f[1..], h, e);
    assert p + (f[1..] + [e]) == (p + f[1..]) + [e];
  }

  lemma KeptByDraining(p: seq<Entry>, f: seq<Entry>, h: seq<Entry>, evicted: nat)
    requires Kept(p, f, h, evicted) && f != []
    ensures Kept(p + [f[0]], f[1..], h, evicted)
  {
    assert (p + [f[0]]) + f[1..] == p + f;
  }

  // ---------------------------------------------------------------------------
  // All switches at once
  // ---------------------------------------------------------------------------

  ghost predicate KeptFor(primary: Logs, fallback: Logs, history: Logs, evicted: multiset<Switch>, s: Switch) {
    Kept(At(primary, s), At(fallback, s), At(history, s), evicted[s])
  }

  ghost predicate AllKept(primary: Logs, fallback: Logs, history: Logs, evicted: multiset<Switch>) {
    forall s :: KeptFor(primary, fallback, history, evicted, s)
  }

  ghost predicate Within(fallback: Logs, capacity: Capacity) {
    capacity.AtMost? ==> forall s :: |At(fallback, s)| <= capacity.records
  }

  ghost predicate Covers(tracked: set<Switch>, fallback: Logs) {
    forall s :: At(fallback, s) != [] ==> s in tracked
  }

  lemma AtUpdated(m: Logs, s: Switch, log: seq<Entry>, t: Switch)
    ensures At(m[s := log], t) == if t == s then log else At(m, t)
  {
  }

  lemma PrimaryAppendStep(primary: Logs, fallback: Logs, history: Logs, evicted: multiset<Switch>, s: Switch, e: Entry)
    requires AllKept(primary, fallback, history, evicted) && At(fallback, s) == []
    ensures AllKept(primary[s := At(primary, s) + [e]], fallback, history[s := At(history, s) + [e]], evicted)
  {
    var primary', history' := primary[s := At(primary, s) + [e]], history[s := At(history, s) + [e]];
    forall t ensures KeptFor(primary', fallback, history', evicted, t) {
      assert KeptFor(primary, fallback, history, evicted, t);
      if t == s { KeptByPrimaryAppend(At(primary, s), At(history, s), evicted[s], e); }
    }
  }

  /** The fallback takes the record; exactly when its length does not grow, an older record of the switch was evicted. */
  lemma SpillStep(primary: Logs, fallback: Logs, history: Logs, evicted: multiset<Switch>, tracked: set<Switch>,
                  s: Switch, e: Entry, capacity: Capacity)
    requires s in tracked && Covers(tracked, fallback)
    requires AllKept(primary, fallback, history, evicted) && Within(fallback, capacity)
    requires capacity.AtMost? ==> 0 < capacity.records
    ensures var buffer := PushWithin(At(fallback, s), e, capacity);
            && Within(fallback[s := buffer], capacity) && Covers(tracked, fallback[s := buffer])
            && (|buffer| <= |At(fallback, s)| <==> capacity.AtMost? && |At(fallback, s)| == capacity.records)
            && AllKept(primary, fallback[s := buffer], history[s := At(history, s) + [e]],
                       if |buffer| <= |At(fallback, s)| then evicted + multiset{s} else evicted)
  {
    var f := At(fallback, s);
    var buffer := PushWithin(f, e, capacity);
    var fallback', history' := fallback[s := buffer], history[s := At(history, s) + [e]];
    var evicted' := if |buffer| <= |f| then evicted + multiset{s} else evicted;
    assert capacity.AtMost? ==> |f| <= capacity.records;
    forall t ensures KeptFor(primary, fallback', history', evicted', t) {
      assert KeptFor(primary, fallback, history, evicted, t);
      if t == s {
        if |buffer| <= |f| {
          KeptByEviction(At(primary, s), f, At(history, s), evicted[s], e);
        } else {
          KeptByFallbackAppend(At(primary, s), f, At(history, s), evicted[s], e);
        }
      }
    }
    forall t
      ensures capacity.AtMost? ==> |At(fallback', t)| <= capacity.records
      ensures At(fallback', t) != [] ==> t in tracked
    {
      AtUpdated(fallback, s, buffer, t);
    }
  }

  lemma DrainStep(primary: Logs, fallback: Logs, history: Logs, evicted: multiset<Switch>, s: Switch, capacity: Capacity)
    requires AllKept(primary, fallback, history, evicted) && At(fallback, s) != [] && Within(fallback, capacity)
    ensures Within(fallback[s := At(fallback, s)[1..]], capacity)
    ensures AllKept(primary[s := At(primary, s) + [At(fallback, s)[0]]], fallback[s := At(fallback, s)[1..]], history, evicted)
  {
    var p, f := At(primary, s), At(fallback, s);
    var primary', fallback' := primary[s := p + [f[0]]], fallback[s := f[1..]];
    forall t ensures KeptFor(primary', fallback', history, evicted, t) {
      assert KeptFor(primary, fallback, history, evicted, t);
      if t == s { KeptByDraining(p, f, At(history, s), evicted[s]); }
    }
    forall t | capacity.AtMost? ensures |At(fallback', t)| <= capacity.records {
      AtUpdated(fallback, s, f[1..], t);
    }
  }

  /** Every switch has the same records, in the same order, spread over the two stores in perhaps another way. */
  ghost predicate Moved(primary: Logs, fallback: Logs, primary': Logs, fallback': Logs) {
    forall t :: At(primary', t) + At(fallback', t) == At(primary, t) + At(fallback, t)
  }

  lemma DrainMoves(p: Logs, f: Logs, primary: Logs, fallback: Logs, s: Switch)
    requires Moved(p, f, primary, fallback) && At(fallback, s) != []
    ensures Moved(p, f, primary[s := At(primary, s) + [At(fallback, s)[0]]], fallback[s := At(fallback, s)[1..]])
  {
    var primary', fallback' := primary[s := At(primary, s) + [At(fallback, s)[0]]], fallback[s := At(fallback, s)[1..]];
    forall t ensures At(primary', t) + At(fallback', t) == At(p, t) + At(f, t) {
      AtUpdated(primary, s, At(primary, s) + [At(fallback, s)[0]], t);
      AtUpdated(fallback, s, At(fallback, s)[1..], t);
    }
  }

  /** What holds all through a drain: the stores began as p and f, and only the remaining switches have records in the fallback. */
  ghost predicate Draining(primary: Logs, fallback: Logs, history: Logs, evicted: multiset<Switch>, capacity: Capacity,
                           remaining: set<Switch>, p: Logs, f: Logs) {
    && AllKept(primary, fallback, history, evicted) && Within(fallback, capacity)
    && Covers(remaining, fallback) && Moved(p, f, primary, fallback)
  }

  lemma DrainOne(primary: Logs, fallback: Logs, history: Logs, evicted: multiset<Switch>, capacity: Capacity,
                 remaining: set<Switch>, p: Logs, f: Logs, s: Switch)
    requires Draining(primary, fallback, history, evicted, capacity, remaining, p, f)
    requires At(fallback, s) != []
    ensures Draining(primary[s := At(primary, s) + [At(fallback, s)[0]]], fallback[s := At(fallback, s)[1..]],
                     history, evicted, capacity, remaining, p, f)
  {
    DrainStep(primary, fallback, history, evicted, s, capacity);
    DrainMoves(p, f, primary, fallback, s);
    var fallback' := fallback[s := At(fallback, s)[1..]];
    forall t | At(fallback', t) != [] ensures t in remaining { AtUpdated(fallback, s, At(fallback, s)[1..], t); }
  }

  class Resilient {
    const capacity: Capacity
    const probeEvery: nat
    var primary: Logs
    var fallback: Logs
    var degraded: bool
    var degradedWrites: nat
    var degradedEvictions: nat
    var writesSinceProbe: nat
    var tracked: set<Switch>

    /** Whether the primary takes its i-th append, an arbitrary script, and how many it has been asked for. */
    const takes: nat -> bool
    var calls: nat

    /** Every append so far, and for each switch how many of its records the fallback has evicted. */
    ghost var history: Logs
    ghost var evicted: multiset<Switch>

    ghost predicate Valid()
      reads this
    {
      && 0 < probeEvery && (capacity.AtMost? ==> 0 < capacity.records)
      && (!degraded ==> Covers({}, fallback))
      && Covers(tracked, fallback)
      && Within(fallback, capacity)
      && AllKept(primary, fallback, history, evicted)
      && degradedEvictions == |evicted|
      && (capacity.Unbounded? ==> evicted == multiset{})
    }

    constructor (capacity: Capacity, probeEvery: nat, takes: nat -> bool)
      requires 0 < probeEvery && (capacity.AtMost? ==> 0 < capacity.records)
      ensures Valid() && !degraded && history == map[] && degradedEvictions == 0
      ensures this.capacity == capacity && this.probeEvery == probeEvery && this.takes == takes && calls == 0
    {
      this.capacity, this.probeEvery, this.takes, this.calls := capacity, probeEvery, takes, 0;
      primary, fallback, history := map[], map[], map[];
      degraded, degradedWrites, degradedEvictions, writesSinceProbe := false, 0, 0, 0;
      tracked, evicted := {}, multiset{};
      new;
      SubsequenceOfItself([]);
    }

    /** An attempt on the primary backend: it appends the record, or raises and writes nothing. */
    method PrimaryAppend(s: Switch, e: Entry) returns (ok: bool)
      modifies this`primary, this`calls
      ensures ok == takes(old(calls)) && calls == old(calls) + 1
      ensures primary == if ok then old(primary)[s := At(old(primary), s) + [e]] else old(primary)
    {
      ok := takes(calls);
      calls := calls + 1;
      if ok {
        primary := primary[s := At(primary, s) + [e]];
      }
    }

    /** A bounded fallback has no room for another record of the switch. */
    ghost predicate Full(fallback: Logs, s: Switch) {
      capacity.AtMost? && |At(fallback, s)| == capacity.records
    }

    /** The next append goes to the fallback: the switch is degraded, or the primary is about to fail. */
    ghost predicate Spills()
      reads this
    {
      degraded || !takes(calls)
    }

    /** After it a probe is due. */
    ghost predicate ProbeDue()
      reads this
    {
      (if degraded then writesSinceProbe else 0) + 1 >= probeEvery
    }

    /** The first attempt on the primary a probe would make. */
    ghost function ProbeFrom(): nat
      reads this
    {
      if degraded then calls else calls + 1
    }

    /** The attempts since `first` went well but for the last one, if any, of a switch that is still degraded. */
    ghost predicate Probed(first: nat)
      reads this
    {
      && first <= calls && (forall i :: first <= i < calls - 1 ==> takes(i))
      && (degraded <==> first < calls && !takes(calls - 1))
    }

    method AppendRecord(s: Switch, e: Entry)
      requires Valid()
      modifies this
      ensures Valid()
      ensures history == old(history)[s := At(old(history), s) + [e]]
      ensures !old(Spills()) ==>
                && primary == old(primary)[s := At(old(primary), s) + [e]] && fallback == old(fallback)
                && !degraded && calls == old(calls) + 1
      ensures degradedEvictions == old(degradedEvictions) + if old(Spills()) && Full(old(fallback), s) then 1 else 0
      ensures old(Spills()) ==>
                Moved(old(primary), old(fallback)[s := PushWithin(At(old(fallback), s), e, capacity)], primary, fallback)
      ensures old(Spills()) && !old(ProbeDue()) ==>
                degraded && calls == old(ProbeFrom()) && primary == old(primary)
                && writesSinceProbe == 1 + if old(degraded) then old(writesSinceProbe) else 0
      ensures old(Spills()) && old(ProbeDue()) ==> Probed(old(ProbeFrom())) && writesSinceProbe == 0
    {
      tracked := tracked + {s};
      if !degraded {
        PrimaryAppendStep(primary, fallback, history, evicted, s, e);
        var ok := PrimaryAppend(s, e);
        if ok {
          history := history[s := At(history, s) + [e]];
          return;
        }
        degraded := true;
        writesSinceProbe := 0;
      }
      AppendDegraded(s, e);
    }

    /** The rest of append_record on a degraded switch: spill, and probe when it is time. */
    method AppendDegraded(s: Switch, e: Entry)
      requires Valid() && degraded && s in tracked
      modifies this
      ensures Valid()
      ensures history == old(history)[s := At(old(history), s) + [e]]
      ensures degradedEvictions == old(degradedEvictions) + if Full(old(fallback), s) then 1 else 0
      ensures Moved(old(primary), old(fallback)[s := PushWithin(At(old(fallback), s), e, capacity)], primary, fallback)
      ensures old(writesSinceProbe) + 1 < probeEvery ==>
                degraded && calls == old(calls) && primary == old(primary) && writesSinceProbe == old(writesSinceProbe) + 1
      ensures old(writesSinceProbe) + 1 >= probeEvery ==> Probed(old(calls)) && writesSinceProbe == 0
    {
      Spill(s, e);
      if writesSinceProbe >= probeEvery {
        writesSinceProbe := 0;
        TryRecover();
      }
    }

    /** The degraded path of append_record: into the fallback, noticing when that evicts. */
    method Spill(s: Switch, e: Entry)
      requires Valid() && degraded && s in tracked
      modifies this`fallback, this`degradedWrites, this`degradedEvictions, this`writesSinceProbe, this`history, this`evicted
      ensures Valid()
      ensures history == old(history)[s := At(old(history), s) + [e]]
      ensures writesSinceProbe == old(writesSinceProbe) + 1 && degradedWrites == old(degradedWrites) + 1
      ensures fallback == old(fallback)[s := PushWithin(At(old(fallback), s), e, capacity)]
      ensures degradedEvictions == old(degradedEvictions) + if Full(old(fallback), s) then 1 else 0
    {
      SpillStep(primary, fallback, history, evicted, tracked, s, e, capacity);
      var before := At(fallback, s);
      var after := PushWithin(before, e, capacity);
      fallback, history := fallback[s := after], history[s := At(history, s) + [e]];
      if |after| <= |before| {
        degradedEvictions, evicted := degradedEvictions + 1, evicted + multiset{s};
      }
      degradedWrites, writesSinceProbe := degradedWrites + 1, writesSinceProbe + 1;
    }

    /**
     _try_recover: drain switch by switch, record by record; a failure leaves the rest where it is.
     It recovers exactly when the primary takes every record, and then the primary has them all.
     */
    method TryRecover()
      requires Valid()
      modifies this`primary, this`fallback, this`degraded, this`writesSinceProbe, this`calls
      ensures Valid()
      ensures Probed(old(calls)) && Moved(old(primary), old(fallback), primary, fallback)
      ensures !degraded ==> writesSinceProbe == 0 && forall t :: At(primary, t) == At(old(primary), t) + At(old(fallback), t)
      ensures degraded ==> old(degraded) && writesSinceProbe == old(writesSinceProbe)
    {
      ghost var p, f := primary, fallback;
      var remaining := tracked;
      while remaining != {}
        invariant degraded == old(degraded) && writesSinceProbe == old(writesSinceProbe)
        invariant Draining(primary, fallback, history, evicted, capacity, if degraded then remaining else {}, p, f)
        invariant Covers(remaining, fallback)
        invariant old(calls) <= calls && forall i :: old(calls) <= i < calls ==> takes(i)
        decreases remaining
      {
        var s :| s in remaining;
        var ok := DrainSwitch(s, if degraded then remaining else {}, p, f);
        if !ok { return; }
        remaining := remaining - {s};
      }
      degraded := false;
      writesSinceProbe := 0;
      forall t ensures At(primary, t) == At(old(primary), t) + At(old(fallback), t) {
        assert At(primary, t) + At(fallback, t) == At(primary, t);
      }
    }

    /** The inner loop: pop a record from the fallback only after the primary has taken it. */
    method DrainSwitch(s: Switch, ghost remaining: set<Switch>, ghost p: Logs, ghost f: Logs) returns (ok: bool)
      requires Draining(primary, fallback, history, evicted, capacity, remaining, p, f)
      modifies this`primary, this`fallback, this`calls
      ensures Draining(primary, fallback, history, evicted, capacity, if ok then remaining - {s} else remaining, p, f)
      ensures old(calls) <= calls && forall i :: old(calls) <= i < (if ok then calls else calls - 1) ==> takes(i)
      ensures !ok ==> old(calls) < calls && !takes(calls - 1) && s in remaining
    {
      while At(fallback, s) != []
        invariant Draining(primary, fallback, history, evicted, capacity, remaining, p, f)
        invariant old(calls) <= calls && forall i :: old(calls) <= i < calls ==> takes(i)
        decreases |At(fallback, s)|
      {
        DrainOne(primary, fallback, history, evicted, capacity, remaining, p, f, s);
        ok := PrimaryAppend(s, At(fallback, s)[0]);
        if !ok { return; }
        PopFallbackHead(s);
      }
      ok := true;
    }

    method PopFallbackHead(s: Switch)
      requires At(fallback, s) != []
      modifies this`fallback
      ensures fallback == old(fallback)[s := At(old(fallback), s)[1..]]
    {
      fallback := fallback[s := At(fallback, s)[1..]];
    }

    /** drain: a probe on demand.  What it returns counts every record that ever spilled, not those it drained. */
    method Drain() returns (n: nat)
      requires Valid()
      modifies this`primary, this`fallback, this`degraded, this`writesSinceProbe, this`calls
      ensures Valid()
      ensures old(degraded) ==> Probed(old(calls))
      ensures !old(degraded) ==> !degraded && calls == old(calls) && primary == old(primary) && fallback == old(fallback)
      ensures Moved(old(primary), old(fallback), primary, fallback)
      ensures !degraded ==> forall t :: At(primary, t) == At(old(primary), t) + At(old(fallback), t)
      ensures n == degradedWrites
    {
      if degraded { TryRecover(); }
      return degradedWrites;
    }

    /** Primary records then fallback records: without evictions the whole history, always an ordered part of it. */
    method LoadRecords(s: Switch) returns (records: seq<Entry>)
      requires Valid()
      ensures Subsequence(records, At(history, s))
      ensures |records| + evicted[s] == |At(history, s)|
      ensures degradedEvictions == 0 ==> records == At(history, s)
      ensures capacity.Unbounded? ==> records == At(history, s)
    {
      records := At(primary, s) + At(fallback, s);
      assert KeptFor(primary, fallback, history, evicted, s);
      if degradedEvictions == 0 { assert evicted == multiset{}; }
    }
  }
}
