/** The audit buffer: recording, batch flushes that may overlap, re-adding on failure, overflow. */
module AuditBuffer {
  import opened Plans

  // A recorded event object; the stamp is its identity and counts the calls to record.
  datatype Entry = Entry(stamp: nat, eventId: nat, body: string)

  // ---- the transition system -----------------------------------------------

  // `flights` are the batches taken by flushes that are still writing; `recorded` and
  // `dropped` are the history.
  datatype System = System(buffer: seq<Entry>, flights: seq<seq<Entry>>, persisted: seq<Entry>,
                           recorded: seq<Entry>, dropped: seq<Entry>)

  datatype Event = Record(eventId: nat, body: string) | Take | Written(flight: nat) | Failed(flight: nat)

  predicate Enabled(sys: System, e: Event) {
    match e
    case Record(_, _) => true
    case Take => sys.buffer != []
    case Written(k) => k < |sys.flights|
    case Failed(k) => k < |sys.flights|
  }

  function Without(flights: seq<seq<Entry>>, k: nat): seq<seq<Entry>>
    requires k < |flights|
  {
    flights[..k] + flights[k + 1..]
  }

  // How many events are dropped when the batch goes back into the buffer.
  function Overflow(maxBuffer: nat, sys: System, k: nat): nat
    requires k < |sys.flights|
  {
    var joined := sys.flights[k] + sys.buffer;
    if |joined| > maxBuffer then |joined| - maxBuffer else 0
  }

  function Next(maxBuffer: nat, sys: System, e: Event): System
    requires Enabled(sys, e)
  {
    match e
    case Record(id, body) =>
      var entry := Entry(|sys.recorded|, id, body);
      sys.(buffer := sys.buffer + [entry], recorded := sys.recorded + [entry])
    case Take => sys.(buffer := [], flights := sys.flights + [sys.buffer])
    case Written(k) => sys.(flights := Without(sys.flights, k), persisted := sys.persisted + sys.flights[k])
    case Failed(k) =>
      var joined := sys.flights[k] + sys.buffer;
      var overflow := Overflow(maxBuffer, sys, k);
      sys.(flights := Without(sys.flights, k), buffer := joined[overflow..], dropped := sys.dropped + joined[..overflow])
  }

  const INIT := System([], [], [], [], [])

  // The service. Each locked section is one event of the transition system above; the ghost
  // fields are the batches being written and the history.
  class AuditService {
    const maxBufferSize: nat
    const flushThreshold: nat
    var buffer: seq<Entry>
    var persisted: seq<Entry>
    var eventsRecorded: nat
    var bufferOverflows: nat
    ghost var flights: seq<seq<Entry>>
    ghost var recorded: seq<Entry>
    ghost var dropped: seq<Entry>

    constructor (maxBufferSize: nat, flushThreshold: nat)
      ensures this.maxBufferSize == maxBufferSize && this.flushThreshold == flushThreshold
      ensures Now() == INIT && eventsRecorded == 0 && bufferOverflows == 0
    {
      this.maxBufferSize, this.flushThreshold := maxBufferSize, flushThreshold;
      buffer, persisted, eventsRecorded, bufferOverflows := [], [], 0, 0;
      flights, recorded, dropped := [], [], [];
    }

    ghost function Now(): System
      reads this
    {
      System(buffer, flights, persisted, recorded, dropped)
    }

    // The locked section of record.
    method Append(eventId: nat, body: string)
      requires eventsRecorded == |recorded|
      modifies this`buffer, this`eventsRecorded, this`recorded
      ensures Now() == Next(maxBufferSize, old(Now()), Event.Record(eventId, body))
      ensures eventsRecorded == |recorded|
    {
      var event := Entry(eventsRecorded, eventId, body);
      buffer := buffer + [event];
      eventsRecorded := eventsRecorded + 1;
      recorded := recorded + [event];
    }

    // The locked section that opens a flush.
    method TakeBatch() returns (batch: seq<Entry>)
      requires buffer != []
      modifies this`buffer, this`flights
      ensures batch == old(buffer) && Now() == Next(maxBufferSize, old(Now()), Take)
    {
      batch := buffer;
      flights := flights + [batch];
      buffer := [];
    }

    // The batch write, all or nothing.
    method AppendEventsBatch(batch: seq<Entry>, ghost k: nat)
      requires k < |flights| && flights[k] == batch
      modifies this`persisted, this`flights
      ensures Now() == Next(maxBufferSize, old(Now()), Written(k))
    {
      persisted := persisted + batch;
      flights := Without(flights, k);
    }

    // The locked section after a failed write.
    method ReAdd(batch: seq<Entry>, ghost k: nat)
      requires k < |flights| && flights[k] == batch
      modifies this`buffer, this`bufferOverflows, this`flights, this`dropped
      ensures Now() == Next(maxBufferSize, old(Now()), Failed(k))
      ensures |buffer| <= maxBufferSize && (dropped != old(dropped) ==> |buffer| == maxBufferSize)
      ensures bufferOverflows == old(bufferOverflows) + (if dropped == old(dropped) then 0 else 1)
    {
      flights := Without(flights, k);
      buffer := batch + buffer;
      ghost var was := dropped;
      assert was + [] == was;
      if |buffer| > maxBufferSize {
        var overflow := |buffer| - maxBufferSize;
        dropped := dropped + buffer[..overflow];
        assert |dropped| > |was|;
        buffer := buffer[overflow..];
        bufferOverflows := bufferOverflows + 1;
      }
    }

    // A whole flush with nothing in between.
    method Flush(dbUp: bool)
      modifies this
      ensures dbUp ==> buffer == [] && dropped == old(dropped) && persisted == old(persisted + buffer)
      ensures !dbUp ==> persisted == old(persisted) && dropped + buffer == old(dropped + buffer) && |buffer| <= maxBufferSize
      ensures flights == old(flights) && recorded == old(recorded) && eventsRecorded == old(eventsRecorded)
    {
      if buffer == [] {
        return;
      }
      var batch := TakeBatch();
      if dbUp {
        AppendEventsBatch(batch, |flights| - 1);
      } else {
        ReAdd(batch, |flights| - 1);
      }
    }

    // record with nothing in between, including its automatic flush.
    method Record(eventId: nat, body: string, dbUp: bool)
      requires eventsRecorded == |recorded|
      modifies this
      ensures eventsRecorded == old(eventsRecorded) + 1 == |recorded|
      ensures var event := Entry(old(eventsRecorded), eventId, body);
              && recorded == old(recorded) + [event] && flights == old(flights)
              && (|old(buffer)| + 1 < flushThreshold ==>
                    buffer == old(buffer) + [event] && persisted == old(persisted) && dropped == old(dropped))
              && (|old(buffer)| + 1 >= flushThreshold && dbUp ==>
                    buffer == [] && persisted == old(persisted) + old(buffer) + [event] && dropped == old(dropped))
              && (|old(buffer)| + 1 >= flushThreshold && !dbUp ==>
                    dropped + buffer == old(dropped) + old(buffer) + [event] && persisted == old(persisted))
    {
      Append(eventId, body);
      if |buffer| >= flushThreshold {
        Flush(dbUp);
      }
    }
  }

  // The steps that respect the order of the batches: the oldest one is written, the newest one
  // goes back into the buffer, or the one that goes back overflows entirely.
  predicate KeepsOrder(maxBuffer: nat, sys: System, e: Event)
    requires Enabled(sys, e)
  {
    match e
    case Record(_, _) => true
    case Take => true
    case Written(k) => k == 0
    case Failed(k) => k == |sys.flights| - 1 || Overflow(maxBuffer, sys, k) >= |sys.flights[k]|
  }

  // `ordered` asks that every step respect the order of the batches.
  function Play(maxBuffer: nat, ordered: bool, events: seq<Event>): Option<System> {
    if events == [] then Some(INIT)
    else
      var n := |events| - 1;
      var before := Play(maxBuffer, ordered, events[..n]);
      if before.Some? && Enabled(before.value, events[n]) && (ordered ==> KeepsOrder(maxBuffer, before.value, events[n]))
      then Some(Next(maxBuffer, before.value, events[n])) else None
  }

  function Joined(flights: seq<seq<Entry>>): seq<Entry> {
    if flights == [] then [] else Joined(flights[..|flights| - 1]) + flights[|flights| - 1]
  }

  lemma {:induction false} JoinedWithout(flights: seq<seq<Entry>>, k: nat)
    requires k < |flights|
    ensures multiset(Joined(flights)) == multiset(Joined(Without(flights, k))) + multiset(flights[k])
  {
    var n := |flights| - 1;
    if k < n {
      JoinedWithout(flights[..n], k);
      var less := Without(flights, k);
      assert less[..|less| - 1] == Without(flights[..n], k);
      assert less[|less| - 1] == flights[n];
    } else {
      assert Without(flights, k) == flights[..n];
    }
  }

  // Nothing is lost and nothing is duplicated.
  ghost predicate Conserved(sys: System) {
    multiset(sys.recorded) ==
    multiset(sys.persisted) + multiset(Joined(sys.flights)) + multiset(sys.buffer) + multiset(sys.dropped)
  }

  lemma SplitMultiset(s: seq<Entry>, k: nat)
    requires k <= |s|
    ensures multiset(s) == multiset(s[..k]) + multiset(s[k..])
  {
    assert s == s[..k] + s[k..];
  }

  lemma ConservedNext(maxBuffer: nat, sys: System, e: Event)
    requires Conserved(sys) && Enabled(sys, e)
    ensures Conserved(Next(maxBuffer, sys, e))
  {
    match e
    case Record(_, _) =>
    case Take =>
      JoinedSnoc(sys.flights, sys.buffer);
    case Written(k) =>
      JoinedWithout(sys.flights, k);
    case Failed(k) =>
      ConservedFailed(maxBuffer, sys, k);
  }

  lemma Regroup(p: multiset<Entry>, j: multiset<Entry>, f: multiset<Entry>, b: multiset<Entry>, d: multiset<Entry>,
                gone: multiset<Entry>, rest: multiset<Entry>)
    requires f + b == gone + rest
    ensures p + (j + f) + b + d == p + j + rest + (d + gone)
  {
    assert p + (j + f) + b + d == p + j + (f + b) + d;
  }

  lemma ConservedFailed(maxBuffer: nat, sys: System, k: nat)
    requires Conserved(sys) && k < |sys.flights|
    ensures Conserved(Next(maxBuffer, sys, Failed(k)))
  {
    JoinedWithout(sys.flights, k);
    var joined := sys.flights[k] + sys.buffer;
    var overflow := Overflow(maxBuffer, sys, k);
    SplitMultiset(joined, overflow);
    Regroup(multiset(sys.persisted), multiset(Joined(Without(sys.flights, k))), multiset(sys.flights[k]),
            multiset(sys.buffer), multiset(sys.dropped), multiset(joined[..overflow]), multiset(joined[overflow..]));
  }

  lemma {:induction false} Conservation(maxBuffer: nat, ordered: bool, events: seq<Event>)
    requires Play(maxBuffer, ordered, events).Some?
    ensures Conserved(Play(maxBuffer, ordered, events).value)
  {
    if events != [] {
      var n := |events| - 1;
      Conservation(maxBuffer, ordered, events[..n]);
      ConservedNext(maxBuffer, Play(maxBuffer, ordered, events[..n]).value, events[n]);
    }
  }

  // ---- order -----------------------------------------------------------------

  function Stamps(s: seq<Entry>): set<nat> {
    set i | 0 <= i < |s| :: s[i].stamp
  }

  function Omit(s: seq<Entry>, out: set<nat>): seq<Entry> {
    if s == [] then []
    else Omit(s[..|s| - 1], out) + (if s[|s| - 1].stamp in out then [] else [s[|s| - 1]])
  }

  // What is stored, being written or waiting, in that order.
  function Kept(sys: System): seq<Entry> {
    sys.persisted + Joined(sys.flights) + sys.buffer
  }

  ghost predicate Stamped(recorded: seq<Entry>) {
    forall i :: 0 <= i < |recorded| ==> recorded[i].stamp == i
  }

  ghost predicate Rising(s: seq<Entry>) {
    forall i, j :: 0 <= i < j < |s| ==> s[i].stamp < s[j].stamp
  }

  // Kept events come in the recording order, with exactly the dropped ones left out.
  ghost predicate InOrder(sys: System) {
    && Stamped(sys.recorded) && Stamps(sys.dropped) <= Stamps(sys.recorded)
    && Kept(sys) == Omit(sys.recorded, Stamps(sys.dropped))
  }

  ghost predicate NoEmptyFlight(sys: System) {
    forall i :: 0 <= i < |sys.flights| ==> sys.flights[i] != []
  }

  lemma {:induction false} OmitRising(s: seq<Entry>, out: set<nat>)
    requires Rising(s)
    ensures Rising(Omit(s, out)) && Stamps(Omit(s, out)) == Stamps(s) - out
  {
    if s != [] {
      var n := |s| - 1;
      OmitRising(s[..n], out);
      StampsSnoc(s[..n], s[n]);
      assert s == s[..n] + [s[n]];
      var rest := Omit(s[..n], out);
      StampsSnoc(rest, s[n]);
      forall i | 0 <= i < |rest| ensures rest[i].stamp < s[n].stamp {
        assert rest[i].stamp in Stamps(rest);
        assert rest[i].stamp in Stamps(s[..n]);
      }
      assert s[n].stamp !in Stamps(s[..n]);
      assert rest + [] == rest;
    }
  }

  lemma StampsSnoc(s: seq<Entry>, e: Entry)
    ensures Stamps(s + [e]) == Stamps(s) + {e.stamp}
  {
    StampsConcat(s, [e]);
    assert Stamps([e]) == {e.stamp} by { assert [e][0].stamp in Stamps([e]); }
  }

  lemma StampsConcat(a: seq<Entry>, b: seq<Entry>)
    ensures Stamps(a + b) == Stamps(a) + Stamps(b)
  {
    forall x | x in Stamps(a) + Stamps(b) ensures x in Stamps(a + b) {
      if x in Stamps(a) {
        var i :| 0 <= i < |a| && a[i].stamp == x;
        assert (a + b)[i].stamp == x;
      } else {
        var i :| 0 <= i < |b| && b[i].stamp == x;
        assert (a + b)[|a| + i].stamp == x;
      }
    }
  }

  lemma {:induction false} OmitTwice(s: seq<Entry>, a: set<nat>, b: set<nat>)
    ensures Omit(Omit(s, a), b) == Omit(s, a + b)
  {
    if s != [] {
      var n := |s| - 1;
      OmitTwice(s[..n], a, b);
      var rest := Omit(s[..n], a);
      if s[n].stamp in a {
        assert rest + [] == rest;
      } else {
        assert (rest + [s[n]])[..|rest|] == rest;
      }
    }
  }

  lemma {:induction false} OmitConcat(s: seq<Entry>, t: seq<Entry>, out: set<nat>)
    ensures Omit(s + t, out) == Omit(s, out) + Omit(t, out)
  {
    if t == [] {
      assert s + t == s;
      assert Omit(s, out) + [] == Omit(s, out);
    } else {
      var n := |t| - 1;
      OmitConcat(s, t[..n], out);
      assert (s + t)[..|s + t| - 1] == s + t[..n];
    }
  }

  lemma {:induction false} OmitNone(s: seq<Entry>, out: set<nat>)
    requires Stamps(s) !! out
    ensures Omit(s, out) == s
  {
    if s != [] {
      var n := |s| - 1;
      assert s == s[..n] + [s[n]];
      StampsSnoc(s[..n], s[n]);
      OmitNone(s[..n], out);
    }
  }

  lemma {:induction false} OmitAll(s: seq<Entry>, out: set<nat>)
    requires Stamps(s) <= out
    ensures Omit(s, out) == []
  {
    if s != [] {
      var n := |s| - 1;
      assert s == s[..n] + [s[n]];
      StampsSnoc(s[..n], s[n]);
      OmitAll(s[..n], out);
    }
  }

  lemma RisingApart(a: seq<Entry>, b: seq<Entry>)
    requires Rising(a + b)
    ensures Stamps(a) !! Stamps(b) && Rising(a)
  {
    var s := a + b;
    forall i, j | 0 <= i < |a| && 0 <= j < |b| ensures a[i].stamp < b[j].stamp {
      assert s[i] == a[i] && s[|a| + j] == b[j];
    }
    forall i, j | 0 <= i < j < |a| ensures a[i].stamp < a[j].stamp {
      assert s[i] == a[i] && s[j] == a[j];
    }
  }

  // Dropping a middle stretch of a rising sequence is omitting its stamps.
  lemma OmitMiddle(a: seq<Entry>, mid: seq<Entry>, c: seq<Entry>)
    requires Rising(a + mid + c)
    ensures Omit(a + mid + c, Stamps(mid)) == a + c
  {
    var out := Stamps(mid);
    RisingApart(a + mid, c);
    RisingApart(a, mid);
    StampsConcat(a, mid);
    OmitConcat(a + mid, c, out);
    OmitConcat(a, mid, out);
    OmitNone(a, out);
    OmitAll(mid, out);
    OmitNone(c, out);
    assert a + [] == a;
  }

  lemma JoinedSnoc(flights: seq<seq<Entry>>, batch: seq<Entry>)
    ensures Joined(flights + [batch]) == Joined(flights) + batch
  {
    assert (flights + [batch])[..|flights|] == flights;
  }

  lemma FreshStamp(recorded: seq<Entry>, entry: Entry)
    requires Stamped(recorded) && entry.stamp == |recorded|
    ensures entry.stamp !in Stamps(recorded) && Stamped(recorded + [entry])
  {}

  lemma OmitSnoc(s: seq<Entry>, entry: Entry, out: set<nat>)
    requires entry.stamp !in out
    ensures Omit(s + [entry], out) == Omit(s, out) + [entry]
  {
    assert (s + [entry])[..|s|] == s;
  }

  lemma {:induction false} JoinedConcat(a: seq<seq<Entry>>, b: seq<seq<Entry>>)
    ensures Joined(a + b) == Joined(a) + Joined(b)
  {
    if b == [] {
      assert a + b == a;
    } else {
      var n := |b| - 1;
      JoinedConcat(a, b[..n]);
      assert (a + b)[..|a + b| - 1] == a + b[..n];
    }
  }

  // The kept events around flight `k`: what lies before it, the flight, what lies between it
  // and the buffer, and the buffer.
  function Ahead(sys: System, k: nat): seq<Entry>
    requires k < |sys.flights|
  {
    sys.persisted + Joined(sys.flights[..k])
  }

  function Between(sys: System, k: nat): seq<Entry>
    requires k < |sys.flights|
  {
    Joined(sys.flights[k + 1..])
  }

  lemma JoinedSplit(f: seq<seq<Entry>>, k: nat)
    requires k <= |f|
    ensures Joined(f) == Joined(f[..k]) + Joined(f[k..])
  {
    assert f == f[..k] + f[k..];
    JoinedConcat(f[..k], f[k..]);
  }

  lemma JoinedUpTo(f: seq<seq<Entry>>, k: nat)
    requires k < |f|
    ensures Joined(f[..k + 1]) == Joined(f[..k]) + f[k]
  {
    assert f[..k + 1] == f[..k] + [f[k]];
    JoinedSnoc(f[..k], f[k]);
  }

  lemma KeptAround(sys: System, k: nat)
    requires k < |sys.flights|
    ensures Kept(sys) == Ahead(sys, k) + sys.flights[k] + Between(sys, k) + sys.buffer
    ensures Joined(Without(sys.flights, k)) == Joined(sys.flights[..k]) + Between(sys, k)
  {
    var p, a, f, b := sys.persisted, Joined(sys.flights[..k]), sys.flights[k], Between(sys, k);
    JoinedSplit(sys.flights, k + 1);
    JoinedUpTo(sys.flights, k);
    assert p + (a + f + b) + sys.buffer == p + a + f + b + sys.buffer;
    JoinedConcat(sys.flights[..k], sys.flights[k + 1..]);
  }

  lemma JoinedOne(batch: seq<Entry>)
    ensures Joined([batch]) == batch
  {
    JoinedSnoc([], batch);
    assert [] + [batch] == [batch];
    assert [] + batch == batch;
  }

  lemma RecordInOrder(sys: System, entry: Entry)
    requires InOrder(sys) && entry.stamp == |sys.recorded|
    ensures InOrder(sys.(buffer := sys.buffer + [entry], recorded := sys.recorded + [entry]))
  {
    FreshStamp(sys.recorded, entry);
    StampsSnoc(sys.recorded, entry);
    OmitSnoc(sys.recorded, entry, Stamps(sys.dropped));
    var live, flying := sys.persisted, Joined(sys.flights);
    assert live + flying + (sys.buffer + [entry]) == live + flying + sys.buffer + [entry];
  }

  lemma TakeInOrder(sys: System)
    requires InOrder(sys)
    ensures InOrder(sys.(buffer := [], flights := sys.flights + [sys.buffer]))
  {
    JoinedSnoc(sys.flights, sys.buffer);
    var live, flying := sys.persisted, Joined(sys.flights);
    assert live + (flying + sys.buffer) + [] == live + flying + sys.buffer;
  }

  lemma KeptRises(sys: System)
    requires InOrder(sys)
    ensures Rising(Kept(sys))
  {
    OmitRising(sys.recorded, Stamps(sys.dropped));
  }

  // Two sequences that agree up to a point and differ there in their stamps.
  lemma DifferAt(common: seq<Entry>, a: seq<Entry>, b: seq<Entry>)
    requires a != [] && b != [] && a[0].stamp != b[0].stamp
    ensures common + a != common + b
  {
    assert (common + a)[|common|] == a[0] && (common + b)[|common|] == b[0];
  }

  lemma RisesAcross(a: seq<Entry>, b: seq<Entry>, c: seq<Entry>, d: seq<Entry>, e: seq<Entry>)
    requires Rising(a + b + c + d + e) && b != [] && d != []
    ensures b[0].stamp < d[0].stamp && b[0].stamp < d[|d| - 1].stamp
  {
    var s := a + b + c + d + e;
    var i, j := |a|, |a| + |b| + |c|;
    assert s[i] == b[0] && s[j] == d[0] && s[j + |d| - 1] == d[|d| - 1];
  }

  lemma WrittenInOrderIff(sys: System, k: nat)
    requires InOrder(sys) && NoEmptyFlight(sys) && k < |sys.flights|
    ensures InOrder(sys.(flights := Without(sys.flights, k), persisted := sys.persisted + sys.flights[k])) <==> k == 0
  {
    var after := sys.(flights := Without(sys.flights, k), persisted := sys.persisted + sys.flights[k]);
    var f, tail := sys.flights, Between(sys, k) + sys.buffer;
    KeptAround(sys, k);
    assert Kept(after) == sys.persisted + (f[k] + Joined(f[..k]) + tail) by {
      assert sys.persisted + f[k] + (Joined(f[..k]) + Between(sys, k)) + sys.buffer
          == sys.persisted + (f[k] + Joined(f[..k]) + tail);
    }
    assert Kept(sys) == sys.persisted + (Joined(f[..k]) + f[k] + tail) by {
      assert sys.persisted + Joined(f[..k]) + f[k] + Between(sys, k) + sys.buffer
          == sys.persisted + (Joined(f[..k]) + f[k] + tail);
    }
    if k == 0 {
      assert [] + f[k] == f[k] + [];
    } else {
      FirstFlight(f, k);
      KeptRises(sys);
      var rest := Joined(f[1..k]);
      assert Kept(sys) == sys.persisted + f[0] + rest + f[k] + tail by {
        assert Joined(f[..k]) == f[0] + rest;
      }
      RisesAcross(sys.persisted, f[0], rest, f[k], tail);
      DifferAt(sys.persisted, f[k] + Joined(f[..k]) + tail, Joined(f[..k]) + f[k] + tail);
    }
  }

  lemma FirstFlight(f: seq<seq<Entry>>, k: nat)
    requires 0 < k <= |f|
    ensures Joined(f[..k]) == f[0] + Joined(f[1..k])
  {
    assert f[..k] == [f[0]] + f[1..k];
    JoinedConcat([f[0]], f[1..k]);
    JoinedOne(f[0]);
  }

  lemma LastFlight(f: seq<seq<Entry>>, k: nat)
    requires k + 1 < |f|
    ensures Joined(f[k + 1..]) == Joined(f[k + 1..|f| - 1]) + f[|f| - 1]
  {
    var n := |f| - 1;
    assert f[k + 1..] == f[k + 1..n] + [f[n]];
    JoinedSnoc(f[k + 1..n], f[n]);
  }

  function Refilled(sys: System, k: nat, gone: seq<Entry>, rest: seq<Entry>): System
    requires k < |sys.flights|
  {
    System(rest, Without(sys.flights, k), sys.persisted, sys.recorded, sys.dropped + gone)
  }

  lemma RefilledKept(sys: System, k: nat, gone: seq<Entry>, rest: seq<Entry>)
    requires k < |sys.flights|
    ensures Kept(Refilled(sys, k, gone, rest)) == Ahead(sys, k) + Between(sys, k) + rest
  {
    KeptAround(sys, k);
    assert sys.persisted + (Joined(sys.flights[..k]) + Between(sys, k)) + rest == Ahead(sys, k) + Between(sys, k) + rest;
  }

  // The newest flight goes back: what overflows lies at its front.
  lemma NewestFailed(sys: System, k: nat, gone: seq<Entry>, rest: seq<Entry>)
    requires InOrder(sys) && k == |sys.flights| - 1 && gone + rest == sys.flights[k] + sys.buffer
    ensures InOrder(Refilled(sys, k, gone, rest))
  {
    KeptAround(sys, k);
    assert Between(sys, k) == [];
    assert Kept(sys) == Ahead(sys, k) + gone + rest by {
      assert Ahead(sys, k) + sys.flights[k] + [] + sys.buffer == Ahead(sys, k) + (gone + rest);
    }
    DropMiddle(sys.recorded, sys.dropped, Ahead(sys, k), gone, rest);
    RefilledKept(sys, k, gone, rest);
    assert Ahead(sys, k) + [] + rest == Ahead(sys, k) + rest;
  }

  // An older flight overflows entirely, with the front of the buffer.
  lemma AllOverflows(sys: System, k: nat, front: seq<Entry>, rest: seq<Entry>)
    requires InOrder(sys) && k < |sys.flights| && front + rest == sys.buffer
    ensures InOrder(Refilled(sys, k, sys.flights[k] + front, rest))
  {
    KeptAround(sys, k);
    var a, b, f := Ahead(sys, k), Between(sys, k), sys.flights[k];
    assert Kept(sys) == a + f + (b + front + rest) by {
      assert a + f + b + (front + rest) == a + f + (b + front + rest);
    }
    DropMiddle(sys.recorded, sys.dropped, a, f, b + front + rest);
    assert a + (b + front + rest) == a + b + front + rest;
    DropMiddle(sys.recorded, sys.dropped + f, a + b, front, rest);
    assert sys.dropped + f + front == sys.dropped + (f + front);
    RefilledKept(sys, k, f + front, rest);
  }

  lemma NotRising(a: seq<Entry>, last: seq<Entry>, kept: seq<Entry>, tail: seq<Entry>)
    requires kept != [] && last != [] && kept[0].stamp < last[|last| - 1].stamp
    ensures !Rising(a + last + kept + tail)
  {
    var s, i := a + last + kept + tail, |a| + |last|;
    assert s[i - 1] == last[|last| - 1] && s[i] == kept[0];
  }

  // Part of an older flight goes back behind a newer one.
  lemma OlderReturns(sys: System, k: nat, gone: seq<Entry>, kept: seq<Entry>)
    requires InOrder(sys) && NoEmptyFlight(sys) && k + 1 < |sys.flights|
    requires gone + kept == sys.flights[k] && kept != []
    ensures !InOrder(Refilled(sys, k, gone, kept + sys.buffer))
  {
    var n := |sys.flights| - 1;
    var after := Refilled(sys, k, gone, kept + sys.buffer);
    var a, mid, last := Ahead(sys, k), Joined(sys.flights[k + 1..n]), sys.flights[n];
    LastFlight(sys.flights, k);
    OlderAhead(sys, k, gone, kept, mid, last);
    RefilledKept(sys, k, gone, kept + sys.buffer);
    assert Kept(after) == (a + mid) + last + kept + sys.buffer by {
      assert a + (mid + last) + (kept + sys.buffer) == (a + mid) + last + kept + sys.buffer;
    }
    NotRising(a + mid, last, kept, sys.buffer);
    if InOrder(after) {
      KeptRises(after);
    }
  }

  lemma OlderAhead(sys: System, k: nat, gone: seq<Entry>, kept: seq<Entry>, mid: seq<Entry>, last: seq<Entry>)
    requires InOrder(sys) && k < |sys.flights| && gone + kept == sys.flights[k] && kept != []
    requires Between(sys, k) == mid + last && last != []
    ensures kept[0].stamp < last[|last| - 1].stamp
  {
    var a := Ahead(sys, k);
    KeptAround(sys, k);
    KeptRises(sys);
    assert Kept(sys) == (a + gone) + kept + mid + last + sys.buffer by {
      assert a + (gone + kept) + (mid + last) + sys.buffer == (a + gone) + kept + mid + last + sys.buffer;
    }
    RisesAcross(a + gone, kept, mid, last, sys.buffer);
  }

  lemma FailedInOrderIff(maxBuffer: nat, sys: System, k: nat)
    requires InOrder(sys) && NoEmptyFlight(sys) && k < |sys.flights|
    ensures InOrder(Next(maxBuffer, sys, Failed(k))) <==>
            k == |sys.flights| - 1 || Overflow(maxBuffer, sys, k) >= |sys.flights[k]|
  {
    var f, m := sys.flights[k], Overflow(maxBuffer, sys, k);
    var joined := f + sys.buffer;
    assert Next(maxBuffer, sys, Failed(k)) == Refilled(sys, k, joined[..m], joined[m..]);
    if k == |sys.flights| - 1 {
      assert joined[..m] + joined[m..] == joined;
      NewestFailed(sys, k, joined[..m], joined[m..]);
    } else if m >= |f| {
      var front, rest := sys.buffer[..m - |f|], sys.buffer[m - |f|..];
      assert joined[..m] == f + front && joined[m..] == rest;
      AllOverflows(sys, k, front, rest);
    } else {
      assert joined[..m] == f[..m] && joined[m..] == f[m..] + sys.buffer;
      OlderReturns(sys, k, f[..m], f[m..]);
    }
  }

  lemma DropMiddle(recorded: seq<Entry>, dropped: seq<Entry>, a: seq<Entry>, gone: seq<Entry>, rest: seq<Entry>)
    requires Stamped(recorded) && Stamps(dropped) <= Stamps(recorded)
    requires a + gone + rest == Omit(recorded, Stamps(dropped))
    ensures a + rest == Omit(recorded, Stamps(dropped + gone))
    ensures Stamps(dropped + gone) <= Stamps(recorded)
  {
    OmitRising(recorded, Stamps(dropped));
    OmitMiddle(a, gone, rest);
    OmitTwice(recorded, Stamps(dropped), Stamps(gone));
    StampsConcat(dropped, gone);
    StampsConcat(a + gone, rest);
    StampsConcat(a, gone);
  }

  // One step from an ordered state keeps the order exactly when it respects the order of the batches.
  lemma InOrderNextIff(maxBuffer: nat, sys: System, e: Event)
    requires InOrder(sys) && NoEmptyFlight(sys) && Enabled(sys, e)
    ensures InOrder(Next(maxBuffer, sys, e)) <==> KeepsOrder(maxBuffer, sys, e)
  {
    match e
    case Record(id, body) => RecordInOrder(sys, Entry(|sys.recorded|, id, body));
    case Take => TakeInOrder(sys);
    case Written(k) => WrittenInOrderIff(sys, k);
    case Failed(k) => FailedInOrderIff(maxBuffer, sys, k);
  }

  lemma {:induction false} FlightsNeverEmpty(maxBuffer: nat, events: seq<Event>)
    requires Play(maxBuffer, false, events).Some?
    ensures NoEmptyFlight(Play(maxBuffer, false, events).value)
  {
    if events != [] {
      FlightsNeverEmpty(maxBuffer, events[..|events| - 1]);
    }
  }

  lemma {:induction false} OrderedIsARun(maxBuffer: nat, events: seq<Event>)
    requires Play(maxBuffer, true, events).Some?
    ensures Play(maxBuffer, false, events) == Play(maxBuffer, true, events)
  {
    if events != [] {
      OrderedIsARun(maxBuffer, events[..|events| - 1]);
    }
  }

  // In a run whose steps respect the order of the batches, however many flushes overlap, what is
  // stored, in flight and waiting is the recording order with the dropped events left out.
  lemma {:induction false} OrderKept(maxBuffer: nat, events: seq<Event>)
    requires Play(maxBuffer, true, events).Some?
    ensures InOrder(Play(maxBuffer, true, events).value)
  {
    if events != [] {
      var n := |events| - 1;
      OrderKept(maxBuffer, events[..n]);
      OrderedIsARun(maxBuffer, events[..n]);
      FlightsNeverEmpty(maxBuffer, events[..n]);
      InOrderNextIff(maxBuffer, Play(maxBuffer, true, events[..n]).value, events[n]);
    }
  }

  // After the whole run and after every shorter one.
  ghost predicate InOrderThroughout(maxBuffer: nat, events: seq<Event>)
    requires Play(maxBuffer, false, events).Some?
  {
    InOrder(Play(maxBuffer, false, events).value)
    && (events == [] || InOrderThroughout(maxBuffer, events[..|events| - 1]))
  }

  // And only in such a run does the order hold all along.
  lemma {:induction false} OrderKeptIff(maxBuffer: nat, events: seq<Event>)
    requires Play(maxBuffer, false, events).Some?
    ensures InOrderThroughout(maxBuffer, events) <==> Play(maxBuffer, true, events).Some?
  {
    if events == [] {
      assert InOrder(INIT);
    } else {
      var n := |events| - 1;
      OrderKeptIff(maxBuffer, events[..n]);
      FlightsNeverEmpty(maxBuffer, events[..n]);
      if Play(maxBuffer, true, events[..n]).Some? {
        OrderedIsARun(maxBuffer, events[..n]);
        InOrderNextIff(maxBuffer, Play(maxBuffer, false, events[..n]).value, events[n]);
      }
    }
  }

  // Flushes that do not overlap are the simplest case.
  lemma SingleFlightKeepsOrder(maxBuffer: nat, sys: System, e: Event)
    requires Enabled(sys, e) && |sys.flights| <= 1
    ensures KeepsOrder(maxBuffer, sys, e)
  {}

  lemma PlaySnoc(maxBuffer: nat, events: seq<Event>, e: Event)
    requires Play(maxBuffer, false, events).Some? && Enabled(Play(maxBuffer, false, events).value, e)
    ensures Play(maxBuffer, false, events + [e]) == Some(Next(maxBuffer, Play(maxBuffer, false, events).value, e))
  {
    assert (events + [e])[..|events|] == events;
  }

  // Overlapping flushes can store a later event before an earlier one.
  lemma OverlapReorders() returns (events: seq<Event>)
    ensures Play(10, false, events).Some?
    ensures var sys := Play(10, false, events).value;
            sys.dropped == [] && |sys.persisted| == 2 && sys.persisted[0].stamp > sys.persisted[1].stamp
  {
    var steps := [Record(0, "a"), Take, Record(1, "b"), Take, Written(1), Written(0)];
    events := [];
    PlaySnoc(10, events, steps[0]);
    events := events + [steps[0]];
    PlaySnoc(10, events, steps[1]);
    events := events + [steps[1]];
    PlaySnoc(10, events, steps[2]);
    events := events + [steps[2]];
    PlaySnoc(10, events, steps[3]);
    events := events + [steps[3]];
    PlaySnoc(10, events, steps[4]);
    events := events + [steps[4]];
    PlaySnoc(10, events, steps[5]);
    events := events + [steps[5]];
  }
}
