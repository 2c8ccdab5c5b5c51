/**
 The per-instance logger cache (pkg/logger/logger.go): `GetLogger` as a method, and as a protocol
 of concurrent calls under a read-write lock, with a second lookup after the write lock.
 */
module LoggerCache {
  import opened Wrappers

  // ----- one call on its own -----

  class Logger {
    const instanceId: string

    constructor (instanceId: string)
      ensures this.instanceId == instanceId
    {
      this.instanceId := instanceId;
    }
  }

  class LoggerManager {
    var loggers: map<string, Logger>

    ghost predicate Valid()
      reads this
    {
      forall k :: k in loggers ==> loggers[k].instanceId == k
    }

    constructor ()
      ensures Valid() && loggers == map[]
    {
      loggers := map[];
    }

    /** What other calls may do while this one holds no lock: add loggers, and keep all that is there. */
    method Interleave()
      requires Valid()
      modifies this
      ensures Valid() && forall k :: k in old(loggers) ==> k in loggers && loggers[k] == old(loggers)[k]
    {
      var others :| others >= 0;
      for n := 0 to others
        invariant Valid() && forall k :: k in old(loggers) ==> k in loggers && loggers[k] == old(loggers)[k]
      {
        var id: string := *;
        if id !in loggers {
          var logger := new Logger(id);
          loggers := loggers[id := logger];
        }
      }
    }

    /** One call, between the others: it keeps what it relies on, and returns the stored logger. */
    method GetLogger(instanceId: string) returns (logger: Logger)
      requires Valid()
      modifies this
      ensures Valid() && forall k :: k in old(loggers) ==> k in loggers && loggers[k] == old(loggers)[k]
      ensures instanceId in loggers && logger == loggers[instanceId] && logger.instanceId == instanceId
      ensures instanceId in old(loggers) ==> loggers == old(loggers)
    {
      if instanceId in loggers {
        return loggers[instanceId];
      }
      Interleave();
      if instanceId in loggers {
        return loggers[instanceId];
      }
      logger := new Logger(instanceId);
      loggers := loggers[instanceId := logger];
    }
  }

  // ----- many calls at once -----

  /** Where one call of `GetLogger` stands. Loggers are numbered in the order they are made. */
  datatype Phase =
    | Start                          // before RLock
    | Reading                        // holds the read lock
    | Looked(found: Option<nat>)     // has looked, still holds the read lock
    | Wanting                        // found nothing; before Lock, or queueing in it for another writer
    | Announced                      // first in Lock: no new readers get in, and those inside are waited for
    | Locked                         // holds the write lock
    | Made(logger: nat)              // found nothing again and made a logger
    | Leaving(logger: nat)           // before the deferred Unlock
    | Returned(logger: nat)

  datatype Call = Call(instance: string, phase: Phase)

  /**
   The map, the instances that loggers were made for, in order, the calls that hold the read lock,
   the call that has announced itself as writer or is writing, and all calls.
   */
  datatype State = State(loggers: map<string, nat>, made: seq<string>, readers: set<nat>, writer: Option<nat>,
                         calls: map<nat, Call>)

  datatype Action = Arrive(c: nat, instance: string) | Advance(c: nat)

  const Init := State(map[], [], {}, None, map[])

  predicate Enabled(s: State, a: Action) {
    match a
    case Arrive(c, _) => c !in s.calls
    case Advance(c) =>
      && c in s.calls
      && match s.calls[c].phase
         case Start => s.writer == None
         case Wanting => s.writer == None
         case Announced => s.readers == {}
         case Returned(_) => false
         case _ => true
  }

  function Do(s: State, a: Action): State
    requires Enabled(s, a)
  {
    match a
    case Arrive(c, instance) => s.(calls := s.calls[c := Call(instance, Start)])
    case Advance(c) =>
      var id := s.calls[c].instance;
      match s.calls[c].phase
      case Start => To(s, c, Reading).(readers := s.readers + {c})
      case Reading => To(s, c, Looked(if id in s.loggers then Some(s.loggers[id]) else None))
      case Looked(None) => To(s, c, Wanting).(readers := s.readers - {c})
      case Looked(Some(l)) => To(s, c, Returned(l)).(readers := s.readers - {c})
      case Wanting => To(s, c, Announced).(writer := Some(c))
      case Announced => To(s, c, Locked)
      case Locked =>
        if id in s.loggers then To(s, c, Leaving(s.loggers[id]))
        else To(s, c, Made(|s.made|)).(made := s.made + [id])
      case Made(l) => To(s, c, Leaving(l)).(loggers := s.loggers[id := l])
      case Leaving(l) => To(s, c, Returned(l)).(writer := None)
  }

  function To(s: State, c: nat, phase: Phase): State
    requires c in s.calls
  {
    s.(calls := s.calls[c := s.calls[c].(phase := phase)])
  }

  ghost predicate Step(s: State, t: State) {
    exists a :: Enabled(s, a) && t == Do(s, a)
  }

  /** Any interleaving of any number of calls. */
  ghost predicate IsRun(run: seq<State>) {
    && run != []
    && run[0] == Init
    && forall i :: 0 <= i < |run| - 1 ==> Step(run[i], run[i + 1])
  }

  // ----- what every step keeps -----

  predicate HoldsRead(p: Phase) {
    p.Reading? || p.Looked?
  }

  predicate IsWriter(p: Phase) {
    p.Announced? || HoldsWrite(p)
  }

  predicate HoldsWrite(p: Phase) {
    p.Locked? || p.Made? || p.Leaving?
  }

  /** A call that knows its logger knows the stored one. */
  predicate KnowsStored(s: State, call: Call) {
    match call.phase
    case Looked(Some(l)) => call.instance in s.loggers && s.loggers[call.instance] == l
    case Leaving(l) => call.instance in s.loggers && s.loggers[call.instance] == l
    case Returned(l) => call.instance in s.loggers && s.loggers[call.instance] == l
    case Made(l) => call.instance !in s.loggers && l == |s.made| - 1 && s.made[l] == call.instance
    case _ => true
  }

  /** How many of the loggers made have been stored: all, or all but one that is about to be. */
  function Stored(s: State): int {
    if s.writer.Some? && s.writer.value in s.calls && s.calls[s.writer.value].phase.Made?
    then |s.made| - 1
    else |s.made|
  }

  ghost predicate LocksHeld(s: State) {
    && (forall c :: c in s.readers <==> c in s.calls && HoldsRead(s.calls[c].phase))
    && (forall c :: s.writer == Some(c) <==> c in s.calls && IsWriter(s.calls[c].phase))
    && (forall c :: c in s.calls && HoldsWrite(s.calls[c].phase) ==> s.readers == {})
  }

  ghost predicate AllKnowStored(s: State) {
    forall c :: c in s.calls ==> KnowsStored(s, s.calls[c])
  }

  /** The map and the record of what was made say the same, but for a logger about to be stored. */
  ghost predicate Recorded(s: State) {
    && (forall k :: k in s.loggers ==> s.loggers[k] < Stored(s) && s.made[s.loggers[k]] == k)
    && (forall i :: 0 <= i < Stored(s) ==> s.made[i] in s.loggers && s.loggers[s.made[i]] == i)
  }

  ghost predicate Inv(s: State) {
    LocksHeld(s) && AllKnowStored(s) && Recorded(s)
  }

  lemma StepKeepsReaders(s: State, a: Action)
    requires LocksHeld(s) && Enabled(s, a)
    ensures var t := Do(s, a); forall c :: c in t.readers <==> c in t.calls && HoldsRead(t.calls[c].phase)
  {
  }

  lemma StepKeepsWriter(s: State, a: Action)
    requires LocksHeld(s) && Enabled(s, a)
    ensures var t := Do(s, a); forall c :: t.writer == Some(c) <==> c in t.calls && IsWriter(t.calls[c].phase)
  {
  }

  lemma StepKeepsExclusion(s: State, a: Action)
    requires LocksHeld(s) && Enabled(s, a)
    ensures var t := Do(s, a); forall c :: c in t.calls && HoldsWrite(t.calls[c].phase) ==> t.readers == {}
  {
  }

  lemma {:induction false} StepKeepsLocks(s: State, a: Action)
    requires LocksHeld(s) && Enabled(s, a)
    ensures LocksHeld(Do(s, a))
  {
    StepKeepsReaders(s, a);
    StepKeepsWriter(s, a);
    StepKeepsExclusion(s, a);
  }

  lemma StepKeepsStored(s: State, a: Action)
    requires AllKnowStored(s) && Enabled(s, a)
    ensures forall k :: k in s.loggers ==> k in Do(s, a).loggers && Do(s, a).loggers[k] == s.loggers[k]
  {
  }

  lemma StepKeepsKnowledge(s: State, a: Action)
    requires LocksHeld(s) && AllKnowStored(s) && Enabled(s, a)
    ensures AllKnowStored(Do(s, a))
  {
  }

  /** Making a logger does not count as storing it; the next step of that call does. */
  lemma StoredAfter(s: State, a: Action)
    requires LocksHeld(s) && Enabled(s, a)
    ensures Stored(Do(s, a)) == Stored(s) + if a.Advance? && s.calls[a.c].phase.Made? then 1 else 0
  {
  }

  lemma {:induction false} StoringIsRecorded(s: State, c: nat)
    requires Inv(s) && Enabled(s, Advance(c)) && s.calls[c].phase.Made?
    ensures Recorded(Do(s, Advance(c)))
  {
    StoredAfter(s, Advance(c));
    assert KnowsStored(s, s.calls[c]);
    assert s.writer == Some(c);
  }

  lemma {:induction false} StepKeepsRecord(s: State, a: Action)
    requires Inv(s) && Enabled(s, a)
    ensures Recorded(Do(s, a))
  {
    if a.Advance? && s.calls[a.c].phase.Made? {
      StoringIsRecorded(s, a.c);
    } else {
      StoredAfter(s, a);
      assert Do(s, a).loggers == s.loggers && s.made <= Do(s, a).made;
    }
  }

  lemma {:induction false} StepKeepsInv(s: State, a: Action)
    requires Inv(s) && Enabled(s, a)
    ensures Inv(Do(s, a))
  {
    StepKeepsLocks(s, a);
    StepKeepsKnowledge(s, a);
    StepKeepsRecord(s, a);
  }

  lemma {:induction false} RunKeepsInv(run: seq<State>, i: nat)
    requires IsRun(run) && i < |run|
    ensures Inv(run[i])
  {
    if i > 0 {
      RunKeepsInv(run, i - 1);
      assert Step(run[i - 1], run[i - 1 + 1]);
      var a :| Enabled(run[i - 1], a) && run[i] == Do(run[i - 1], a);
      StepKeepsInv(run[i - 1], a);
    }
  }

  /** A stored logger stays, and is never replaced. */
  lemma {:induction false} StoredForever(run: seq<State>, i: nat, j: nat, k: string)
    requires IsRun(run) && i <= j < |run| && k in run[i].loggers
    ensures k in run[j].loggers && run[j].loggers[k] == run[i].loggers[k]
    decreases j
  {
    if i < j {
      StoredForever(run, i, j - 1, k);
      RunKeepsInv(run, j - 1);
      assert Step(run[j - 1], run[j - 1 + 1]);
      var a :| Enabled(run[j - 1], a) && run[j] == Do(run[j - 1], a);
      StepKeepsStored(run[j - 1], a);
    }
  }

  /**
   Under every interleaving, two calls of `GetLogger`, wherever in the run they have returned, got
   the same logger exactly when they asked for the same instance, and that logger is the stored one.
   */
  lemma {:induction false} SameInstanceSameLogger(run: seq<State>, i: nat, c: nat, j: nat, d: nat)
    requires IsRun(run) && i <= j < |run|
    requires c in run[i].calls && run[i].calls[c].phase.Returned?
    requires d in run[j].calls && run[j].calls[d].phase.Returned?
    ensures run[i].calls[c].instance == run[j].calls[d].instance
      <==> run[i].calls[c].phase.logger == run[j].calls[d].phase.logger
    ensures var k := run[j].calls[d].instance; k in run[j].loggers && run[j].loggers[k] == run[j].calls[d].phase.logger
  {
    RunKeepsInv(run, i);
    RunKeepsInv(run, j);
    assert KnowsStored(run[i], run[i].calls[c]);
    assert KnowsStored(run[j], run[j].calls[d]);
    StoredForever(run, i, j, run[i].calls[c].instance);
  }

  /** In every reachable state no two loggers have been made for one instance, and none was lost. */
  lemma {:induction false} OneLoggerPerInstance(run: seq<State>, i: nat, m: nat, n: nat)
    requires IsRun(run) && i < |run| && m < n < |run[i].made|
    ensures run[i].made[m] != run[i].made[n]
    ensures run[i].made[m] in run[i].loggers && run[i].loggers[run[i].made[m]] == m
  {
    RunKeepsInv(run, i);
    var s := run[i];
    if n >= Stored(s) {
      assert KnowsStored(s, s.calls[s.writer.value]);
    }
  }

  /** A stored logger is found under the read lock alone: nothing is made, and the writer is not needed. */
  lemma {:induction false} FastPath(s: State, c: nat)
    requires c in s.calls && s.calls[c].phase == Reading && s.calls[c].instance in s.loggers
    ensures Enabled(s, Advance(c)) && Enabled(Do(s, Advance(c)), Advance(c))
    ensures var t := Do(Do(s, Advance(c)), Advance(c));
      && t.calls == s.calls[c := Call(s.calls[c].instance, Returned(s.loggers[s.calls[c].instance]))]
      && t.loggers == s.loggers && t.made == s.made && t.writer == s.writer && t.readers == s.readers - {c}
  {
    var t := Do(s, Advance(c));
    assert t.calls[c].phase == Looked(Some(s.loggers[s.calls[c].instance]));
  }

  /**
   Go's rule for a writer that waits: it keeps new readers out, those inside go on, and it gets the
   lock exactly when they all have left.
   */
  lemma {:induction false} WriterWaits(run: seq<State>, i: nat, w: nat)
    requires IsRun(run) && i < |run|
    requires w in run[i].calls && run[i].calls[w].phase == Announced
    ensures var calls := run[i].calls;
      && (forall c :: c in calls && calls[c].phase == Start ==> !Enabled(run[i], Advance(c)))
      && (forall c :: c in calls && (calls[c].phase == Reading || calls[c].phase.Looked?) ==>
            Enabled(run[i], Advance(c)))
      && (Enabled(run[i], Advance(w))
          <==> forall c :: c in calls ==> calls[c].phase != Reading && !calls[c].phase.Looked?)
      && (forall c :: c in calls && c != w ==>
            !calls[c].phase.Announced? && !calls[c].phase.Locked? && !calls[c].phase.Made? && !calls[c].phase.Leaving?)
  {
    RunKeepsInv(run, i);
    var s := run[i];
    if s.readers != {} {
      var c :| c in s.readers;
      assert HoldsRead(s.calls[c].phase);
    }
  }

  /** The locks cannot block everyone: while some call has not returned, some call can go on. */
  lemma {:induction false} NoDeadlock(run: seq<State>, i: nat, c: nat)
    requires IsRun(run) && i < |run|
    requires c in run[i].calls && !run[i].calls[c].phase.Returned?
    ensures exists d :: Enabled(run[i], Advance(d))
  {
    RunKeepsInv(run, i);
    var s := run[i];
    if s.readers != {} {
      var d :| d in s.readers;
      assert Enabled(s, Advance(d));
    } else if s.writer.Some? {
      assert Enabled(s, Advance(s.writer.value));
    } else {
      assert Enabled(s, Advance(c));
    }
  }
}
