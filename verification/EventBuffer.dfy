/** The bounded event buffer (internal/events/buffer.go): what each call does, and whole runs. */
module EventBuffer {
  import opened Wrappers
  import opened JsonValue

  datatype Event = Event(kind: string, at: int, raw: string)

  // ----- event types -----

  const TYPE_KEYS: seq<string> := ["type", "event", "Event", "eventType"]

  predicate NamesType(probe: map<string, Json>, key: string) {
    key in probe && probe[key].Str? && probe[key].s != ""
  }

  /** `kind` is what the first key that names a type says, and "" if none does. */
  ghost predicate IsTypeOf(probe: Option<map<string, Json>>, kind: string) {
    match probe
    case None => kind == ""
    case Some(m) =>
      if kind == "" then forall k :: k in TYPE_KEYS ==> !NamesType(m, k)
      else exists i :: 0 <= i < |TYPE_KEYS| && NamesType(m, TYPE_KEYS[i]) && kind == m[TYPE_KEYS[i]].s
                       && forall j :: 0 <= j < i ==> !NamesType(m, TYPE_KEYS[j])
  }

  /** `probe` is the payload decoded as an object, or `None` if it is not one. */
  method ExtractType(probe: Option<map<string, Json>>) returns (kind: string)
    ensures IsTypeOf(probe, kind)
  {
    if probe == None {
      return "";
    }
    for i := 0 to |TYPE_KEYS|
      invariant forall j :: 0 <= j < i ==> !NamesType(probe.value, TYPE_KEYS[j])
    {
      var k := TYPE_KEYS[i];
      if k in probe.value {
        var v := probe.value[k];
        if v.Str? && v.s != "" {
          return v.s;
        }
      }
    }
    return "";
  }

  /** The keys and their order: a non-empty "type" wins, then "event", then "Event", then "eventType". */
  lemma {:induction false} TypeMeaning(probe: Option<map<string, Json>>, kind: string)
    requires IsTypeOf(probe, kind)
    ensures probe == None ==> kind == ""
    ensures probe.Some? ==>
      var m := probe.value;
      var names := (k: string) => k in m && m[k].Str? && m[k].s != "";
      kind ==
        if names("type") then m["type"].s
        else if names("event") then m["event"].s
        else if names("Event") then m["Event"].s
        else if names("eventType") then m["eventType"].s
        else ""
  {
    if probe.Some? {
      var m, keys := probe.value, TYPE_KEYS;
      assert keys[0] == "type" && keys[1] == "event" && keys[2] == "Event" && keys[3] == "eventType";
      if kind == "" {
        assert keys[0] in keys && keys[1] in keys && keys[2] in keys && keys[3] in keys;
      } else {
        var i :| 0 <= i < |keys| && NamesType(m, keys[i]) && kind == m[keys[i]].s
                 && forall j :: 0 <= j < i ==> !NamesType(m, keys[j]);
        assert i == 0 || i == 1 || i == 2 || i == 3;
      }
    }
  }

  // ----- polling, on entries: events stamped with the number of their push -----

  datatype Entry = Entry(id: nat, event: Event)

  function Events(entries: seq<Entry>): (r: seq<Event>)
    ensures |r| == |entries|
  {
    seq(|entries|, i requires 0 <= i < |entries| => entries[i].event)
  }

  predicate Matches(filter: string, kind: string) {
    filter == "" || kind == filter
  }

  /** The first `n` matching entries. */
  function Taken(q: seq<Entry>, filter: string, n: nat): seq<Entry> {
    if q == [] then []
    else if Matches(filter, q[0].event.kind) && n > 0 then [q[0]] + Taken(q[1..], filter, n - 1)
    else Taken(q[1..], filter, n)
  }

  /** All the others. */
  function Left(q: seq<Entry>, filter: string, n: nat): seq<Entry> {
    if q == [] then []
    else if Matches(filter, q[0].event.kind) && n > 0 then Left(q[1..], filter, n - 1)
    else [q[0]] + Left(q[1..], filter, n)
  }

  /** How many a poll may take: a limit of 0 or less means no limit. */
  function Allowance(q: seq<Entry>, limit: int): nat {
    if limit <= 0 then |q| else limit
  }

  function PollOut(q: seq<Entry>, filter: string, limit: int): seq<Entry> {
    Taken(q, filter, Allowance(q, limit))
  }

  function PollRest(q: seq<Entry>, filter: string, limit: int): seq<Entry> {
    Left(q, filter, Allowance(q, limit))
  }

  // ----- the ledger: the buffer together with where every pushed event went -----

  datatype Ledger = Ledger(cap: nat, log: seq<Event>, queue: seq<Entry>,
                           delivered: seq<Entry>, evicted: seq<Entry>, cleared: seq<Entry>)

  function Fresh(capacity: int): Ledger {
    Ledger(if capacity < 1 then 1 else capacity, [], [], [], [], [])
  }

  function Overflow(l: Ledger): (n: nat)
    requires l.cap >= 1
    ensures n <= |l.queue|
  {
    if |l.queue| >= l.cap then |l.queue| - l.cap + 1 else 0
  }

  function Pushed(l: Ledger, e: Event): Ledger
    requires l.cap >= 1
  {
    l.(log := l.log + [e],
       queue := l.queue[Overflow(l)..] + [Entry(|l.log|, e)],
       evicted := l.evicted + l.queue[..Overflow(l)])
  }

  function Polled(l: Ledger, filter: string, limit: int): Ledger {
    l.(queue := PollRest(l.queue, filter, limit), delivered := l.delivered + PollOut(l.queue, filter, limit))
  }

  function Cleared(l: Ledger): Ledger {
    l.(queue := [], cleared := l.cleared + l.queue)
  }

  /** The loop of `Poll`, on the events of the queue `es`. */
  method Sift(q: seq<Event>, filter: string, limit: int, ghost es: seq<Entry>)
      returns (out: seq<Event>, rest: seq<Event>)
    requires q == Events(es)
    ensures out == Events(PollOut(es, filter, limit))
    ensures rest == Events(PollRest(es, filter, limit))
  {
    ghost var n := Allowance(es, limit);
    out, rest := [], [];
    PollStart(es, filter, n);
    for i := 0 to |q|
      invariant |out| <= i
      invariant PollDone(es, filter, n, i, out, rest)
    {
      var e := q[i];
      PollStep(es, filter, n, i, out, rest);
      var take := filter == "" || e.kind == filter;
      if take && (limit <= 0 || |out| < limit) {
        out := out + [e];
      } else {
        rest := rest + [e];
      }
    }
    PollEnd(es, filter, n, out, rest);
  }

  /** JSON decoding of a payload: its object, or `None` if it is not one. */
  type Decoder = string -> Option<map<string, Json>>

  ghost predicate TypeFits(decode: Decoder, e: Event) {
    IsTypeOf(decode(e.raw), e.kind)
  }

  /** Every event carries the type that its own payload names. */
  ghost predicate TypesFit(decode: Decoder, log: seq<Event>) {
    forall i :: 0 <= i < |log| ==> TypeFits(decode, log[i])
  }

  /** The ledger `l` accounts for a buffer that holds `q`. */
  ghost predicate Explains(l: Ledger, q: seq<Event>, decode: Decoder) {
    Consistent(l) && q == Events(l.queue) && TypesFit(decode, l.log)
  }

  lemma {:induction false} PushExplained(l: Ledger, q: seq<Event>, decode: Decoder, e: Event)
    requires Explains(l, q, decode) && TypeFits(decode, e)
    ensures |q| <= l.cap
    ensures Explains(Pushed(l, e), (if |q| >= l.cap then q[1..] else q) + [e], decode)
  {
    PushKeeps(l, e);
    EventsAfterPush(l, e);
  }

  lemma {:induction false} PollExplained(l: Ledger, q: seq<Event>, decode: Decoder, filter: string, limit: int)
    requires Explains(l, q, decode)
    ensures Explains(Polled(l, filter, limit), Events(PollRest(l.queue, filter, limit)), decode)
  {
    PollKeeps(l, filter, limit);
  }

  class Buffer {
    const decode: Decoder
    const cap: int
    var q: seq<Event>
    ghost var ledger: Ledger

    ghost predicate Valid()
      reads this
    {
      ledger.cap == cap && Explains(ledger, q, decode)
    }

    constructor New(capacity: int, decode: Decoder)
      ensures Valid() && ledger == Fresh(capacity) && this.decode == decode
    {
      this.decode := decode;
      cap := if capacity < 1 then 1 else capacity;
      q := [];
      ledger := Fresh(capacity);
    }

    method Push(raw: string, at: int)
      requires Valid()
      modifies this
      ensures Valid()
      ensures |q| > 0 && q[|q| - 1].raw == raw && q[|q| - 1].at == at && TypeFits(decode, q[|q| - 1])
      ensures ledger == Pushed(old(ledger), q[|q| - 1])
      ensures q[..|q| - 1] == if |old(q)| == cap then old(q)[1..] else old(q)
    {
      var kind := ExtractType(decode(raw));
      var e := Event(kind, at, raw);
      PushExplained(ledger, q, decode, e);
      if |q| >= cap {
        q := q[|q| - cap + 1..];
      }
      q := q + [e];
      ledger := Pushed(ledger, e);
    }

    method Poll(filter: string, limit: int) returns (out: seq<Event>)
      requires Valid()
      modifies this
      ensures Valid()
      ensures ledger == Polled(old(ledger), filter, limit)
      ensures out == Events(PollOut(old(ledger).queue, filter, limit))
    {
      PollExplained(ledger, q, decode, filter, limit);
      var rest;
      out, rest := Sift(q, filter, limit, ledger.queue);
      q := rest;
      ledger := Polled(ledger, filter, limit);
    }

    method Clear() returns (n: int)
      requires Valid()
      modifies this
      ensures Valid()
      ensures ledger == Cleared(old(ledger)) && q == [] && n == |old(q)|
    {
      n := |q|;
      ClearKeeps(ledger);
      q := [];
      ledger := Cleared(ledger);
    }

    method Len() returns (n: int)
      requires Valid()
      ensures n == |q| <= cap
    {
      n := |q|;
    }
  }

  // ----- what every call keeps -----

  ghost predicate Sorted(s: seq<Entry>) {
    forall i, j :: 0 <= i < j < |s| ==> s[i].id < s[j].id
  }

  /** Everything ever pushed, stamped. */
  function Everything(log: seq<Event>): seq<Entry> {
    seq(|log|, i requires 0 <= i < |log| => Entry(i, log[i]))
  }

  ghost predicate Within(s: seq<Entry>, log: seq<Event>) {
    forall i :: 0 <= i < |s| ==> s[i].id < |log| && s[i].event == log[s[i].id]
  }

  ghost predicate Buffered(q: seq<Entry>, log: seq<Event>, i: nat)
    requires i < |log|
  {
    Entry(i, log[i]) in q
  }

  /** What is still buffered of one type is the newest of what was pushed of that type. */
  ghost predicate BuffersNewest(q: seq<Entry>, log: seq<Event>) {
    forall i, j | 0 <= i < j < |log| && log[i].kind == log[j].kind && Buffered(q, log, i) :: Buffered(q, log, j)
  }

  /** Events of one type are delivered in the order they were pushed. */
  ghost predicate DeliversInOrder(delivered: seq<Entry>) {
    forall i, j | 0 <= i < j < |delivered| && delivered[i].event.kind == delivered[j].event.kind ::
      delivered[i].id < delivered[j].id
  }

  /** Evictions take the oldest first, and only what is older than all that is buffered. */
  ghost predicate EvictsOldest(evicted: seq<Entry>, q: seq<Entry>) {
    && Sorted(evicted)
    && forall i, j :: 0 <= i < |evicted| && 0 <= j < |q| ==> evicted[i].id < q[j].id
  }

  ghost function Accounted(l: Ledger): multiset<Entry> {
    multiset(l.queue) + multiset(l.delivered) + multiset(l.evicted) + multiset(l.cleared)
  }

  ghost predicate Consistent(l: Ledger) {
    && l.cap >= 1
    && |l.queue| <= l.cap
    && Sorted(l.queue)
    && Within(l.queue, l.log)
    && Within(l.delivered, l.log)
    && Accounted(l) == multiset(Everything(l.log))
    && BuffersNewest(l.queue, l.log)
    && DeliversInOrder(l.delivered)
    && Within(l.evicted, l.log)
    && EvictsOldest(l.evicted, l.queue)
  }

  lemma {:induction false} EverythingOnce(log: seq<Event>, x: Entry)
    ensures multiset(Everything(log))[x] == if x.id < |log| && x.event == log[x.id] then 1 else 0
  {
    if log != [] {
      var n := |log| - 1;
      EverythingOnce(log[..n], x);
      assert Everything(log) == Everything(log[..n]) + [Entry(n, log[n])];
    }
  }

  lemma EventsAfterPush(l: Ledger, e: Event)
    requires l.cap >= 1
    ensures Events(Pushed(l, e).queue) == Events(l.queue)[Overflow(l)..] + [e]
  {
  }

  lemma {:induction false} PushAccounts(l: Ledger, e: Event)
    requires l.cap >= 1 && Accounted(l) == multiset(Everything(l.log))
    ensures Accounted(Pushed(l, e)) == multiset(Everything(Pushed(l, e).log))
  {
    var k := Overflow(l);
    var x := Entry(|l.log|, e);
    assert l.queue == l.queue[..k] + l.queue[k..];
    assert Everything(l.log + [e]) == Everything(l.log) + [x];
    assert Accounted(Pushed(l, e)) == Accounted(l) + multiset{x};
  }

  lemma PushBuffersNewest(q: seq<Entry>, log: seq<Event>, k: nat, e: Event)
    requires k <= |q| && Sorted(q) && Within(q, log) && BuffersNewest(q, log)
    ensures BuffersNewest(q[k..] + [Entry(|log|, e)], log + [e])
  {
  }

  lemma PushEvictsOldest(evicted: seq<Entry>, q: seq<Entry>, k: nat, x: Entry)
    requires k <= |q| && Sorted(q) && EvictsOldest(evicted, q)
    requires forall i :: 0 <= i < |q| ==> q[i].id < x.id
    requires forall i :: 0 <= i < |evicted| ==> evicted[i].id < x.id
    ensures Sorted(q[k..] + [x])
    ensures EvictsOldest(evicted + q[..k], q[k..] + [x])
  {
  }

  lemma WithinLonger(s: seq<Entry>, log: seq<Event>, e: Event)
    requires Within(s, log)
    ensures Within(s, log + [e]) && Within(s + [Entry(|log|, e)], log + [e])
  {
  }

  lemma {:induction false} PushKeeps(l: Ledger, e: Event)
    requires Consistent(l)
    ensures Consistent(Pushed(l, e))
  {
    var k := Overflow(l);
    PushAccounts(l, e);
    PushBuffersNewest(l.queue, l.log, k, e);
    PushEvictsOldest(l.evicted, l.queue, k, Entry(|l.log|, e));
    WithinLonger(l.queue[k..], l.log, e);
    WithinLonger(l.delivered, l.log, e);
    WithinLonger(l.evicted + l.queue[..k], l.log, e);
  }

  /** A push evicts the oldest event if the buffer is full, and otherwise nothing. */
  lemma {:induction false} PushEvictsIffFull(l: Ledger, e: Event)
    requires Consistent(l)
    ensures Pushed(l, e).evicted == l.evicted + (if |l.queue| == l.cap then [l.queue[0]] else [])
    ensures Pushed(l, e).queue == (if |l.queue| == l.cap then l.queue[1..] else l.queue) + [Entry(|l.log|, e)]
  {
    assert l.queue[..Overflow(l)] == if |l.queue| == l.cap then [l.queue[0]] else [];
  }

  /** A poll splits the queue in two. */
  lemma {:induction false} TakenAndLeft(q: seq<Entry>, filter: string, n: nat)
    ensures multiset(Taken(q, filter, n)) + multiset(Left(q, filter, n)) == multiset(q)
  {
    if q != [] {
      assert q == [q[0]] + q[1..];
      TakenAndLeft(q[1..], filter, if Matches(filter, q[0].event.kind) && n > 0 then n - 1 else n);
    }
  }

  lemma {:induction false} PollPicks(q: seq<Entry>, filter: string, n: nat)
    ensures forall i :: 0 <= i < |Taken(q, filter, n)| ==> Taken(q, filter, n)[i] in q
    ensures forall i :: 0 <= i < |Left(q, filter, n)| ==> Left(q, filter, n)[i] in q
    ensures |Left(q, filter, n)| <= |q|
  {
    if q != [] {
      PollPicks(q[1..], filter, if Matches(filter, q[0].event.kind) && n > 0 then n - 1 else n);
    }
  }

  lemma SortedTail(q: seq<Entry>)
    requires Sorted(q) && q != []
    ensures Sorted(q[1..]) && forall x :: x in q[1..] ==> q[0].id < x.id
  {
  }

  lemma SortedCons(h: Entry, s: seq<Entry>)
    requires Sorted(s) && forall i :: 0 <= i < |s| ==> h.id < s[i].id
    ensures Sorted([h] + s)
  {
  }

  /** Both halves keep the order of the queue. */
  lemma {:induction false} PollKeepsOrder(q: seq<Entry>, filter: string, n: nat)
    requires Sorted(q)
    ensures Sorted(Taken(q, filter, n)) && Sorted(Left(q, filter, n))
  {
    if q != [] {
      var t := q[1..];
      var n' := if Matches(filter, q[0].event.kind) && n > 0 then n - 1 else n;
      SortedTail(q);
      PollKeepsOrder(t, filter, n');
      PollPicks(t, filter, n');
      SortedCons(q[0], Taken(t, filter, n'));
      SortedCons(q[0], Left(t, filter, n'));
    }
  }

  /** What a poll may not take it leaves. */
  lemma {:induction false} Unmatched(q: seq<Entry>, filter: string, n: nat, y: Entry)
    requires y in q && (n == 0 || !Matches(filter, y.event.kind))
    ensures y in Left(q, filter, n)
  {
    if y != q[0] {
      Unmatched(q[1..], filter, if Matches(filter, q[0].event.kind) && n > 0 then n - 1 else n, y);
    }
  }

  /** What a poll leaves of one type is the newest of that type. */
  lemma {:induction false} PollLeavesNewest(q: seq<Entry>, filter: string, n: nat, x: Entry, y: Entry)
    requires Sorted(q) && x in Left(q, filter, n) && y in q
    requires x.id < y.id && x.event.kind == y.event.kind
    ensures y in Left(q, filter, n)
  {
    var h, t := q[0], q[1..];
    SortedTail(q);
    if !Matches(filter, y.event.kind) || n == 0 {
      Unmatched(q, filter, n, y);
    } else {
      var n' := if Matches(filter, h.event.kind) then n - 1 else n;
      PollPicks(t, filter, n');
      assert x in Left(t, filter, n');
      assert y in t;
      PollLeavesNewest(t, filter, n', x, y);
    }
  }

  lemma {:induction false} PollBuffersNewest(q: seq<Entry>, log: seq<Event>, filter: string, n: nat)
    requires Sorted(q) && BuffersNewest(q, log)
    ensures BuffersNewest(Left(q, filter, n), log)
  {
    var q' := Left(q, filter, n);
    forall i, j | 0 <= i < j < |log| && log[i].kind == log[j].kind && Buffered(q', log, i)
      ensures Buffered(q', log, j)
    {
      PollPicks(q, filter, n);
      assert Buffered(q, log, i);
      assert Buffered(q, log, j);
      PollLeavesNewest(q, filter, n, Entry(i, log[i]), Entry(j, log[j]));
    }
  }

  lemma {:induction false} PollDeliversInOrder(l: Ledger, out: seq<Entry>)
    requires Consistent(l) && Sorted(out)
    requires forall i :: 0 <= i < |out| ==> out[i] in l.queue
    ensures DeliversInOrder(l.delivered + out)
  {
    var d := l.delivered + out;
    forall i, j | 0 <= i < j < |d| && d[i].event.kind == d[j].event.kind
      ensures d[i].id < d[j].id
    {
      if i < |l.delivered| <= j {
        DeliveredIsOlder(l, l.delivered[i], out[j - |l.delivered|]);
      }
    }
  }

  lemma WithinPart(part: seq<Entry>, q: seq<Entry>, log: seq<Event>)
    requires Within(q, log) && forall i :: 0 <= i < |part| ==> part[i] in q
    ensures Within(part, log)
  {
  }

  lemma {:induction false} PollAccounts(l: Ledger, filter: string, limit: int)
    ensures Accounted(Polled(l, filter, limit)) == Accounted(l)
  {
    TakenAndLeft(l.queue, filter, Allowance(l.queue, limit));
  }

  lemma {:induction false} PollKeeps(l: Ledger, filter: string, limit: int)
    requires Consistent(l)
    ensures Consistent(Polled(l, filter, limit))
  {
    var n := Allowance(l.queue, limit);
    var out, rest := Taken(l.queue, filter, n), Left(l.queue, filter, n);
    PollAccounts(l, filter, limit);
    PollPicks(l.queue, filter, n);
    PollKeepsOrder(l.queue, filter, n);
    PollBuffersNewest(l.queue, l.log, filter, n);
    PollDeliversInOrder(l, out);
    WithinPart(out, l.queue, l.log);
    WithinPart(rest, l.queue, l.log);
    PollEvictsOldest(l.evicted, l.queue, rest);
  }

  lemma PollEvictsOldest(evicted: seq<Entry>, q: seq<Entry>, rest: seq<Entry>)
    requires EvictsOldest(evicted, q) && forall i :: 0 <= i < |rest| ==> rest[i] in q
    ensures EvictsOldest(evicted, rest)
  {
  }

  /** Where the loop in `Sift` stands before it looks at entry `i`. */
  ghost predicate PollDone(es: seq<Entry>, filter: string, n: nat, i: nat, out: seq<Event>, rest: seq<Event>) {
    && i <= |es| && |out| <= n
    && out + Events(Taken(es[i..], filter, n - |out|)) == Events(Taken(es, filter, n))
    && rest + Events(Left(es[i..], filter, n - |out|)) == Events(Left(es, filter, n))
  }

  lemma EventsAppend(p: seq<Entry>, q: seq<Entry>)
    ensures Events(p + q) == Events(p) + Events(q)
  {
  }

  lemma PollStart(es: seq<Entry>, filter: string, n: nat)
    ensures PollDone(es, filter, n, 0, [], [])
  {
  }

  lemma PollEnd(es: seq<Entry>, filter: string, n: nat, out: seq<Event>, rest: seq<Event>)
    requires PollDone(es, filter, n, |es|, out, rest)
    ensures out == Events(Taken(es, filter, n)) && rest == Events(Left(es, filter, n))
  {
  }

  /** One turn of that loop. */
  lemma PollStep(es: seq<Entry>, filter: string, n: nat, i: nat, out: seq<Event>, rest: seq<Event>)
    requires i < |es| && PollDone(es, filter, n, i, out, rest)
    ensures var e := es[i].event;
      if Matches(filter, e.kind) && |out| < n then PollDone(es, filter, n, i + 1, out + [e], rest)
      else PollDone(es, filter, n, i + 1, out, rest + [e])
  {
  }

  lemma {:induction false} DeliveredIsOlder(l: Ledger, x: Entry, y: Entry)
    requires Consistent(l) && x in l.delivered && y in l.queue && x.event.kind == y.event.kind
    ensures x.id < y.id
  {
    EverythingOnce(l.log, x);
    assert x !in l.queue by {
      assert multiset(l.delivered)[x] >= 1;
      assert Accounted(l)[x] >= multiset(l.delivered)[x] + multiset(l.queue)[x];
    }
    assert x == Entry(x.id, l.log[x.id]) && y == Entry(y.id, l.log[y.id]);
  }

  lemma ClearKeeps(l: Ledger)
    requires Consistent(l)
    ensures Consistent(Cleared(l))
  {
  }

  // ----- whole runs -----

  datatype Op = Push(e: Event) | Poll(filter: string, limit: int) | Clear

  function Apply(l: Ledger, op: Op): Ledger
    requires l.cap >= 1
  {
    match op
    case Push(e) => Pushed(l, e)
    case Poll(filter, limit) => Polled(l, filter, limit)
    case Clear => Cleared(l)
  }

  /** Any calls, by any callers, one after the other: the mutex makes every call one step. */
  function Run(capacity: int, ops: seq<Op>): (l: Ledger)
    ensures l.cap == (if capacity < 1 then 1 else capacity)
  {
    if ops == [] then Fresh(capacity)
    else Apply(Run(capacity, ops[..|ops| - 1]), ops[|ops| - 1])
  }

  lemma {:induction false} RunIsConsistent(capacity: int, ops: seq<Op>)
    ensures Consistent(Run(capacity, ops))
  {
    if ops != [] {
      var l := Run(capacity, ops[..|ops| - 1]);
      RunIsConsistent(capacity, ops[..|ops| - 1]);
      match ops[|ops| - 1]
      case Push(e) => PushKeeps(l, e);
      case Poll(filter, limit) => PollKeeps(l, filter, limit);
      case Clear => ClearKeeps(l);
    }
  }

  /**
   Conservation: after any run, the push numbered `id` is in exactly one place, once: still
   buffered, delivered by a poll, evicted, or cleared. The buffer never exceeds its capacity.
   */
  lemma {:induction false} Conservation(capacity: int, ops: seq<Op>, id: nat)
    requires id < |Run(capacity, ops).log|
    ensures var l := Run(capacity, ops);
      var x := Entry(id, l.log[id]);
      && |l.queue| <= l.cap
      && multiset(l.queue)[x] + multiset(l.delivered)[x] + multiset(l.evicted)[x] + multiset(l.cleared)[x] == 1
      && |l.queue| + |l.delivered| + |l.evicted| + |l.cleared| == |l.log|
  {
    RunIsConsistent(capacity, ops);
    var l := Run(capacity, ops);
    EverythingOnce(l.log, Entry(id, l.log[id]));
    assert Accounted(l)[Entry(id, l.log[id])] == 1;
    assert |Accounted(l)| == |multiset(Everything(l.log))|;
  }

  /**
   FIFO per type, over any run and whatever filters and limits the polls used: of two pushes of the
   same type, the later one stays buffered if the earlier one does; and if both were delivered, the
   earlier one was delivered first.
   */
  lemma {:induction false} PerTypeFifo(capacity: int, ops: seq<Op>, i: nat, j: nat)
    requires var l := Run(capacity, ops); i < j < |l.log| && l.log[i].kind == l.log[j].kind
    ensures var l := Run(capacity, ops);
      var x, y := Entry(i, l.log[i]), Entry(j, l.log[j]);
      && (x in l.queue ==> y in l.queue)
      && (y in l.delivered ==> x !in l.queue)
      && forall a, b | 0 <= a < |l.delivered| && 0 <= b < |l.delivered| ::
           l.delivered[a] == x && l.delivered[b] == y ==> a < b
  {
    RunIsConsistent(capacity, ops);
    var l := Run(capacity, ops);
    var x, y := Entry(i, l.log[i]), Entry(j, l.log[j]);
    LaterStays(l, i, j);
    forall a, b | 0 <= a < |l.delivered| && 0 <= b < |l.delivered|
      ensures l.delivered[a] == x && l.delivered[b] == y ==> a < b
    {
      if l.delivered[a] == x && l.delivered[b] == y {
        DeliveredInOrder(l.delivered, a, b);
      }
    }
  }

  lemma {:induction false} LaterStays(l: Ledger, i: nat, j: nat)
    requires Consistent(l) && i < j < |l.log| && l.log[i].kind == l.log[j].kind
    ensures Entry(i, l.log[i]) in l.queue ==> Entry(j, l.log[j]) in l.queue
    ensures Entry(j, l.log[j]) in l.delivered ==> Entry(i, l.log[i]) !in l.queue
  {
    assert Buffered(l.queue, l.log, i) ==> Buffered(l.queue, l.log, j);
    if Entry(j, l.log[j]) in l.delivered && Entry(i, l.log[i]) in l.queue {
      DeliveredIsOlder(l, Entry(j, l.log[j]), Entry(i, l.log[i]));
    }
  }

  lemma DeliveredInOrder(delivered: seq<Entry>, a: nat, b: nat)
    requires DeliversInOrder(delivered) && a < |delivered| && b < |delivered|
    requires delivered[a].event.kind == delivered[b].event.kind
    ensures delivered[a].id < delivered[b].id ==> a < b
  {
  }

  function Pushes(events: seq<Event>): seq<Op> {
    seq(|events|, i requires 0 <= i < |events| => Push(events[i]))
  }

  /** The ledger holds the last `min(n, cap)` events of a run of `n` pushes, in order. */
  ghost predicate HoldsLast(l: Ledger, events: seq<Event>) {
    && l.log == events
    && Events(l.queue) == events[if |events| < l.cap then 0 else |events| - l.cap..]
  }

  lemma PushHoldsLast(l: Ledger, events: seq<Event>)
    requires l.cap >= 1 && events != [] && HoldsLast(l, events[..|events| - 1])
    ensures HoldsLast(Pushed(l, events[|events| - 1]), events)
  {
  }

  /** A run of pushes alone leaves the last `min(n, cap)` of them, in order. */
  lemma {:induction false} PushOnlyRun(capacity: int, events: seq<Event>)
    ensures HoldsLast(Run(capacity, Pushes(events)), events)
  {
    if events != [] {
      var n := |events| - 1;
      PushOnlyRun(capacity, events[..n]);
      OnePushMore(capacity, events);
      PushHoldsLast(Run(capacity, Pushes(events[..n])), events);
    }
  }

  lemma {:induction false} OnePushMore(capacity: int, events: seq<Event>)
    requires events != []
    ensures var n := |events| - 1;
      Run(capacity, Pushes(events)) == Pushed(Run(capacity, Pushes(events[..n])), events[n])
  {
    assert Pushes(events)[..|events| - 1] == Pushes(events[..|events| - 1]);
  }

  // ----- the algebra of polls -----

  lemma {:induction false} EnoughIsEnough(q: seq<Entry>, filter: string, m: nat, n: nat)
    requires |q| <= m && |q| <= n
    ensures Taken(q, filter, m) == Taken(q, filter, n) && Left(q, filter, m) == Left(q, filter, n)
  {
    if q != [] {
      if Matches(filter, q[0].event.kind) {
        EnoughIsEnough(q[1..], filter, m - 1, n - 1);
      } else {
        EnoughIsEnough(q[1..], filter, m, n);
      }
    }
  }

  lemma {:induction false} TakeNone(q: seq<Entry>, filter: string)
    ensures Taken(q, filter, 0) == [] && Left(q, filter, 0) == q
  {
    if q != [] {
      TakeNone(q[1..], filter);
    }
  }

  lemma {:induction false} TakenTwice(q: seq<Entry>, filter: string, a: nat, b: nat)
    ensures Taken(q, filter, a) + Taken(Left(q, filter, a), filter, b) == Taken(q, filter, a + b)
    ensures Left(Left(q, filter, a), filter, b) == Left(q, filter, a + b)
  {
    if q != [] {
      var h, t := q[0], q[1..];
      if Matches(filter, h.event.kind) && a > 0 {
        TakenTwice(t, filter, a - 1, b);
      } else {
        TakenTwice(t, filter, a, b);
        assert ([h] + Left(t, filter, a))[1..] == Left(t, filter, a);
        if Matches(filter, h.event.kind) && b > 0 {
          TakeNone(t, filter);
        }
      }
    }
  }

  /** Two polls with the same filter are one poll with the sum of their limits. */
  lemma {:induction false} PollTwice(q: seq<Entry>, filter: string, a: int, b: int)
    requires a > 0 && b > 0
    ensures PollOut(q, filter, a) + PollOut(PollRest(q, filter, a), filter, b) == PollOut(q, filter, a + b)
    ensures PollRest(PollRest(q, filter, a), filter, b) == PollRest(q, filter, a + b)
  {
    TakenTwice(q, filter, a, b);
  }

  lemma {:induction false} TakenCommutes(q: seq<Entry>, f: string, m: nat, g: string, n: nat)
    requires f != "" && g != "" && f != g
    ensures Taken(Left(q, f, m), g, n) == Taken(q, g, n)
    ensures Left(Left(q, f, m), g, n) == Left(Left(q, g, n), f, m)
  {
    if q != [] {
      var h, t := q[0], q[1..];
      var m' := if h.event.kind == f && m > 0 then m - 1 else m;
      var n' := if h.event.kind == g && n > 0 then n - 1 else n;
      TakenCommutes(t, f, m', g, n');
      assert ([h] + Left(t, f, m'))[1..] == Left(t, f, m');
      assert ([h] + Left(t, g, n'))[1..] == Left(t, g, n');
    }
  }

  /** Polls for two different types do not see each other, whatever their limits. */
  lemma {:induction false} PollsCommute(q: seq<Entry>, f: string, a: int, g: string, b: int)
    requires f != "" && g != "" && f != g
    ensures PollOut(PollRest(q, f, a), g, b) == PollOut(q, g, b)
    ensures PollOut(PollRest(q, g, b), f, a) == PollOut(q, f, a)
    ensures PollRest(PollRest(q, f, a), g, b) == PollRest(PollRest(q, g, b), f, a)
  {
    var m, n := Allowance(q, a), Allowance(q, b);
    TakenCommutes(q, f, m, g, n);
    TakenCommutes(q, g, n, f, m);
    PollPicks(q, f, m);
    PollPicks(q, g, n);
    EnoughIsEnough(Left(q, f, m), g, |q|, |Left(q, f, m)|);
    EnoughIsEnough(Left(q, g, n), f, |q|, |Left(q, g, n)|);
  }

  lemma {:induction false} TakesUpTo(q: seq<Entry>, filter: string, n: nat)
    ensures |Taken(q, filter, n)| <= n
    ensures forall x :: x in Taken(q, filter, n) ==> x in q && Matches(filter, x.event.kind)
    ensures |Taken(q, filter, n)| < n ==> forall x :: x in Left(q, filter, n) ==> !Matches(filter, x.event.kind)
    ensures |Taken(q, filter, n)| + |Left(q, filter, n)| == |q|
  {
    if q != [] {
      TakesUpTo(q[1..], filter, if Matches(filter, q[0].event.kind) && n > 0 then n - 1 else n);
    }
  }

  /** A poll delivers matches only, within its limit, and leaves a match only if the limit was used up. */
  lemma {:induction false} PollTakesWhatItMay(q: seq<Entry>, filter: string, limit: int)
    ensures var out, rest := PollOut(q, filter, limit), PollRest(q, filter, limit);
      && (forall x :: x in out ==> x in q && (filter == "" || x.event.kind == filter))
      && (limit > 0 ==> |out| <= limit)
      && (limit <= 0 || |out| < limit ==> forall x :: x in rest ==> filter != "" && x.event.kind != filter)
      && |out| + |rest| == |q|
  {
    TakesUpTo(q, filter, Allowance(q, limit));
  }

  lemma {:induction false} TakenOfAll(q: seq<Entry>, n: nat)
    ensures Taken(q, "", n) == q[..if n < |q| then n else |q|]
    ensures Left(q, "", n) == q[if n < |q| then n else |q|..]
  {
    if q != [] {
      if n > 0 {
        TakenOfAll(q[1..], n - 1);
      } else {
        TakeNone(q, "");
      }
    }
  }

  /** A poll without a type delivers everything in order, or with a limit the oldest that many. */
  lemma {:induction false} PollOfAnyType(q: seq<Entry>, limit: int)
    ensures limit <= 0 || limit >= |q| ==> PollOut(q, "", limit) == q && PollRest(q, "", limit) == []
    ensures 0 < limit < |q| ==> PollOut(q, "", limit) == q[..limit] && PollRest(q, "", limit) == q[limit..]
  {
    TakenOfAll(q, Allowance(q, limit));
  }

  lemma {:induction false} TakenOfType(q: seq<Entry>, f: string, n: nat, x: Entry)
    requires f != "" && n >= |q|
    ensures x in Taken(q, f, n) <==> x in q && x.event.kind == f
    ensures x in Left(q, f, n) <==> x in q && x.event.kind != f
  {
    if q != [] {
      assert q == [q[0]] + q[1..];
      TakenOfType(q[1..], f, if q[0].event.kind == f then n - 1 else n, x);
    }
  }

  lemma {:induction false} TakenIsPrefix(q: seq<Entry>, f: string, m: nat, n: nat)
    requires m <= n
    ensures Taken(q, f, m) <= Taken(q, f, n)
    ensures |Taken(q, f, m)| == if m < |Taken(q, f, n)| then m else |Taken(q, f, n)|
  {
    if q != [] {
      var t := q[1..];
      if Matches(f, q[0].event.kind) && m > 0 {
        TakenIsPrefix(t, f, m - 1, n - 1);
      } else if Matches(f, q[0].event.kind) {
        TakeNone(t, f);
      } else {
        TakenIsPrefix(t, f, m, n);
      }
    }
  }

  /** A poll for one type without a limit divides the queue by type; a limit keeps the oldest of the matches. */
  lemma {:induction false} PollOfOneType(q: seq<Entry>, f: string, limit: int, x: Entry)
    requires f != ""
    ensures x in PollOut(q, f, limit) ==> x.event.kind == f
    ensures limit <= 0 ==> (x in PollOut(q, f, limit) <==> x in q && x.event.kind == f)
    ensures limit <= 0 ==> (x in PollRest(q, f, limit) <==> x in q && x.event.kind != f)
    ensures var all := PollOut(q, f, 0);
      limit > 0 ==> PollOut(q, f, limit) == if limit < |all| then all[..limit] else all
  {
    var all := PollOut(q, f, 0);
    TakenOfType(q, f, |q|, x);
    TakesUpTo(q, f, Allowance(q, limit));
    if limit > 0 {
      EnoughIsEnough(q, f, |q|, |q| + limit);
      TakenIsPrefix(q, f, limit, |q| + limit);
      assert PollOut(q, f, limit) <= all;
    }
  }

  /** Nothing is lost or duplicated by a poll, and both halves keep the order of the pushes. */
  lemma {:induction false} PollSplits(q: seq<Entry>, filter: string, limit: int)
    requires forall i, j :: 0 <= i < j < |q| ==> q[i].id < q[j].id
    ensures var out, rest := PollOut(q, filter, limit), PollRest(q, filter, limit);
      && multiset(out) + multiset(rest) == multiset(q)
      && (forall i, j :: 0 <= i < j < |out| ==> out[i].id < out[j].id)
      && (forall i, j :: 0 <= i < j < |rest| ==> rest[i].id < rest[j].id)
  {
    TakenAndLeft(q, filter, Allowance(q, limit));
    PollKeepsOrder(q, filter, Allowance(q, limit));
  }

  /** The stamps are bookkeeping: what a poll delivers and leaves depends on the events alone. */
  lemma {:induction false} StampsDoNotMatter(p: seq<Entry>, q: seq<Entry>, filter: string, n: nat)
    requires Events(p) == Events(q)
    ensures Events(Taken(p, filter, n)) == Events(Taken(q, filter, n))
    ensures Events(Left(p, filter, n)) == Events(Left(q, filter, n))
  {
    if p != [] {
      assert p[0].event == Events(p)[0] == Events(q)[0] == q[0].event;
      assert Events(p[1..]) == Events(p)[1..] == Events(q[1..]);
      var n' := if Matches(filter, p[0].event.kind) && n > 0 then n - 1 else n;
      StampsDoNotMatter(p[1..], q[1..], filter, n');
      EventsAppend([p[0]], Taken(p[1..], filter, n'));
      EventsAppend([q[0]], Taken(q[1..], filter, n'));
      EventsAppend([p[0]], Left(p[1..], filter, n'));
      EventsAppend([q[0]], Left(q[1..], filter, n'));
    }
  }
}
