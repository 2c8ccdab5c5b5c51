/** The WebSocket client registry over connects and disconnects (pkg/events/websocket/websocket_producer.go). */
module WsRegistry {
  import opened Wrappers

  /** A connection object; each upgrade makes a new one. */
  type Conn = nat

  /** `Connect` is one `ServeWs`; `Cleanup` is its reader goroutine ending. Each holds the mutex. */
  datatype Event = Connect(conn: Conn, instance: string) | Cleanup(conn: Conn)

  datatype Registry = Registry(clients: map<string, Conn>, broadcast: seq<Conn>)

  /** The list without the first occurrence of `c`. */
  function Without(s: seq<Conn>, c: Conn): seq<Conn> {
    if s == [] then [] else if s[0] == c then s[1..] else [s[0]] + Without(s[1..], c)
  }

  // ----- histories -----

  /** What a connection asked for when it connected, if it did. */
  function Instance(h: seq<Event>, c: Conn): Option<string> {
    if h == [] then None
    else
      match h[|h| - 1]
      case Connect(d, instance) => if d == c then Some(instance) else Instance(h[..|h| - 1], c)
      case Cleanup(_) => Instance(h[..|h| - 1], c)
  }

  /** Connected, and its reader has not cleaned up. */
  predicate Live(h: seq<Event>, c: Conn) {
    Instance(h, c).Some? && Cleanup(c) !in h
  }

  predicate Allowed(h: seq<Event>, e: Event) {
    match e
    case Connect(c, _) => Instance(h, c) == None
    case Cleanup(c) => Live(h, c)
  }

  /** Connections are new when they connect, and end at most once. */
  predicate Legal(h: seq<Event>) {
    h == [] || (Legal(h[..|h| - 1]) && Allowed(h[..|h| - 1], h[|h| - 1]))
  }

  function After(r: Registry, h: seq<Event>, e: Event): Registry {
    match e
    case Connect(c, instance) =>
      if instance == "" then r.(broadcast := r.broadcast + [c]) else r.(clients := r.clients[instance := c])
    case Cleanup(c) =>
      if Instance(h, c) == Some("") then r.(broadcast := Without(r.broadcast, c))
      else if Instance(h, c).Some? then r.(clients := r.clients - {Instance(h, c).value})
      else r
  }

  function Final(h: seq<Event>): Registry {
    if h == [] then Registry(map[], []) else After(Final(h[..|h| - 1]), h[..|h| - 1], h[|h| - 1])
  }

  // ----- the code -----

  class Producer {
    var clients: map<string, Conn>
    var broadcast: seq<Conn>
    ghost var history: seq<Event>

    ghost predicate Valid()
      reads this
    {
      Legal(history) && Registry(clients, broadcast) == Final(history)
    }

    constructor ()
      ensures Valid() && history == []
    {
      clients, broadcast, history := map[], [], [];
    }

    method AddBroadcastClient(conn: Conn)
      modifies this`broadcast
      ensures broadcast == old(broadcast) + [conn]
    {
      broadcast := broadcast + [conn];
    }

    method RemoveBroadcastClient(conn: Conn)
      modifies this`broadcast
      ensures broadcast == Without(old(broadcast), conn)
    {
      for i := 0 to |broadcast|
        invariant broadcast == old(broadcast)
        invariant Without(broadcast, conn) == broadcast[..i] + Without(broadcast[i..], conn)
      {
        assert broadcast[i..][1..] == broadcast[i + 1..];
        if broadcast[i] == conn {
          broadcast := broadcast[..i] + broadcast[i + 1..];
          return;
        }
      }
    }

    method AddClient(instanceID: string, conn: Conn)
      modifies this`clients
      ensures clients == old(clients)[instanceID := conn]
    {
      clients := clients[instanceID := conn];
    }

    method RemoveClient(instanceID: string)
      modifies this`clients
      ensures clients == old(clients) - {instanceID}
    {
      clients := clients - {instanceID};
    }

    /** `ServeWs` up to the start of the reader. */
    method ServeWs(conn: Conn, instanceId: string)
      requires Valid() && Instance(history, conn) == None
      modifies this
      ensures Valid() && history == old(history) + [Connect(conn, instanceId)]
    {
      if instanceId == "" {
        AddBroadcastClient(conn);
      } else {
        AddClient(instanceId, conn);
      }
      history := history + [Connect(conn, instanceId)];
      assert history[..|history| - 1] == old(history);
    }

    /** The end of that reader, which remembers the connection and the instance. */
    method ReaderEnds(conn: Conn, instanceId: string)
      requires Valid() && Live(history, conn) && Instance(history, conn) == Some(instanceId)
      modifies this
      ensures Valid() && history == old(history) + [Cleanup(conn)]
    {
      if instanceId == "" {
        RemoveBroadcastClient(conn);
      } else {
        RemoveClient(instanceId);
      }
      history := history + [Cleanup(conn)];
      assert history[..|history| - 1] == old(history);
    }
  }

  // ----- whole runs -----

  /** When a connection connected. */
  function Arrival(h: seq<Event>, c: Conn): (i: nat)
    requires Instance(h, c).Some?
    ensures i < |h| && h[i] == Connect(c, Instance(h, c).value)
  {
    if h[|h| - 1].Connect? && h[|h| - 1].conn == c then |h| - 1 else Arrival(h[..|h| - 1], c)
  }

  ghost predicate InArrivalOrder(h: seq<Event>, s: seq<Conn>) {
    && (forall i :: 0 <= i < |s| ==> Instance(h, s[i]).Some?)
    && forall i, j :: 0 <= i < j < |s| ==> Arrival(h, s[i]) < Arrival(h, s[j])
  }

  /** The broadcast list is what it should be. */
  ghost predicate BroadcastRight(h: seq<Event>, s: seq<Conn>) {
    InArrivalOrder(h, s) && forall c :: c in s <==> Live(h, c) && Instance(h, c) == Some("")
  }

  ghost predicate NoDuplicates(s: seq<Conn>) {
    forall i, j :: 0 <= i < j < |s| ==> s[i] != s[j]
  }

  lemma {:induction false} WithoutMeaning(s: seq<Conn>, c: Conn)
    requires NoDuplicates(s)
    ensures forall x :: x in Without(s, c) <==> x in s && x != c
  {
    if s != [] {
      assert s == [s[0]] + s[1..];
      WithoutMeaning(s[1..], c);
    }
  }

  /** The instance of a connection is the one it connected with. */
  lemma {:induction false} InstanceMeaning(h: seq<Event>, c: Conn, instance: string)
    requires Legal(h)
    ensures Instance(h, c) == Some(instance) <==> Connect(c, instance) in h
  {
    if h != [] {
      var g, e := h[..|h| - 1], h[|h| - 1];
      assert h == g + [e];
      InstanceMeaning(g, c, instance);
    }
  }

  lemma {:induction false} CleanupNeedsConnect(h: seq<Event>, c: Conn)
    requires Legal(h) && Cleanup(c) in h
    ensures Instance(h, c).Some?
  {
    var g := h[..|h| - 1];
    assert h == g + [h[|h| - 1]];
    if h[|h| - 1] != Cleanup(c) {
      CleanupNeedsConnect(g, c);
    }
  }

  lemma EventLater(h: seq<Event>, e: Event, c: Conn)
    requires Instance(h, c).Some? && (e.Connect? ==> e.conn != c)
    ensures Instance(h + [e], c) == Instance(h, c) && Arrival(h + [e], c) == Arrival(h, c)
  {
  }

  lemma {:induction false} LiveLater(h: seq<Event>, e: Event, c: Conn)
    requires Legal(h) && Allowed(h, e)
    ensures var g := h + [e];
      if e.conn == c then Live(g, c) <==> e.Connect? else Live(g, c) <==> Live(h, c)
    ensures Instance(h + [e], c) == if e.Connect? && e.conn == c then Some(e.instance) else Instance(h, c)
  {
    assert (h + [e])[..|h|] == h;
    if Cleanup(c) in h {
      CleanupNeedsConnect(h, c);
    }
    assert Cleanup(c) in h + [e] <==> Cleanup(c) in h || e == Cleanup(c);
  }

  lemma OrderLater(h: seq<Event>, e: Event, s: seq<Conn>)
    requires InArrivalOrder(h, s) && Allowed(h, e)
    ensures InArrivalOrder(h + [e], s) && NoDuplicates(s)
    ensures e.Connect? ==> InArrivalOrder(h + [e], s + [e.conn])
  {
  }

  lemma HeadIsEarlier(h: seq<Event>, s: seq<Conn>, x: Conn)
    requires InArrivalOrder(h, s) && s != [] && x in s[1..]
    ensures Instance(h, x).Some? && Arrival(h, s[0]) < Arrival(h, x)
  {
  }

  lemma OrderCons(h: seq<Event>, x: Conn, s: seq<Conn>)
    requires InArrivalOrder(h, s) && Instance(h, x).Some?
    requires forall i :: 0 <= i < |s| ==> Arrival(h, x) < Arrival(h, s[i])
    ensures InArrivalOrder(h, [x] + s)
  {
  }

  lemma {:induction false} OrderWithout(h: seq<Event>, s: seq<Conn>, c: Conn)
    requires InArrivalOrder(h, s) && NoDuplicates(s)
    ensures InArrivalOrder(h, Without(s, c))
  {
    if s != [] {
      var t := s[1..];
      assert InArrivalOrder(h, t) && NoDuplicates(t);
      if s[0] != c {
        OrderWithout(h, t, c);
        WithoutMeaning(t, c);
        var rest := Without(t, c);
        forall i | 0 <= i < |rest|
          ensures Arrival(h, s[0]) < Arrival(h, rest[i])
        {
          assert rest[i] in rest;
          HeadIsEarlier(h, s, rest[i]);
        }
        OrderCons(h, s[0], rest);
      }
    }
  }

  lemma {:induction false} BroadcastStep(h: seq<Event>, s: seq<Conn>, e: Event)
    requires Legal(h) && Allowed(h, e) && BroadcastRight(h, s)
    ensures BroadcastRight(h + [e], After(Registry(map[], s), h, e).broadcast)
  {
    OrderLater(h, e, s);
    if e.Cleanup? {
      OrderWithout(h + [e], s, e.conn);
      WithoutMeaning(s, e.conn);
    }
    forall c {
      LiveLater(h, e, c);
    }
  }

  /**
   After any interleaving of connects and disconnects, the broadcast list is in arrival order, so
   without duplicates, and holds exactly the broadcast connections that have not been cleaned up.
   */
  lemma {:induction false} BroadcastIsExact(h: seq<Event>)
    requires Legal(h)
    ensures InArrivalOrder(h, Final(h).broadcast)
    ensures forall c :: c in Final(h).broadcast <==> Connect(c, "") in h && Cleanup(c) !in h
  {
    BroadcastStaysRight(h);
    forall c {
      InstanceMeaning(h, c, "");
    }
  }

  lemma {:induction false} BroadcastStaysRight(h: seq<Event>)
    requires Legal(h)
    ensures BroadcastRight(h, Final(h).broadcast)
  {
    if h != [] {
      var g, e := h[..|h| - 1], h[|h| - 1];
      BroadcastStaysRight(g);
      BroadcastStep(g, Final(g).broadcast, e);
      assert h == g + [e];
    }
  }

  /** No connection is in both places: those without an instance are only in the broadcast list. */
  lemma {:induction false} NoBroadcastClient(h: seq<Event>)
    ensures "" !in Final(h).clients
  {
    if h != [] {
      NoBroadcastClient(h[..|h| - 1]);
    }
  }

  /** Events that rewrite or delete the map entry of an instance. */
  predicate Touches(h: seq<Event>, e: Event, instance: string) {
    match e
    case Connect(_, i) => i == instance
    case Cleanup(c) => Instance(h, c) == Some(instance)
  }

  /** The last event about `instance` was that `c` connected. */
  predicate LastWord(h: seq<Event>, instance: string, c: Conn) {
    && h != []
    && var g, e := h[..|h| - 1], h[|h| - 1];
       e == Connect(c, instance) || (!Touches(g, e, instance) && LastWord(g, instance, c))
  }

  lemma {:induction false} ClientsFollowLastWord(h: seq<Event>, instance: string, c: Conn)
    requires Legal(h) && instance != ""
    ensures instance in Final(h).clients && Final(h).clients[instance] == c <==> LastWord(h, instance, c)
    ensures LastWord(h, instance, c) ==> Live(h, c) && Instance(h, c) == Some(instance)
  {
    if h != [] {
      var g, e := h[..|h| - 1], h[|h| - 1];
      ClientsFollowLastWord(g, instance, c);
      assert h == g + [e];
      if e == Connect(c, instance) {
        assert Cleanup(c) !in g by { if Cleanup(c) in g { CleanupNeedsConnect(g, c); } }
      }
    }
  }

  /** Nothing about `instance` happened after event `k`: no connect for it, and no end of a connection made for it. */
  ghost predicate QuietSince(h: seq<Event>, k: nat, instance: string) {
    forall j | k < j < |h| ::
      match h[j]
      case Connect(_, i) => i != instance
      case Cleanup(c) => Connect(c, instance) !in h[..j]
  }

  lemma {:induction false} QuietLater(g: seq<Event>, e: Event, k: nat, instance: string)
    requires Legal(g) && k < |g|
    ensures QuietSince(g + [e], k, instance) <==> QuietSince(g, k, instance) && !Touches(g, e, instance)
  {
    var h := g + [e];
    assert h[|g|] == e && h[..|g|] == g;
    assert forall j | 0 <= j < |g| :: h[..j] == g[..j] && h[j] == g[j];
    if e.Cleanup? {
      InstanceMeaning(g, e.conn, instance);
    }
  }

  lemma {:induction false} LastWordMeaning(h: seq<Event>, instance: string, c: Conn)
    requires Legal(h)
    ensures LastWord(h, instance, c)
      <==> exists k :: 0 <= k < |h| && h[k] == Connect(c, instance) && QuietSince(h, k, instance)
  {
    if h != [] {
      var g, e := h[..|h| - 1], h[|h| - 1];
      assert h == g + [e];
      LastWordMeaning(g, instance, c);
      forall k | 0 <= k < |g| {
        QuietLater(g, e, k, instance);
      }
      assert QuietSince(h, |g|, instance);
      assert forall k | 0 <= k < |g| :: h[k] == g[k];
    }
  }

  /**
   Exactly when the per-instance map holds a connection: when it connected for that instance and
   nothing happened about the instance since. Every connection in the map is live.
   */
  lemma {:induction false} ClientsAreExact(h: seq<Event>, instance: string, c: Conn)
    requires Legal(h) && instance != ""
    ensures instance in Final(h).clients && Final(h).clients[instance] == c
      <==> exists k :: 0 <= k < |h| && h[k] == Connect(c, instance) && QuietSince(h, k, instance)
    ensures instance in Final(h).clients && Final(h).clients[instance] == c ==> Cleanup(c) !in h
  {
    ClientsFollowLastWord(h, instance, c);
    LastWordMeaning(h, instance, c);
  }

  /**
   A live connection is missing from the per-instance map exactly if a later event was about the
   same instance: a reconnect overwrites its entry, and a stale close deletes it by instance.
   */
  lemma {:induction false} LostClients(h: seq<Event>, instance: string, c: Conn)
    requires Legal(h) && instance != "" && Live(h, c) && Instance(h, c) == Some(instance)
    ensures (instance in Final(h).clients && Final(h).clients[instance] == c)
      <==> QuietSince(h, Arrival(h, c), instance)
  {
    ClientsAreExact(h, instance, c);
    forall k | 0 <= k < |h| && h[k] == Connect(c, instance)
      ensures k == Arrival(h, c)
    {
      ConnectsOnce(h, c, instance, k);
    }
  }

  lemma {:induction false} ConnectsOnce(h: seq<Event>, c: Conn, instance: string, k: nat)
    requires Legal(h) && k < |h| && h[k] == Connect(c, instance)
    ensures Instance(h, c) == Some(instance) && k == Arrival(h, c)
  {
    InstanceMeaning(h, c, instance);
    var g, e := h[..|h| - 1], h[|h| - 1];
    if k < |g| {
      ConnectsOnce(g, c, instance, k);
      assert h == g + [e];
      EventLater(g, e, c);
    }
  }

  lemma OneMore(h: seq<Event>, e: Event)
    ensures Final(h + [e]) == After(Final(h), h, e)
    ensures Legal(h + [e]) <==> Legal(h) && Allowed(h, e)
  {
  }

  /** So being live is not enough: a reconnect followed by the old connection's close loses the new one. */
  lemma StaleCloseDeletesTheNewer(h: seq<Event>, stale: Conn, newer: Conn, instance: string)
    requires Legal(h) && stale != newer && instance != ""
    requires Live(h, stale) && Instance(h, stale) == Some(instance)
    requires Live(h, newer) && Instance(h, newer) == Some(instance)
    ensures var g := h + [Cleanup(stale)];
      Legal(g) && Live(g, newer) && Instance(g, newer) == Some(instance) && instance !in Final(g).clients
  {
  }

  /** Two connections of one instance, and the loss. */
  lemma {:induction false} StaleCloseExample()
    ensures var h := [Connect(1, "a"), Connect(2, "a")] + [Cleanup(1)];
      Legal(h) && Live(h, 2) && "a" !in Final(h).clients
  {
    var e1, e2 := Connect(1, "a"), Connect(2, "a");
    var h0: seq<Event> := [];
    OneMore(h0, e1);
    LiveLater(h0, e1, 1);
    LiveLater(h0, e1, 2);
    OneMore(h0 + [e1], e2);
    LiveLater(h0 + [e1], e2, 1);
    LiveLater(h0 + [e1], e2, 2);
    assert h0 + [e1] + [e2] == [e1, e2];
    StaleCloseDeletesTheNewer([e1, e2], 1, 2, "a");
  }
}
