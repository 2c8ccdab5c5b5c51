/**
 Publishing with reconnection (pkg/events/rabbitmq/rabbitmq_producer.go). The broker is an oracle
 that answers each request, knowing everything that went before.
 */
module RetryPublisher {
  import opened Wrappers

  /** A publish succeeds, fails because the channel or connection is not open, or fails otherwise. */
  datatype Ack = Sent | NotOpen | Refused

  /** A dial connects, or fails; the library may hand back a connection along with the error. */
  datatype Dial = Connected | Failed(conn: bool)

  datatype Event = Published(ack: Ack) | Probed(closed: bool) | Dialled(dial: Dial) | Opened(ok: bool)

  type History = seq<Event>

  datatype Broker = Broker(publish: History -> Ack, isClosed: History -> bool,
                           dial: History -> Dial, open: History -> bool)

  /** Whether the producer has a connection object, and what has gone over the wire. */
  datatype Link = Link(hasConn: bool, history: History)

  /** A publish on the nil channel that a failed open leaves behind crashes. */
  datatype Result = Nil | Error | Crash

  // ----- the code, on values -----

  predicate HandsBackConn(dial: Dial) {
    dial == Connected || dial.conn
  }

  function Redialled(b: Broker, l: Link, tries: nat): (Link, bool)
    decreases tries
  {
    if tries == 0 then (l, false)
    else
      var dial := b.dial(l.history);
      var l' := Link(HandsBackConn(dial), l.history + [Dialled(dial)]);
      if dial == Connected then (l', true) else Redialled(b, l', tries - 1)
  }

  function Reconnected(b: Broker, configured: bool, l: Link): (Link, bool) {
    if configured then Redialled(b, l, 3) else (l, false)
  }

  function Ensured(b: Broker, configured: bool, l: Link): (Link, bool) {
    if !l.hasConn then Reconnected(b, configured, l)
    else
      var closed := b.isClosed(l.history);
      var l' := l.(history := l.history + [Probed(closed)]);
      if closed then Reconnected(b, configured, l') else (l', true)
  }

  /** A turn whose publish did not succeed: the link after it, whether `channel` is non-nil, and `err`. */
  function Turned(b: Broker, configured: bool, l: Link): (Link, bool, bool) {
    var ack := b.publish(l.history);
    var l1 := l.(history := l.history + [Published(ack)]);
    if ack != NotOpen then (l1, true, true)
    else
      var (l2, up) := Ensured(b, configured, l1);
      if !up then (l2, true, true)
      else
        var ok := b.open(l2.history);
        (l2.(history := l2.history + [Opened(ok)]), ok, !ok)
  }

  /** The retry loop with `left` turns to go, a channel that is nil or not, and the current `err`. */
  function Retried(b: Broker, configured: bool, l: Link, left: nat, channel: bool, err: bool): (Link, Result)
    decreases left
  {
    if left == 0 then (l, if err then Error else Nil)
    else if !channel then (l, Crash)
    else if b.publish(l.history) == Sent then (l.(history := l.history + [Published(Sent)]), Nil)
    else
      var (l', channel', err') := Turned(b, configured, l);
      Retried(b, configured, l', left - 1, channel', err')
  }

  // ----- the code -----

  class Producer {
    const broker: Broker
    const configured: bool  // connStr != ""
    const maxRetries: int
    var hasConn: bool       // conn != nil
    var history: History

    function State(): Link
      reads this
    {
      Link(hasConn, history)
    }

    constructor (broker: Broker, configured: bool, maxRetries: int, hasConn: bool)
      ensures State() == Link(hasConn, [])
      ensures this.broker == broker && this.configured == configured && this.maxRetries == maxRetries
    {
      this.broker, this.configured, this.maxRetries, this.hasConn := broker, configured, maxRetries, hasConn;
      history := [];
    }

    method Reconnect() returns (ok: bool)
      modifies this
      ensures (State(), ok) == Reconnected(broker, configured, old(State()))
    {
      if !configured {
        return false;
      }
      for i := 0 to 3
        invariant Redialled(broker, State(), 3 - i) == Redialled(broker, old(State()), 3)
      {
        var dial := broker.dial(history);
        hasConn := HandsBackConn(dial);
        history := history + [Dialled(dial)];
        if dial == Connected {
          return true;
        }
      }
      return false;
    }

    method EnsureConnection() returns (ok: bool)
      modifies this
      ensures (State(), ok) == Ensured(broker, configured, old(State()))
    {
      var down := true;
      if hasConn {
        down := broker.isClosed(history);
        history := history + [Probed(down)];
      }
      if down {
        ok := Reconnect();
        return;
      }
      return true;
    }

    /** `channel` is the caller's open channel; `err` is nil until a publish fails. */
    method PublishWithRetry() returns (r: Result)
      modifies this
      ensures (State(), r) ==
        Retried(broker, configured, old(State()), if maxRetries > 0 then maxRetries else 0, true, false)
    {
      var channel, err := true, false;
      var i := 0;
      while i < maxRetries
        invariant i == 0 || i <= maxRetries
        invariant Retried(broker, configured, State(), if maxRetries > i then maxRetries - i else 0, channel, err)
          == Retried(broker, configured, old(State()), if maxRetries > 0 then maxRetries else 0, true, false)
      {
        i := i + 1;
        if !channel {
          return Crash;
        }
        var ack := broker.publish(history);
        history := history + [Published(ack)];
        err := ack != Sent;
        if !err {
          return Nil;
        }
        if ack == NotOpen {
          var up := EnsureConnection();
          if !up {
            continue;
          }
          channel := broker.open(history);
          history := history + [Opened(channel)];
          err := !channel;
          if err {
            continue;
          }
        }
      }
      return if err then Error else Nil;
    }
  }

  // ----- what the result means -----

  function Publishes(h: History): nat {
    if h == [] then 0 else Publishes(h[..|h| - 1]) + if h[|h| - 1].Published? then 1 else 0
  }

  function Dials(h: History): nat {
    if h == [] then 0 else Dials(h[..|h| - 1]) + if h[|h| - 1].Dialled? then 1 else 0
  }

  /** The answer to the last publish. */
  function LastAck(h: History): Option<Ack> {
    if h == [] then None
    else if h[|h| - 1].Published? then Some(h[|h| - 1].ack)
    else LastAck(h[..|h| - 1])
  }

  lemma {:induction false} CountsAppend(g: History, h: History)
    ensures Publishes(g + h) == Publishes(g) + Publishes(h)
    ensures Dials(g + h) == Dials(g) + Dials(h)
    ensures LastAck(g + h) == if LastAck(h) == None then LastAck(g) else LastAck(h)
  {
    if h == [] {
      assert g + h == g;
    } else {
      assert (g + h)[..|g + h| - 1] == g + h[..|h| - 1];
      CountsAppend(g, h[..|h| - 1]);
    }
  }

  /** `h` is what happened between two states of the link. */
  ghost predicate Added(l: Link, l': Link, h: History) {
    l'.history == l.history + h
  }

  /** Probes and dials only. */
  ghost predicate ConnectionTraffic(h: History) {
    forall i :: 0 <= i < |h| ==> h[i].Probed? || h[i].Dialled?
  }

  lemma {:induction false} TrafficIsQuiet(h: History)
    requires ConnectionTraffic(h)
    ensures Publishes(h) == 0 && LastAck(h) == None && Dials(h) <= |h|
    ensures (forall i :: 0 <= i < |h| ==> h[i].Dialled?) ==> Dials(h) == |h|
  {
    if h != [] {
      TrafficIsQuiet(h[..|h| - 1]);
    }
  }

  lemma {:induction false} RedialMeaning(b: Broker, l: Link, tries: nat) returns (h: History)
    ensures Added(l, Redialled(b, l, tries).0, h) && ConnectionTraffic(h) && |h| <= tries
    // the connection object is what the last dial handed back
    ensures tries > 0 ==>
      && h != [] && h[|h| - 1].Dialled?
      && Redialled(b, l, tries).0.hasConn == HandsBackConn(h[|h| - 1].dial)
    // every dial but a successful last one failed, and failing altogether takes all the tries
    ensures forall i :: 0 <= i < |h| ==> h[i].Dialled?
    ensures forall i :: 0 <= i < |h| ==> (h[i].dial == Connected <==> i == |h| - 1 && Redialled(b, l, tries).1)
    ensures if Redialled(b, l, tries).1 then |h| > 0 else |h| == tries
    decreases tries
  {
    if tries == 0 {
      h := [];
    } else {
      var dial := b.dial(l.history);
      var d := [Dialled(dial)];
      if dial == Connected {
        h := d;
      } else {
        var rest := RedialMeaning(b, Link(HandsBackConn(dial), l.history + d), tries - 1);
        h := d + rest;
        assert l.history + d + rest == l.history + h;
      }
    }
  }

  /**
   A connection is there afterwards if it was open, or one of up to three dials succeeded; a probe
   is made only if there is a connection object, and dials only if that is closed or missing.
   */
  lemma {:induction false} EnsureMeaning(b: Broker, configured: bool, l: Link) returns (h: History)
    ensures Added(l, Ensured(b, configured, l).0, h)
    ensures Publishes(h) == 0 && LastAck(h) == None && Dials(h) <= 3
    ensures Ensured(b, configured, l).1 ==> Ensured(b, configured, l).0.hasConn
    ensures ConnectionTraffic(h)
    ensures Probed(true) in h || Probed(false) in h <==> l.hasConn
    ensures Ensured(b, configured, l).1 <==> h == [Probed(false)] || (h != [] && h[|h| - 1] == Dialled(Connected))
    ensures !Ensured(b, configured, l).1 && configured ==> Dials(h) == 3
  {
    var probe := if l.hasConn then [Probed(b.isClosed(l.history))] else [];
    var l1 := l.(history := l.history + probe);
    var dials := [];
    if configured && (!l.hasConn || b.isClosed(l.history)) {
      assert probe == [] ==> l1 == l;
      dials := RedialMeaning(b, l1, 3);
    }
    h := probe + dials;
    assert l.history + probe + dials == l.history + h;
    TrafficIsQuiet(probe);
    TrafficIsQuiet(dials);
    CountsAppend(probe, dials);
    assert probe != [] ==> probe[..0] == [];
  }

  /** The part of `EnsureMeaning` that the retry loop needs. */
  lemma {:induction false} EnsureTraffic(b: Broker, configured: bool, l: Link) returns (h: History)
    ensures Added(l, Ensured(b, configured, l).0, h)
    ensures Publishes(h) == 0 && LastAck(h) == None && Dials(h) <= 3
    ensures ConnectionTraffic(h)
  {
    h := EnsureMeaning(b, configured, l);
  }

  /**
   Nothing was published, and yet the result is nil: all turns are used, the last publish found the
   channel closed, and then the connection was there and a new channel opened.
   */
  ghost predicate FalseSuccess(h: History, turns: nat) {
    && turns > 0
    && Publishes(h) == turns
    && LastAck(h) == Some(NotOpen)
    && h[|h| - 1] == Opened(true)
  }

  ghost predicate TouchedOnlyIfClosed(h: History) {
    forall i :: 0 <= i < |h| && !h[i].Published? ==> LastAck(h[..i]) == Some(NotOpen)
  }

  /** What `h`, the traffic of a retry loop of so many turns, says about its result. */
  ghost predicate Explains(h: History, turns: nat, channel: bool, err: bool, r: Result) {
    // nil is returned exactly if a publish succeeded, or by mistake, or if there was nothing to do
    && (r == Nil <==> LastAck(h) == Some(Sent) || FalseSuccess(h, turns) || (turns == 0 && !err))
    // a crash happens exactly if a channel failed to open and a turn was left to use it
    && (r == Crash <==> Publishes(h) < turns && (if h == [] then !channel else h[|h| - 1] == Opened(false)))
    // at most one publish succeeds, because it ends the loop
    && (forall i :: 0 <= i < |h| && h[i] == Published(Sent) ==> i == |h| - 1)
    && Publishes(h) <= turns
    && Dials(h) <= 3 * Publishes(h)
    && (h != [] && h[|h| - 1].Opened? ==> LastAck(h) == Some(NotOpen))
    // it gives up only after all turns
    && (r == Error ==> Publishes(h) == turns)
    // the connection is touched only after a publish that found the channel closed
    && TouchedOnlyIfClosed(h)
    && (h == [] ==> turns == 0 || !channel)
    && (h != [] ==> h[0].Published?)
  }

  /** What one turn of the loop adds when its publish does not succeed, and how it leaves `channel` and `err`. */
  ghost predicate FailedTurn(turn: History, channel: bool, err: bool) {
    && turn != [] && turn[0].Published?
    && Publishes(turn) == 1 && Dials(turn) <= 3
    && (LastAck(turn) == Some(NotOpen) || LastAck(turn) == Some(Refused))
    && (forall i :: 0 <= i < |turn| ==> turn[i] != Published(Sent))
    && (turn[|turn| - 1].Opened? ==> LastAck(turn) == Some(NotOpen))
    && TouchedOnlyIfClosed(turn)
    && (channel <==> turn[|turn| - 1] != Opened(false))
    && (err <==> turn[|turn| - 1] != Opened(true))
  }

  /** A turn whose publish found the channel closed; `open` is the attempt to open one, if there was any. */
  lemma {:induction false} ClosedTurn(traffic: History, open: History)
    requires Publishes(traffic) == 0 && LastAck(traffic) == None && Dials(traffic) <= 3
    requires ConnectionTraffic(traffic)
    requires open == [] || open == [Opened(true)] || open == [Opened(false)]
    ensures FailedTurn([Published(NotOpen)] + traffic + open, open != [Opened(false)], open != [Opened(true)])
  {
    ClosedTurnCounts(traffic, open);
    TouchedAfterClosed(traffic + open);
    assert [Published(NotOpen)] + traffic + open == [Published(NotOpen)] + (traffic + open);
  }

  lemma {:induction false} ClosedTurnCounts(traffic: History, open: History)
    requires Publishes(traffic) == 0 && LastAck(traffic) == None && Dials(traffic) <= 3
    requires open == [] || open == [Opened(true)] || open == [Opened(false)]
    ensures var turn := [Published(NotOpen)] + traffic + open;
      Publishes(turn) == 1 && Dials(turn) <= 3 && LastAck(turn) == Some(NotOpen)
  {
    var publish := [Published(NotOpen)];
    assert publish[..0] == [] && (open != [] ==> open[..0] == []);
    CountsAppend(publish, traffic);
    CountsAppend(publish + traffic, open);
  }

  lemma RefusedTurn()
    ensures FailedTurn([Published(Refused)], true, true)
  {
  }

  lemma {:induction false} TurnMeaning(b: Broker, configured: bool, l: Link) returns (turn: History)
    requires b.publish(l.history) != Sent
    ensures var (l', channel, err) := Turned(b, configured, l);
      Added(l, l', turn) && FailedTurn(turn, channel, err)
  {
    var ack := b.publish(l.history);
    if ack == Refused {
      RefusedTurn();
      return [Published(ack)];
    }
    var l1 := l.(history := l.history + [Published(ack)]);
    var traffic := EnsureTraffic(b, configured, l1);
    var (l2, up) := Ensured(b, configured, l1);
    turn := [Published(NotOpen)] + traffic;
    assert l.history + [Published(NotOpen)] + traffic == l.history + turn;
    if up {
      var open := [Opened(b.open(l2.history))];
      ClosedTurn(traffic, open);
      assert l.history + turn + open == l.history + (turn + open);
      turn := turn + open;
    } else {
      ClosedTurn(traffic, []);
      assert turn + [] == turn;
    }
  }

  lemma {:induction false} TouchedAppend(g: History, h: History)
    requires TouchedOnlyIfClosed(g) && TouchedOnlyIfClosed(h) && (h != [] ==> h[0].Published?)
    ensures TouchedOnlyIfClosed(g + h)
  {
    forall i | 0 <= i < |g + h| && !(g + h)[i].Published?
      ensures LastAck((g + h)[..i]) == Some(NotOpen)
    {
      if i < |g| {
        assert (g + h)[..i] == g[..i];
      } else {
        var j := i - |g|;
        assert (g + h)[..i] == g + h[..j];
        CountsAppend(g, h[..j]);
      }
    }
  }

  /** After a publish that found the channel closed, anything but a publish may follow. */
  lemma {:induction false} TouchedAfterClosed(traffic: History)
    requires forall i :: 0 <= i < |traffic| ==> !traffic[i].Published?
    ensures TouchedOnlyIfClosed([Published(NotOpen)] + traffic)
    ensures LastAck([Published(NotOpen)] + traffic) == Some(NotOpen)
  {
    var h := [Published(NotOpen)] + traffic;
    if traffic == [] {
      assert h[..0] == [];
    } else {
      var n := |traffic| - 1;
      TouchedAfterClosed(traffic[..n]);
      var g := [Published(NotOpen)] + traffic[..n];
      assert h == g + [traffic[n]] && h[..|h| - 1] == g;
      forall i | 0 <= i < |h| && !h[i].Published?
        ensures LastAck(h[..i]) == Some(NotOpen)
      {
        assert i < |g| ==> h[..i] == g[..i] && h[i] == g[i];
      }
    }
  }

  lemma {:induction false} TurnThenRest(turn: History, rest: History, turns: nat, channel: bool, err: bool, r: Result)
    requires turns > 0 && FailedTurn(turn, channel, err)
    requires Explains(rest, turns - 1, channel, err, r)
    ensures Explains(turn + rest, turns, true, false, r)
  {
    CountsAppend(turn, rest);
    TouchedAppend(turn, rest);
    var h := turn + rest;
    if rest == [] {
      assert h == turn;
    } else {
      assert h[|h| - 1] == rest[|rest| - 1];
      RestHasAck(rest);
    }
  }

  lemma {:induction false} RestHasAck(h: History)
    requires h != [] && h[0].Published?
    ensures LastAck(h) != None && Publishes(h) > 0
  {
    if |h| > 1 {
      RestHasAck(h[..|h| - 1]);
    }
  }

  lemma {:induction false} RetryMeaning(b: Broker, configured: bool, l: Link, turns: nat, channel: bool, err: bool)
      returns (h: History)
    ensures var (l', r) := Retried(b, configured, l, turns, channel, err);
      Added(l, l', h) && Explains(h, turns, channel, err, r)
    decreases turns
  {
    if turns == 0 || !channel {
      h := [];
      return;
    }
    if b.publish(l.history) == Sent {
      h := [Published(Sent)];
      assert h[..0] == [];
      return;
    }
    var (l', channel', err') := Turned(b, configured, l);
    var turn := TurnMeaning(b, configured, l);
    var rest := RetryMeaning(b, configured, l', turns - 1, channel', err');
    TurnThenRest(turn, rest, turns, channel', err', Retried(b, configured, l, turns, true, err).1);
    h := turn + rest;
    assert l.history + turn + rest == l.history + h;
  }

  // ----- the protocol, request by request -----

  /** What the loop asks of the broker next. */
  datatype Ask = Publish | Probe | Dial | Open | Nothing

  /** Where a loop of so many turns starts: the connection string, the link, and what the broker will answer. */
  datatype Setup = Setup(broker: Broker, configured: bool, link: Link, turns: nat)

  /** The connection object is the one that the last dial handed back. */
  function HasConn(s: Setup, h: History): bool {
    if h == [] then s.link.hasConn
    else
      match h[|h| - 1]
      case Dialled(Connected) => true
      case Dialled(Failed(conn)) => conn
      case _ => HasConn(s, h[..|h| - 1])
  }

  function DialsInARow(h: History): nat {
    if h != [] && h[|h| - 1].Dialled? then 1 + DialsInARow(h[..|h| - 1]) else 0
  }

  function NextTurn(s: Setup, h: History): Ask {
    if Publishes(h) < s.turns then Publish else Nothing
  }

  /** The next request, decided by the last answer. */
  function NextAsk(s: Setup, h: History): Ask {
    if h == [] then NextTurn(s, h)
    else
      match h[|h| - 1]
      case Published(Sent) => Nothing
      case Published(Refused) => NextTurn(s, h)
      case Published(NotOpen) =>
        if HasConn(s, h) then Probe else if s.configured then Dial else NextTurn(s, h)
      case Probed(false) => Open
      case Probed(true) => if s.configured then Dial else NextTurn(s, h)
      case Dialled(Connected) => Open
      case Dialled(Failed(_)) => if DialsInARow(h) < 3 then Dial else NextTurn(s, h)
      case Opened(true) => NextTurn(s, h)
      case Opened(false) => Nothing
  }

  /** `e` is the broker's answer to the next request. */
  predicate Answers(s: Setup, h: History, e: Event) {
    var past := s.link.history + h;
    match NextAsk(s, h)
    case Publish => e == Published(s.broker.publish(past))
    case Probe => e == Probed(s.broker.isClosed(past))
    case Dial => e == Dialled(s.broker.dial(past))
    case Open => e == Opened(s.broker.open(past))
    case Nothing => false
  }

  /** Every event is the answer to the request that was due. */
  predicate InProtocol(s: Setup, h: History) {
    h == [] || (InProtocol(s, h[..|h| - 1]) && Answers(s, h[..|h| - 1], h[|h| - 1]))
  }

  lemma {:induction false} InProtocolAt(s: Setup, h: History, i: nat)
    requires InProtocol(s, h) && i < |h|
    ensures Answers(s, h[..i], h[i])
  {
    var g := h[..|h| - 1];
    if i < |g| {
      InProtocolAt(s, g, i);
      assert g[..i] == h[..i];
    }
  }

  /** The loop has got to `l`, and everything on the way there was in the protocol. */
  predicate At(s: Setup, h: History, l: Link) {
    InProtocol(s, h) && l == Link(HasConn(s, h), s.link.history + h)
  }

  /** The protocol's view of one more event. */
  lemma {:induction false} OneMore(s: Setup, h: History, e: Event)
    ensures HasConn(s, h + [e]) == if e.Dialled? then HandsBackConn(e.dial) else HasConn(s, h)
    ensures Publishes(h + [e]) == Publishes(h) + if e.Published? then 1 else 0
    ensures DialsInARow(h + [e]) == if e.Dialled? then 1 + DialsInARow(h) else 0
  {
    assert (h + [e])[..|h|] == h;
  }

  lemma {:induction false} OneAnswer(s: Setup, h: History, l: Link, e: Event)
    requires At(s, h, l) && Answers(s, h, e)
    ensures At(s, h + [e], Link(if e.Dialled? then HandsBackConn(e.dial) else l.hasConn, l.history + [e]))
  {
    OneMore(s, h, e);
    assert (h + [e])[..|h|] == h;
    assert l.history + [e] == s.link.history + (h + [e]);
  }

  lemma {:induction false} OneDial(s: Setup, h: History, l: Link) returns (g: History, l': Link)
    requires At(s, h, l) && NextAsk(s, h) == Dial
    ensures var dial := s.broker.dial(l.history);
      && g == h + [Dialled(dial)] && l' == Link(HandsBackConn(dial), l.history + [Dialled(dial)]) && At(s, g, l')
      && Publishes(g) == Publishes(h) && DialsInARow(g) == 1 + DialsInARow(h)
      && NextAsk(s, g) == if dial == Connected then Open else if DialsInARow(g) < 3 then Dial else NextTurn(s, g)
  {
    var dial := s.broker.dial(l.history);
    g, l' := h + [Dialled(dial)], Link(HandsBackConn(dial), l.history + [Dialled(dial)]);
    OneAnswer(s, h, l, Dialled(dial));
    OneMore(s, h, Dialled(dial));
  }

  lemma {:induction false} DialSteps(s: Setup, h: History, l: Link, tries: nat) returns (g: History)
    requires At(s, h, l) && tries + DialsInARow(h) == 3
    requires NextAsk(s, h) == if tries == 0 then NextTurn(s, h) else Dial
    ensures var (l', up) := Redialled(s.broker, l, tries);
      h <= g && At(s, g, l') && Publishes(g) == Publishes(h) && NextAsk(s, g) == if up then Open else NextTurn(s, g)
    decreases tries
  {
    if tries == 0 {
      g := h;
    } else {
      var g1, l1 := OneDial(s, h, l);
      if s.broker.dial(l.history) == Connected {
        g := g1;
      } else {
        assert Redialled(s.broker, l, tries) == Redialled(s.broker, l1, tries - 1);
        g := DialSteps(s, g1, l1, tries - 1);
      }
    }
  }

  lemma {:induction false} ReconnectSteps(s: Setup, h: History, l: Link) returns (g: History)
    requires At(s, h, l) && DialsInARow(h) == 0
    requires NextAsk(s, h) == if s.configured then Dial else NextTurn(s, h)
    ensures var (l', up) := Reconnected(s.broker, s.configured, l);
      h <= g && At(s, g, l') && Publishes(g) == Publishes(h) && NextAsk(s, g) == if up then Open else NextTurn(s, g)
  {
    if s.configured {
      g := DialSteps(s, h, l, 3);
    } else {
      g := h;
    }
  }

  lemma {:induction false} EnsureSteps(s: Setup, h: History, l: Link) returns (g: History)
    requires At(s, h, l) && h != [] && h[|h| - 1] == Published(NotOpen)
    ensures var (l', up) := Ensured(s.broker, s.configured, l);
      h <= g && At(s, g, l') && Publishes(g) == Publishes(h) && NextAsk(s, g) == if up then Open else NextTurn(s, g)
  {
    if l.hasConn {
      var closed := s.broker.isClosed(l.history);
      OneAnswer(s, h, l, Probed(closed));
      g := h + [Probed(closed)];
      if closed {
        g := ReconnectSteps(s, g, Link(l.hasConn, l.history + [Probed(closed)]));
      }
    } else {
      g := ReconnectSteps(s, h, l);
    }
  }

  lemma {:induction false} TurnSteps(s: Setup, h: History, l: Link) returns (g: History)
    requires At(s, h, l) && NextAsk(s, h) == Publish && s.broker.publish(l.history) != Sent
    ensures var (l', channel, _) := Turned(s.broker, s.configured, l);
      && h <= g && At(s, g, l') && Publishes(g) == Publishes(h) + 1
      && NextAsk(s, g) == if channel then NextTurn(s, g) else Nothing
  {
    var ack := s.broker.publish(l.history);
    OneAnswer(s, h, l, Published(ack));
    g := h + [Published(ack)];
    if ack == NotOpen {
      var l1 := l.(history := l.history + [Published(ack)]);
      g := EnsureSteps(s, g, l1);
      var (l2, up) := Ensured(s.broker, s.configured, l1);
      if up {
        var ok := s.broker.open(l2.history);
        OneAnswer(s, g, l2, Opened(ok));
        g := g + [Opened(ok)];
      }
    }
  }

  lemma {:induction false} LoopSteps(s: Setup, h: History, l: Link, left: nat, channel: bool, err: bool)
      returns (g: History)
    requires At(s, h, l) && Publishes(h) + left == s.turns
    requires NextAsk(s, h) == if channel then NextTurn(s, h) else Nothing
    ensures var (l', _) := Retried(s.broker, s.configured, l, left, channel, err);
      h <= g && At(s, g, l') && NextAsk(s, g) == Nothing
    decreases left
  {
    if left == 0 || !channel {
      g := h;
    } else if s.broker.publish(l.history) == Sent {
      OneAnswer(s, h, l, Published(Sent));
      g := h + [Published(Sent)];
    } else {
      var g1 := TurnSteps(s, h, l);
      var (l', channel', err') := Turned(s.broker, s.configured, l);
      g := LoopSteps(s, g1, l', left - 1, channel', err');
    }
  }

  /**
   What `publishWithRetry` sends, request by request, for every broker: each event is the broker's
   answer to the request that the protocol makes at that point, and the loop ends exactly where the
   protocol makes none. Together with `PublishResult` this fixes the whole call.
   */
  lemma {:induction false} FollowsProtocol(s: Setup)
    ensures var (l', _) := Retried(s.broker, s.configured, s.link, s.turns, true, false);
      && s.link.history <= l'.history
      && var h := l'.history[|s.link.history|..];
         InProtocol(s, h) && NextAsk(s, h) == Nothing && l'.hasConn == HasConn(s, h)
  {
    assert s.link.history + [] == s.link.history;
    var h := LoopSteps(s, [], s.link, s.turns, true, false);
    var (l', _) := Retried(s.broker, s.configured, s.link, s.turns, true, false);
    assert l'.history[|s.link.history|..] == h;
  }

  /** A channel is opened right after the connection was found open or came back, and only then. */
  ghost predicate OpensWhenConnected(h: History) {
    && (forall i | 0 <= i < |h| && (h[i] == Probed(false) || h[i] == Dialled(Connected)) ::
          i + 1 < |h| && h[i + 1].Opened?)
    && (forall i | 0 <= i < |h| && h[i].Opened? ::
          i > 0 && (h[i - 1] == Probed(false) || h[i - 1] == Dialled(Connected)))
  }

  lemma {:induction false} ProtocolOpens(s: Setup, h: History)
    requires InProtocol(s, h) && NextAsk(s, h) == Nothing
    ensures OpensWhenConnected(h)
  {
    forall i | 0 <= i < |h|
      ensures h[i] == Probed(false) || h[i] == Dialled(Connected) ==> i + 1 < |h| && h[i + 1].Opened?
    {
      if i + 1 < |h| {
        InProtocolAt(s, h, i + 1);
        assert h[..i + 1][i] == h[i];
      }
    }
    forall i | 0 <= i < |h| && h[i].Opened?
      ensures i > 0 && (h[i - 1] == Probed(false) || h[i - 1] == Dialled(Connected))
    {
      InProtocolAt(s, h, i);
    }
  }

  /**
   The meaning of what `publishWithRetry` returns, for every broker and every number of retries. In
   particular nil does not mean published: see `FalseSuccess`.
   */
  lemma {:induction false} PublishResult(b: Broker, configured: bool, l: Link, maxRetries: nat)
    ensures var (l', r) := Retried(b, configured, l, maxRetries, true, false);
      && l.history <= l'.history
      && var h := l'.history[|l.history|..];
         && (r == Nil <==> LastAck(h) == Some(Sent) || FalseSuccess(h, maxRetries) || maxRetries == 0)
         && (r == Error ==> Publishes(h) == maxRetries)
         && TouchedOnlyIfClosed(h)
         && (r == Crash <==> Publishes(h) < maxRetries && h != [] && h[|h| - 1] == Opened(false))
         && (forall i :: 0 <= i < |h| && h[i] == Published(Sent) ==> i == |h| - 1 && r == Nil)
         && (maxRetries > 0 ==> Publishes(h) > 0) && Publishes(h) <= maxRetries
         && Dials(h) <= 3 * maxRetries
         && OpensWhenConnected(h)
  {
    FollowsProtocol(Setup(b, configured, l, maxRetries));
    var h := RetryMeaning(b, configured, l, maxRetries, true, false);
    var (l', r) := Retried(b, configured, l, maxRetries, true, false);
    assert l'.history[|l.history|..] == h;
    ProtocolOpens(Setup(b, configured, l, maxRetries), h);
    if h != [] {
      RestHasAck(h);
    }
    forall i | 0 <= i < |h| && h[i] == Published(Sent)
      ensures LastAck(h) == Some(Sent)
    {
      assert i == |h| - 1;
    }
  }

  /** A broker that keeps closing the channel but lets it be reopened: nil, and nothing was sent. */
  lemma {:induction false} NilWithoutPublish(maxRetries: nat)
    requires maxRetries > 0
    ensures var b := Broker(_ => NotOpen, _ => false, _ => Connected, _ => true);
      var (l', r) := Retried(b, true, Link(true, []), maxRetries, true, false);
      r == Nil && Published(Sent) !in l'.history
  {
    var b := Broker(_ => NotOpen, _ => false, _ => Connected, _ => true);
    NeverSent(b, Link(true, []), maxRetries, false);
  }

  lemma {:induction false} NeverSent(b: Broker, l: Link, turns: nat, err: bool)
    requires forall h :: b.publish(h) == NotOpen && !b.isClosed(h) && b.open(h)
    requires l.hasConn && Published(Sent) !in l.history
    requires turns > 0 || !err
    ensures var (l', r) := Retried(b, true, l, turns, true, err);
      r == Nil && Published(Sent) !in l'.history
    decreases turns
  {
    if turns > 0 {
      var l1 := l.(history := l.history + [Published(NotOpen)]);
      var l2 := l1.(history := l1.history + [Probed(false)]);
      assert Ensured(b, true, l1) == (l2, true);
      var l3 := l2.(history := l2.history + [Opened(true)]);
      NeverSent(b, l3, turns - 1, false);
    }
  }
}
