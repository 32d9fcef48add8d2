/**
 The connection pool of the client side: one request and one response over a
 pooled connection, with a single reconnect when the connection breaks.
 */
module Proxy {
  import opened Common
  import opened LogFormat
  import opened Worker

  // ---------- the network ----------

  /** How an attempt ends, as the caller's socket reports it. */
  datatype End = SendBroken | SendFailed | ReceiveBroken | ReceiveFailed | TimedOut | Received

  /** One attempt: whether a missing connection can be made, whether the request reaches the server, how it ends. */
  datatype Attempt = Attempt(connects: bool, delivered: bool, end: End)

  /** What the network does in the course of one call. */
  type Weather = nat -> Attempt

  /** A pooled connection and the responses on it that no one has read yet. */
  datatype Link = Down | Up(unread: seq<ZPack>)

  datatype NetError = ConnectionFailed | Broken | SendError | ReceiveError | Timeout

  /** The outcome of a call: the connection, the server's table, the result and how often the server ran the request. */
  datatype Outcome = Outcome(link: Link, table: Table, result: Result<ZPack, NetError>, deliveries: nat)

  const MAX_RECONNECT_ATTEMPTS := 1

  /** What one attempt does before it ends. */
  datatype Sent = Sent(unread: seq<ZPack>, table: Table, deliveries: nat)

  function Send(unread: seq<ZPack>, m: Table, request: ZPack, delivered: bool): Sent {
    if delivered then Sent(unread + [Handle(m, request).1], Handle(m, request).0, 1) else Sent(unread, m, 0)
  }

  predicate Breaks(end: End) {
    end.SendBroken? || end.ReceiveBroken?
  }

  /** An attempt that does not break the connection ends the call. A response can be received only if one is there. */
  function Ended(s: Sent, end: End): Outcome
    requires !Breaks(end)
  {
    match end
    case SendFailed => Outcome(Up(s.unread), s.table, Err(SendError), s.deliveries)
    case ReceiveFailed => Outcome(Up(s.unread), s.table, Err(ReceiveError), s.deliveries)
    case TimedOut => Outcome(Up(s.unread), s.table, Err(Timeout), s.deliveries)
    case Received =>
      if s.unread == [] then Outcome(Up([]), s.table, Err(Timeout), s.deliveries)
      else Outcome(Up(s.unread[1..]), s.table, Ok(s.unread[0]), s.deliveries)
  }

  function Unread(link: Link): seq<ZPack> {
    if link.Up? then link.unread else []
  }

  /** What happens on a connection that is there. */
  function Spoken(unread: seq<ZPack>, m: Table, request: ZPack, a: Attempt): Outcome {
    var s := Send(unread, m, request, a.delivered);
    if Breaks(a.end) then Outcome(Down, s.table, Err(Broken), s.deliveries) else Ended(s, a.end)
  }

  /** One attempt. */
  function Try(link: Link, m: Table, request: ZPack, a: Attempt): Outcome {
    if link.Down? && !a.connects then Outcome(Down, m, Err(ConnectionFailed), 0)
    else Spoken(Unread(link), m, request, a)
  }

  /** A call after `attempts` broken ones: a broken connection is dropped and made anew, once. */
  function Exchange(link: Link, m: Table, request: ZPack, weather: Weather, attempts: nat): Outcome
    requires attempts <= MAX_RECONNECT_ATTEMPTS
    decreases MAX_RECONNECT_ATTEMPTS - attempts
  {
    var o := Try(link, m, request, weather(attempts));
    if o.result != Err(Broken) || attempts + 1 > MAX_RECONNECT_ATTEMPTS then o else
      After(o.deliveries, Exchange(Down, o.table, request, weather, attempts + 1))
  }

  function After(deliveries: nat, o: Outcome): Outcome {
    o.(deliveries := deliveries + o.deliveries)
  }

  /** The whole call. */
  function RoundTrip(link: Link, m: Table, request: ZPack, weather: Weather): Outcome {
    Exchange(link, m, request, weather, 0)
  }

  // ---------- what a call does ----------

  function Deliver(m: Table, request: ZPack, n: nat): Table {
    if n == 0 then m else Handle(Deliver(m, request, n - 1), request).0
  }

  lemma {:induction false} DeliverMore(m: Table, request: ZPack, i: nat, n: nat)
    ensures Deliver(Deliver(m, request, i), request, n) == Deliver(m, request, i + n)
  {
    hide Handle;
    if n > 0 {
      DeliverMore(m, request, i, n - 1);
    }
  }

  /** No response is waiting to be read: a new connection, or one on which every request was answered. */
  predicate Clean(link: Link) {
    Unread(link) == []
  }

  /** The response the server gave to the last of n deliveries. */
  function LastResponse(m: Table, request: ZPack, n: nat): ZPack
    requires n > 0
  {
    Handle(Deliver(m, request, n - 1), request).1
  }

  lemma TryFacts(link: Link, m: Table, request: ZPack, a: Attempt)
    ensures var o := Try(link, m, request, a);
            && o.deliveries <= 1 && o.table == Deliver(m, request, o.deliveries)
            && (o.result == Err(Broken) ==> o.link == Down)
            && (o.result.Ok? ==> IsAnswer(link, m, request, o.deliveries, o.result.value))
            && (Clean(link) && o.result.Ok? ==> o.link == Up([]) && o.deliveries == 1)
            && forall u :: u in Unread(o.link) ==> u in Unread(link) || u == Handle(m, request).1
  {
    hide Handle;
    assert Deliver(m, request, 1) == Handle(Deliver(m, request, 0), request).0;
  }

  /** The responses a call may be given: the first one that was waiting, or the server's to the last delivery. */
  predicate IsAnswer(link: Link, m: Table, request: ZPack, deliveries: nat, response: ZPack) {
    || (!Clean(link) && response == Unread(link)[0])
    || (deliveries > 0 && response == LastResponse(m, request, deliveries))
  }

  /** The server runs the request at most twice, and its table shows just that. */
  lemma AtMostTwoDeliveries(link: Link, m: Table, request: ZPack, weather: Weather)
    ensures var o := RoundTrip(link, m, request, weather);
            o.deliveries <= 2 && o.table == Deliver(m, request, o.deliveries)
  {
    hide Try, Handle, Deliver, IsAnswer;
    var first := Try(link, m, request, weather(0));
    var second := Try(Down, first.table, request, weather(1));
    TryFacts(link, m, request, weather(0));
    TryFacts(Down, first.table, request, weather(1));
    DeliverMore(m, request, first.deliveries, second.deliveries);
    assert Exchange(Down, first.table, request, weather, 1) == second;
  }

  /**
   A call is answered with the first response that was waiting on the connection or, after a delivery, with the
   server's to the last delivery of this very request; the latter on a clean connection, which then stays clean.
   */
  lemma CallIsAnswered(link: Link, m: Table, request: ZPack, weather: Weather)
    ensures var o := RoundTrip(link, m, request, weather);
            && (o.result.Ok? ==> IsAnswer(link, m, request, o.deliveries, o.result.value))
            && (Clean(link) && o.result.Ok? ==>
                  o.link == Up([]) && o.deliveries > 0 && o.result.value == LastResponse(m, request, o.deliveries))
  {
    hide Try, Handle, Deliver;
    var first := Try(link, m, request, weather(0));
    var second := Try(Down, first.table, request, weather(1));
    TryFacts(link, m, request, weather(0));
    TryFacts(Down, first.table, request, weather(1));
    assert Exchange(Down, first.table, request, weather, 1) == second;
    DeliverNone(m, request);
    DeliverNone(first.table, request);
    assert Clean(Down);
  }

  /** What waits on the connection after a call waited there before or answers a delivery of this request. */
  lemma UnreadAfter(link: Link, m: Table, request: ZPack, weather: Weather, u: ZPack)
    requires u in Unread(RoundTrip(link, m, request, weather).link)
    ensures u in Unread(link) || exists t :: u == Handle(t, request).1
  {
    hide Try, Handle, Deliver, IsAnswer;
    var first := Try(link, m, request, weather(0));
    TryFacts(link, m, request, weather(0));
    TryFacts(Down, first.table, request, weather(1));
    assert Exchange(Down, first.table, request, weather, 1) == Try(Down, first.table, request, weather(1));
  }

  lemma DeliverNone(m: Table, request: ZPack)
    ensures Deliver(m, request, 0) == m
  {
  }

  lemma {:induction false} DeliverIsOnce(m: Table, request: ZPack, n: nat)
    requires 1 <= n <= 2 && (request.opcode != APPEND || request.key == "")
    ensures Deliver(m, request, n) == Handle(m, request).0
  {
    assert Deliver(m, request, 1) == Handle(Deliver(m, request, 0), request).0;
    hide Handle;
    TwiceSameStore(m, request);
  }

  // ---------- exactly what a call comes to ----------

  /** What waits on a connection after a request was sent, before anything is read. */
  function Waiting(unread: seq<ZPack>, m: Table, request: ZPack, delivered: bool): seq<ZPack> {
    unread + if delivered then [Handle(m, request).1] else []
  }

  function TableAfterSend(m: Table, request: ZPack, delivered: bool): Table {
    if delivered then Handle(m, request).0 else m
  }

  /**
   A conversation that does not break ends the call: with an error and everything unread, or with the first response.
   */
  ghost predicate EndsWith(o: Outcome, unread: seq<ZPack>, m: Table, request: ZPack, a: Attempt, earlier: nat) {
    var waiting := Waiting(unread, m, request, a.delivered);
    && o.table == TableAfterSend(m, request, a.delivered)
    && o.deliveries == earlier + (if a.delivered then 1 else 0)
    && (a.end == SendFailed ==> o.result == Err(SendError) && o.link == Up(waiting))
    && (a.end == ReceiveFailed ==> o.result == Err(ReceiveError) && o.link == Up(waiting))
    && (a.end == TimedOut || (a.end == Received && waiting == []) ==> o.result == Err(Timeout) && o.link == Up(waiting))
    && (a.end == Received && waiting != [] ==> o.result == Ok(waiting[0]) && o.link == Up(waiting[1..]))
  }

  /** There is a connection to speak on. */
  predicate Connected(link: Link, a: Attempt) {
    link.Up? || a.connects
  }

  lemma SpokenEndsWith(unread: seq<ZPack>, m: Table, request: ZPack, a: Attempt)
    ensures var o := Spoken(unread, m, request, a);
            if Breaks(a.end)
            then o == Outcome(Down, TableAfterSend(m, request, a.delivered), Err(Broken), if a.delivered then 1 else 0)
            else EndsWith(o, unread, m, request, a, 0)
  {
    hide Handle;
    assert unread + [] == unread;
  }

  lemma FirstAttemptEnds(link: Link, m: Table, request: ZPack, weather: Weather)
    requires !(Connected(link, weather(0)) && Breaks(weather(0).end))
    ensures RoundTrip(link, m, request, weather) == Try(link, m, request, weather(0))
  {
    hide Handle;
  }

  lemma SecondAttemptFollows(link: Link, m: Table, request: ZPack, weather: Weather)
    requires Connected(link, weather(0)) && Breaks(weather(0).end)
    ensures var m1 := TableAfterSend(m, request, weather(0).delivered);
            RoundTrip(link, m, request, weather)
            == After(if weather(0).delivered then 1 else 0, Try(Down, m1, request, weather(1)))
  {
    SpokenEndsWith(Unread(link), m, request, weather(0));
    hide Handle, Spoken;
    var m1 := TableAfterSend(m, request, weather(0).delivered);
    assert Exchange(Down, m1, request, weather, 1) == Try(Down, m1, request, weather(1));
  }

  /**
   Every way a call can go. Without a connection, a refused one ends it, whether there was a break before or not. A
   conversation that does not break ends it. After a first break there is a second attempt over a new connection, and
   a second break is reported.
   */
  lemma CallExactly(link: Link, m: Table, request: ZPack, weather: Weather)
    ensures var o, a, b := RoundTrip(link, m, request, weather), weather(0), weather(1);
            var m1, first := TableAfterSend(m, request, a.delivered), if a.delivered then 1 else 0;
            && (!Connected(link, a) ==> o == Outcome(Down, m, Err(ConnectionFailed), 0))
            && (Connected(link, a) && !Breaks(a.end) ==> EndsWith(o, Unread(link), m, request, a, 0))
            && (Connected(link, a) && Breaks(a.end) && !b.connects ==>
                  o == Outcome(Down, m1, Err(ConnectionFailed), first))
            && (Connected(link, a) && Breaks(a.end) && b.connects && Breaks(b.end) ==>
                  o == Outcome(Down, TableAfterSend(m1, request, b.delivered), Err(Broken),
                               first + if b.delivered then 1 else 0))
            && (Connected(link, a) && Breaks(a.end) && b.connects && !Breaks(b.end) ==>
                  EndsWith(o, [], m1, request, b, first))
  {
    var a, b := weather(0), weather(1);
    var m1 := TableAfterSend(m, request, a.delivered);
    SpokenEndsWith(Unread(link), m, request, a);
    SpokenEndsWith([], m1, request, b);
    if Connected(link, a) && Breaks(a.end) {
      SecondAttemptFollows(link, m, request, weather);
    } else {
      FirstAttemptEnds(link, m, request, weather);
    }
    hide RoundTrip, Spoken, Handle, Waiting, TableAfterSend;
  }

  /** The same weather at first, and another afterwards. */
  function Then(first: Attempt, second: Attempt): Weather {
    (i: nat) => if i == 0 then first else second
  }

  /** There is a second attempt exactly when the first one spoke on a connection and that connection broke. */
  lemma SecondAttemptExactly(link: Link, m: Table, request: ZPack, a: Attempt)
    ensures (exists b, b' :: RoundTrip(link, m, request, Then(a, b)) != RoundTrip(link, m, request, Then(a, b')))
            <==> Connected(link, a) && Breaks(a.end)
  {
    var refused, calm := Attempt(false, false, Received), Attempt(true, true, Received);
    CallExactly(link, m, request, Then(a, refused));
    CallExactly(link, m, request, Then(a, calm));
    hide RoundTrip, Handle, TableAfterSend, Waiting;
    if Connected(link, a) && Breaks(a.end) {
      assert RoundTrip(link, m, request, Then(a, refused)) != RoundTrip(link, m, request, Then(a, calm));
    } else {
      forall b, b' ensures RoundTrip(link, m, request, Then(a, b)) == RoundTrip(link, m, request, Then(a, b')) {
        FirstAttemptEnds(link, m, request, Then(a, b));
        FirstAttemptEnds(link, m, request, Then(a, b'));
      }
    }
  }

  // ---------- when retries are invisible ----------

  /** An answered call left the table that one delivery leaves. */
  predicate AppliedOnce(link: Link, m: Table, request: ZPack, weather: Weather) {
    var o := RoundTrip(link, m, request, weather);
    o.result.Ok? ==> o.table == Handle(m, request).0
  }

  /** An answered call cannot be told from one delivery. */
  predicate Invisible(link: Link, m: Table, request: ZPack, weather: Weather) {
    var o := RoundTrip(link, m, request, weather);
    o.result.Ok? ==> o.table == Handle(m, request).0 && o.result.value == Handle(m, request).1
  }

  /** Requests that leave every table as it is. */
  predicate ReadOnly(r: ZPack) {
    r.key == "" || r.opcode in [LOOKUP, STATE_CHANGE_CALLBACK] || !Known(r.opcode)
  }

  /** Requests that are answered alike whatever the table. */
  predicate Constant(r: ZPack) {
    r.key == "" || !Known(r.opcode)
  }

  /**
   Over a clean connection, or for requests that change nothing, what an answered call did is a single delivery but for
   APPEND.
   */
  lemma AnsweredIsApplied(link: Link, m: Table, request: ZPack, weather: Weather)
    requires request.opcode != APPEND || request.key == ""
    requires Clean(link) || ReadOnly(request)
    ensures AppliedOnce(link, m, request, weather)
    ensures RoundTrip(link, m, request, weather).table in [m, Handle(m, request).0]
  {
    hide RoundTrip, Handle, Deliver;
    var o := RoundTrip(link, m, request, weather);
    AtMostTwoDeliveries(link, m, request, weather);
    CallIsAnswered(link, m, request, weather);
    DeliverNone(m, request);
    if o.deliveries > 0 {
      DeliverIsOnce(m, request, o.deliveries);
    } else if !Clean(link) {
      ReadOnlyKeeps(m, request);
    }
  }

  lemma ReadOnlyKeeps(m: Table, r: ZPack)
    ensures ReadOnly(r) ==> Handle(m, r).0 == m
  {
  }

  /** On a clean connection, an answered call cannot be told from a single delivery if the request is retry-safe. */
  lemma AnsweredIsInvisible(link: Link, m: Table, request: ZPack, weather: Weather)
    requires RetrySafe(request)
    requires Clean(link) || (Constant(request) && Unread(link)[0] == Handle(map[], request).1)
    ensures Invisible(link, m, request, weather)
  {
    hide RoundTrip, Handle, Deliver;
    var o := RoundTrip(link, m, request, weather);
    AnsweredIsApplied(link, m, request, weather);
    AtMostTwoDeliveries(link, m, request, weather);
    CallIsAnswered(link, m, request, weather);
    DeliverNone(m, request);
    TwiceSameResponse(m, request);
    if Constant(request) {
      ConstantAnswer(m, request);
    }
    if o.deliveries > 0 {
      DeliverIsOnce(m, request, 1);
    }
  }

  lemma ConstantAnswer(m: Table, r: ZPack)
    requires Constant(r)
    ensures Handle(m, r).1 == Handle(map[], r).1 && RetrySafe(r)
  {
  }

  /** Weather in which every attempt goes the same way. */
  function Always(a: Attempt): Weather {
    (i: nat) => a
  }

  /** The request arrives, the connection breaks before the answer, and the request arrives again over a new one. */
  function Twice(): Weather {
    (i: nat) => Attempt(true, true, if i == 0 then ReceiveBroken else Received)
  }

  lemma TwiceOutcome(link: Link, m: Table, request: ZPack)
    ensures var once := Handle(m, request).0;
            RoundTrip(link, m, request, Twice())
              == Outcome(Up([]), Handle(once, request).0, Ok(Handle(once, request).1), 2)
  {
    hide Handle;
    var once := Handle(m, request).0;
    var r := Handle(once, request).1;
    assert Try(link, m, request, Twice()(0)) == Outcome(Down, once, Err(Broken), 1);
    assert ([] + [r])[0] == r && ([] + [r])[1..] == [];
    assert Try(Down, once, request, Twice()(1)) == Outcome(Up([]), Handle(once, request).0, Ok(r), 1);
    assert Exchange(Down, once, request, Twice(), 1) == Try(Down, once, request, Twice()(1));
  }

  /** The request is lost, and a response that was waiting is taken for its answer. */
  lemma StaleOutcome(link: Link, m: Table, request: ZPack)
    requires !Clean(link)
    ensures RoundTrip(link, m, request, Always(Attempt(true, false, Received)))
            == Outcome(Up(Unread(link)[1..]), m, Ok(Unread(link)[0]), 0)
  {
  }

  /**
   That an answered call applied its request once can be relied on, whatever the network and the table, exactly when
   the request is not an APPEND and either no response is waiting on the connection or the request changes nothing.
   */
  lemma AppliedOnceExactly(link: Link, r: ZPack)
    ensures (forall m: Table, weather: Weather :: AppliedOnce(link, m, r, weather))
            <==> (r.opcode != APPEND || r.key == "") && (Clean(link) || ReadOnly(r))
  {
    if r.opcode == APPEND && r.key != "" {
      var m: Table := map[];
      TwiceSameStore(m, r);
      TwiceOutcome(link, m, r);
      assert !AppliedOnce(link, m, r, Twice());
    } else if !Clean(link) && !ReadOnly(r) {
      var m: Table := if r.opcode == REMOVE then map[r.key := ""] else map[];
      StaleOutcome(link, m, r);
      assert (r.key in Handle(m, r).0) != (r.key in m);
      assert !AppliedOnce(link, m, r, Always(Attempt(true, false, Received)));
    } else {
      forall m: Table, weather: Weather ensures AppliedOnce(link, m, r, weather) {
        AnsweredIsApplied(link, m, r, weather);
      }
    }
  }

  /**
   That an answered call cannot be told from a single delivery, whatever the network and the table, holds exactly when
   the request is retry-safe and no response is waiting, or the one waiting is the request's only possible answer.
   */
  lemma RetriesAreInvisible(link: Link, r: ZPack)
    ensures (forall m: Table, weather: Weather :: Invisible(link, m, r, weather))
            <==> RetrySafe(r) && (Clean(link) || (Constant(r) && Unread(link)[0] == Handle(map[], r).1))
  {
    if !RetrySafe(r) {
      VisibleRetry(link, r);
    } else if !Clean(link) && !(Constant(r) && Unread(link)[0] == Handle(map[], r).1) {
      VisibleStale(link, r);
    } else {
      forall m: Table, weather: Weather ensures Invisible(link, m, r, weather) {
        AnsweredIsInvisible(link, m, r, weather);
      }
    }
  }

  lemma VisibleRetry(link: Link, r: ZPack)
    requires !RetrySafe(r)
    ensures exists m: Table, weather: Weather :: !Invisible(link, m, r, weather)
  {
    var m: Table := map[r.key := ""];
    TwiceSameStore(m, r);
    TwiceSameResponse(m, r);
    hide Handle;
    TwiceOutcome(link, m, r);
    assert !Invisible(link, m, r, Twice());
  }

  lemma VisibleStale(link: Link, r: ZPack)
    requires RetrySafe(r) && !Clean(link) && !(Constant(r) && Unread(link)[0] == Handle(map[], r).1)
    ensures exists m: Table, weather: Weather :: !Invisible(link, m, r, weather)
  {
    var m0: Table, m1: Table := map[], map[r.key := r.val];
    StaleOutcome(link, m0, r);
    StaleOutcome(link, m1, r);
    var w := Always(Attempt(true, false, Received));
    if !Constant(r) && r.opcode in [LOOKUP, STATE_CHANGE_CALLBACK] {
      AnswersDiffer(r);
      assert !Invisible(link, m0, r, w) || !Invisible(link, m1, r, w);
    } else {
      assert !Invisible(link, m0, r, w);
    }
  }

  lemma AnswersDiffer(r: ZPack)
    requires r.key != "" && r.opcode in [LOOKUP, STATE_CHANGE_CALLBACK]
    ensures Handle(map[], r).1 != Handle(map[r.key := r.val], r).1
  {
    Statuses();
    hide IsSuccess;
  }

  /**
   A success means that the request was delivered, whatever the network does, exactly when the connection is clean.
   */
  lemma SuccessMeansDelivered(link: Link, m: Table, request: ZPack)
    ensures (forall weather: Weather :: Delivers(link, m, request, weather)) <==> Clean(link)
  {
    if Clean(link) {
      forall weather: Weather ensures Delivers(link, m, request, weather) {
        CallIsAnswered(link, m, request, weather);
      }
    } else {
      StaleOutcome(link, m, request);
      assert !Delivers(link, m, request, Always(Attempt(true, false, Received)));
    }
  }

  predicate Delivers(link: Link, m: Table, request: ZPack, weather: Weather) {
    var o := RoundTrip(link, m, request, weather);
    o.result.Ok? ==> o.deliveries > 0
  }

  /**
   How a connection gets unclean: a call that times out after its request was delivered leaves the response behind,
   and the next call on the pooled connection is given that response instead of its own.
   */
  lemma TimeoutShiftsResponses(m: Table, first: ZPack, second: ZPack)
    ensures var late := RoundTrip(Up([]), m, first, Always(Attempt(true, true, TimedOut)));
            var next := RoundTrip(late.link, late.table, second, Always(Attempt(true, true, Received)));
            && late.result == Err(Timeout)
            && next.result == Ok(Handle(m, first).1)
            && next.link == Up([Handle(late.table, second).1])
  {
    hide Handle;
    var r := Handle(m, first).1;
    assert [] + [r] == [r];
    var late := RoundTrip(Up([]), m, first, Always(Attempt(true, true, TimedOut)));
    assert late.link == Up([r]);
    assert ([r] + [Handle(late.table, second).1])[1..] == [Handle(late.table, second).1];
  }

  // ---------- one-way sends ----------

  /** The outcome of a send that waits for no response. */
  datatype Posting = Posting(link: Link, table: Table, result: Result<(), NetError>, deliveries: nat)

  /** One attempt; once the request is written, nothing is read. */
  function PostOnce(link: Link, m: Table, request: ZPack, a: Attempt): Posting {
    if link.Down? && !a.connects then Posting(Down, m, Err(ConnectionFailed), 0) else
      var s := Send(Unread(link), m, request, a.delivered);
      if a.end.SendBroken? then Posting(Down, s.table, Err(Broken), s.deliveries)
      else Posting(Up(s.unread), s.table, if a.end.SendFailed? then Err(SendError) else Ok(()), s.deliveries)
  }

  lemma PostBreaks(link: Link, m: Table, request: ZPack, a: Attempt)
    ensures PostOnce(link, m, request, a).result == Err(Broken) ==> PostOnce(link, m, request, a).link == Down
  {
  }

  function PostFrom(link: Link, m: Table, request: ZPack, weather: Weather, attempts: nat): Posting
    requires attempts <= MAX_RECONNECT_ATTEMPTS
    decreases MAX_RECONNECT_ATTEMPTS - attempts
  {
    var p := PostOnce(link, m, request, weather(attempts));
    if p.result != Err(Broken) || attempts + 1 > MAX_RECONNECT_ATTEMPTS then p else
      PostedAfter(p.deliveries, PostFrom(Down, p.table, request, weather, attempts + 1))
  }

  function PostedAfter(deliveries: nat, p: Posting): Posting {
    p.(deliveries := deliveries + p.deliveries)
  }

  /** The whole one-way send, with its single reconnect. */
  function Post(link: Link, m: Table, request: ZPack, weather: Weather): Posting {
    PostFrom(link, m, request, weather, 0)
  }

  lemma PostOnceExactly(link: Link, m: Table, request: ZPack, a: Attempt)
    ensures var p, d := PostOnce(link, m, request, a), if a.delivered then 1 else 0;
            if !Connected(link, a) then p == Posting(Down, m, Err(ConnectionFailed), 0)
            else if a.end.SendBroken? then p == Posting(Down, TableAfterSend(m, request, a.delivered), Err(Broken), d)
            else p == Posting(Up(Waiting(Unread(link), m, request, a.delivered)),
                              TableAfterSend(m, request, a.delivered),
                              if a.end.SendFailed? then Err(SendError) else Ok(()), d)
  {
    hide Handle;
    assert Unread(link) + [] == Unread(link);
  }

  /** Every way a one-way send can go. */
  lemma PostExactly(link: Link, m: Table, request: ZPack, weather: Weather)
    ensures var p, a, b := Post(link, m, request, weather), weather(0), weather(1);
            var m1, first := TableAfterSend(m, request, a.delivered), if a.delivered then 1 else 0;
            && (!Connected(link, a) ==> p == Posting(Down, m, Err(ConnectionFailed), 0))
            && (Connected(link, a) && !a.end.SendBroken? ==>
                  p == Posting(Up(Waiting(Unread(link), m, request, a.delivered)), m1,
                               if a.end.SendFailed? then Err(SendError) else Ok(()), first))
            && (Connected(link, a) && a.end.SendBroken? && !b.connects ==>
                  p == Posting(Down, m1, Err(ConnectionFailed), first))
            && (Connected(link, a) && a.end.SendBroken? && b.connects ==>
                  var m2, both := TableAfterSend(m1, request, b.delivered), first + if b.delivered then 1 else 0;
                  if b.end.SendBroken? then p == Posting(Down, m2, Err(Broken), both)
                  else p == Posting(Up(Waiting([], m1, request, b.delivered)), m2,
                                    if b.end.SendFailed? then Err(SendError) else Ok(()), both))
  {
    var m1 := TableAfterSend(m, request, weather(0).delivered);
    PostOnceExactly(link, m, request, weather(0));
    PostOnceExactly(Down, m1, request, weather(1));
    hide Handle, PostOnce, TableAfterSend, Waiting;
    assert PostFrom(Down, m1, request, weather, 1) == PostOnce(Down, m1, request, weather(1));
  }

  /**
   A one-way send over a network without faults leaves its response on the connection, and the next call is given the
   first response waiting there: this one, or one that is older still.
   */
  lemma PostShiftsResponses(link: Link, m: Table, first: ZPack, second: ZPack)
    ensures var calm := Always(Attempt(true, true, Received));
            var p := Post(link, m, first, calm);
            var waiting := Unread(link) + [Handle(m, first).1];
            && p == Posting(Up(waiting), Handle(m, first).0, Ok(()), 1)
            && RoundTrip(p.link, p.table, second, calm).result == Ok(waiting[0])
  {
    hide Handle;
    var p := Post(link, m, first, Always(Attempt(true, true, Received)));
    assert (p.link.unread + [Handle(p.table, second).1])[0] == p.link.unread[0];
  }

  // ---------- the pool in place ----------

  /** The pooled connections by address, each with the responses waiting on it. */
  type Connections = map<string, seq<ZPack>>

  type Tables = map<string, Table>

  function TableAt(tables: Tables, addr: string): Table {
    if addr in tables then tables[addr] else map[]
  }

  function LinkIn(connections: Connections, addr: string): Link {
    if addr in connections then Up(connections[addr]) else Down
  }

  /** Two states agree on every connection and every table but those of one address. */
  ghost predicate Elsewhere(addr: string, connections: Connections, tables: Tables,
                            connections': Connections, tables': Tables)
  {
    && (forall a :: a != addr ==> LinkIn(connections', a) == LinkIn(connections, a))
    && forall a :: a != addr ==> TableAt(tables', a) == TableAt(tables, a)
  }

  lemma EndedIsUp(s: Sent, end: End)
    requires !Breaks(end)
    ensures var o := Ended(s, end); o.link.Up? && o.table == s.table && o.deliveries == s.deliveries
  {
  }

  lemma ElsewhereSame(addr: string, c: Connections, t: Tables)
    ensures Elsewhere(addr, c, t, c, t)
  {
  }

  lemma ElsewhereChain(addr: string, c0: Connections, t0: Tables, c1: Connections,
                       t1: Tables, c2: Connections, t2: Tables)
    requires Elsewhere(addr, c0, t0, c1, t1) && Elsewhere(addr, c1, t1, c2, t2)
    ensures Elsewhere(addr, c0, t0, c2, t2)
  {
    hide LinkIn, TableAt;
  }

  /** The servers, by address, as far as their tables go. */
  class Network {
    var tables: Tables

    function At(addr: string): Table
      reads this
    {
      TableAt(tables, addr)
    }
  }

  class TcpProxy {
    var connections: Connections

    function LinkTo(addr: string): Link
      reads this
    {
      LinkIn(connections, addr)
    }

    constructor ()
      ensures connections == map[]
    {
      connections := map[];
    }

    /** Sends and receives over a connection that is there, and drops it when it breaks. */
    method Speak(net: Network, addr: string, request: ZPack, a: Attempt)
      returns (result: Result<ZPack, NetError>, ghost deliveries: nat)
      requires addr in connections
      modifies this, net
      ensures Outcome(LinkTo(addr), net.At(addr), result, deliveries)
              == Spoken(old(connections[addr]), old(net.At(addr)), request, a)
      ensures Elsewhere(addr, old(connections), old(net.tables), connections, net.tables)
    {
      hide Handle, Send, Ended;
      var s := Send(connections[addr], net.At(addr), request, a.delivered);
      net.tables := net.tables[addr := s.table];
      if Breaks(a.end) {
        connections := connections - {addr};
        return Err(Broken), s.deliveries;
      }
      var o := Ended(s, a.end);
      EndedIsUp(s, a.end);
      connections := connections[addr := o.link.unread];
      return o.result, s.deliveries;
    }

    /** One turn of the retry loop: connects if need be, sends, receives, drops a broken connection. */
    method TryOnce(net: Network, addr: string, request: ZPack, a: Attempt)
      returns (result: Result<ZPack, NetError>, ghost deliveries: nat)
      modifies this, net
      ensures Outcome(LinkTo(addr), net.At(addr), result, deliveries)
              == Try(old(LinkTo(addr)), old(net.At(addr)), request, a)
      ensures Elsewhere(addr, old(connections), old(net.tables), connections, net.tables)
    {
      hide Spoken;
      if addr !in connections {
        if !a.connects {
          return Err(ConnectionFailed), 0;
        }
        connections := connections[addr := []];
      }
      result, deliveries := Speak(net, addr, request, a);
    }

    /** One turn of the loop of one-way sends: connects if need be, sends, drops a broken connection. */
    method PostHere(net: Network, addr: string, request: ZPack, a: Attempt)
      returns (result: Result<(), NetError>, ghost deliveries: nat)
      modifies this, net
      ensures Posting(LinkTo(addr), net.At(addr), result, deliveries)
              == PostOnce(old(LinkTo(addr)), old(net.At(addr)), request, a)
      ensures Elsewhere(addr, old(connections), old(net.tables), connections, net.tables)
    {
      hide Handle, Send;
      if addr !in connections {
        if !a.connects {
          return Err(ConnectionFailed), 0;
        }
        connections := connections[addr := []];
      }
      var s := Send(connections[addr], net.At(addr), request, a.delivered);
      net.tables := net.tables[addr := s.table];
      if a.end.SendBroken? {
        connections := connections - {addr};
        return Err(Broken), s.deliveries;
      }
      connections := connections[addr := s.unread];
      return if a.end.SendFailed? then Err(SendError) else Ok(()), s.deliveries;
    }

    /** Sends without waiting for a response, with the same single reconnect. */
    method SendOnly(net: Network, addr: string, request: ZPack, weather: Weather)
      returns (result: Result<(), NetError>, ghost deliveries: nat)
      modifies this, net
      ensures Posting(LinkTo(addr), net.At(addr), result, deliveries)
              == Post(old(LinkTo(addr)), old(net.At(addr)), request, weather)
      ensures Elsewhere(addr, old(connections), old(net.tables), connections, net.tables)
    {
      hide LinkTo, Elsewhere, PostOnce;
      assert Elsewhere(addr, connections, net.tables, connections, net.tables) by {
        ElsewhereSame(addr, connections, net.tables);
      }
      var attempts := 0;
      deliveries := 0;
      while true
        invariant attempts <= MAX_RECONNECT_ATTEMPTS
        invariant PostedAfter(deliveries, PostFrom(LinkTo(addr), net.At(addr), request, weather, attempts))
                  == Post(old(LinkTo(addr)), old(net.At(addr)), request, weather)
        invariant Elsewhere(addr, old(connections), old(net.tables), connections, net.tables)
        decreases MAX_RECONNECT_ATTEMPTS - attempts
      {
        PostBreaks(LinkTo(addr), net.At(addr), request, weather(attempts));
        ghost var connections1, tables1 := connections, net.tables;
        var r, n := PostHere(net, addr, request, weather(attempts));
        ElsewhereChain(addr, old(connections), old(net.tables), connections1, tables1, connections, net.tables);
        deliveries := deliveries + n;
        if r != Err(Broken) {
          return r, deliveries;
        }
        attempts := attempts + 1;
        if attempts > MAX_RECONNECT_ATTEMPTS {
          return r, deliveries;
        }
      }
    }

    /** Closes the pooled connection to an address; whatever was unread on it is gone. */
    method CloseConnection(addr: string)
      modifies this
      ensures LinkTo(addr) == Down && forall a :: a != addr ==> LinkTo(a) == old(LinkTo(a))
    {
      connections := connections - {addr};
    }

    /** Sends and receives over the pooled connection; other connections and servers are not touched. */
    method SendReceive(net: Network, addr: string, request: ZPack, weather: Weather)
      returns (result: Result<ZPack, NetError>, ghost deliveries: nat)
      modifies this, net
      ensures Outcome(LinkTo(addr), net.At(addr), result, deliveries)
              == RoundTrip(old(LinkTo(addr)), old(net.At(addr)), request, weather)
      ensures Elsewhere(addr, old(connections), old(net.tables), connections, net.tables)
    {
      hide Try, LinkTo, Elsewhere;
      assert Elsewhere(addr, connections, net.tables, connections, net.tables) by {
        ElsewhereSame(addr, connections, net.tables);
      }
      var attempts := 0;
      deliveries := 0;
      while true
        invariant attempts <= MAX_RECONNECT_ATTEMPTS
        invariant After(deliveries, Exchange(LinkTo(addr), net.At(addr), request, weather, attempts))
                  == RoundTrip(old(LinkTo(addr)), old(net.At(addr)), request, weather)
        invariant Elsewhere(addr, old(connections), old(net.tables), connections, net.tables)
        decreases MAX_RECONNECT_ATTEMPTS - attempts
      {
        TryFacts(LinkTo(addr), net.At(addr), request, weather(attempts));
        ghost var connections1, tables1 := connections, net.tables;
        var r, n := TryOnce(net, addr, request, weather(attempts));
        ElsewhereChain(addr, old(connections), old(net.tables), connections1, tables1, connections, net.tables);
        deliveries := deliveries + n;
        if r != Err(Broken) {
          return r, deliveries;
        }
        attempts := attempts + 1;
        if attempts > MAX_RECONNECT_ATTEMPTS {
          return r, deliveries;
        }
      }
    }
  }
}
