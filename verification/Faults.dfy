/**
 Runs of client calls over a network that fails, on pooled connections carried from call to call: what the cluster's
 one table goes through, which answers can be believed, and what the others may be.
 */
module Faults {
  import opened Common
  import opened LogFormat
  import opened Host
  import opened Client
  import opened Worker
  import opened Proxy

  /** The tables of the nodes and the client's pooled connections to them. */
  datatype Net = Net(stores: Stores, links: map<HostEntity, Link>)

  function LinkTo(n: Net, h: HostEntity): Link {
    if h in n.links then n.links[h] else Down
  }

  function NodeOf(nodes: seq<HostEntity>, c: Call): HostEntity
    requires nodes != []
  {
    Resolve(c.key, nodes).value
  }

  /** What a call comes to: an answer, or an error of the network. */
  type Told = Result<Answer, NetError>

  /** A call routed to its node over the pooled connection to it; an empty key is refused before anything is sent. */
  function Issue(nodes: seq<HostEntity>, n: Net, c: Call, weather: Weather): (Net, Told)
    requires nodes != []
  {
    if c.key == "" then (n, Ok(Err(EmptyKey))) else
      var h := NodeOf(nodes, c);
      var o := RoundTrip(LinkTo(n, h), StoreAt(n.stores, h), RequestOf(c), weather);
      (Net(n.stores[h := o.table], n.links[h := o.link]),
       match o.result
       case Ok(response) => Ok(Read(c, response))
       case Err(e) => Err(e))
  }

  /** The cluster and the connections after a run of calls, each in its weather. */
  function After(nodes: seq<HostEntity>, n: Net, calls: seq<Call>, weather: nat -> Weather): Net
    requires nodes != []
  {
    if calls == [] then n else
      var last := |calls| - 1;
      Issue(nodes, After(nodes, n, calls[..last], weather), calls[last], weather(last)).0
  }

  /** What the i-th call of a run comes to. */
  function ToldAt(nodes: seq<HostEntity>, n: Net, calls: seq<Call>, weather: nat -> Weather, i: nat): Told
    requires nodes != [] && i < |calls|
  {
    Issue(nodes, After(nodes, n, calls[..i], weather), calls[i], weather(i)).1
  }

  // ---------- one call ----------

  /** What a call means when it is carried out some number of times. */
  function Times(m: Table, c: Call, times: nat): Table {
    if times == 0 then m else Meaning(Times(m, c, times - 1), c).0
  }

  /**
   The call was carried out at most twice; if it can be believed, at least once, and its answer is that of the last
   time.
   */
  ghost predicate CarriedOut(m: Table, m': Table, c: Call, told: Told, believed: bool, times: nat) {
    && times <= 2 && m' == Times(m, c, times)
    && (believed && told.Ok? ==> times > 0 && told.value == Meaning(Times(m, c, times - 1), c).1)
  }

  lemma SpreadAfter(nodes: seq<HostEntity>, stores: Stores, m: Table, c: Call)
    requires nodes != [] && Spread(nodes, stores, m) && c.key != ""
    ensures var h := NodeOf(nodes, c);
            && Handle(StoreAt(stores, h), RequestOf(c)).1 == Handle(m, RequestOf(c)).1
            && Spread(nodes, stores[h := Handle(StoreAt(stores, h), RequestOf(c)).0], Meaning(m, c).0)
            && Spread(nodes, stores[h := StoreAt(stores, h)], m)
  {
    var h := NodeOf(nodes, c);
    hide Resolve, Spread, Handle, Meaning, RequestOf, Read;
    ClusterStep(nodes, stores, m, c);
    ProtocolIsFaithful(m, c);
    SpreadAt(nodes, stores, m, c.key);
    KeyOfRequest(c);
    HandleIsLocal(StoreAt(stores, h), m, RequestOf(c));
    SpreadStep(nodes, stores, m, h, c.key, StoreAt(stores, h), m);
  }

  lemma SpreadAt(nodes: seq<HostEntity>, stores: Stores, m: Table, key: string)
    requires nodes != [] && Spread(nodes, stores, m)
    ensures Client.Find(StoreAt(stores, Resolve(key, nodes).value), key) == Client.Find(m, key)
  {
  }

  /** Delivering the request of a call some times carries the call out as often, at the cluster's one table. */
  lemma {:induction false} DeliverSpreads(nodes: seq<HostEntity>, stores: Stores, m: Table, c: Call, times: nat)
    requires nodes != [] && Spread(nodes, stores, m) && c.key != ""
    ensures var h := NodeOf(nodes, c);
            Spread(nodes, stores[h := Deliver(StoreAt(stores, h), RequestOf(c), times)], Times(m, c, times))
  {
    var h, r := NodeOf(nodes, c), RequestOf(c);
    var store := StoreAt(stores, h);
    hide Resolve, Spread, Handle, Meaning, RequestOf, NodeOf, Deliver, Times;
    if times == 0 {
      NoTimes(store, m, c);
      SpreadAfter(nodes, stores, m, c);
    } else {
      DeliverSpreads(nodes, stores, m, c, times - 1);
      OneMoreTime(store, m, c, times);
      SpreadOnce(nodes, stores, Deliver(store, r, times - 1), Times(m, c, times - 1), c);
    }
  }

  lemma NoTimes(store: Table, m: Table, c: Call)
    ensures Deliver(store, RequestOf(c), 0) == store && Times(m, c, 0) == m
  {
  }

  lemma OneMoreTime(store: Table, m: Table, c: Call, times: nat)
    requires times > 0
    ensures Deliver(store, RequestOf(c), times) == Handle(Deliver(store, RequestOf(c), times - 1), RequestOf(c)).0
    ensures Times(m, c, times) == Meaning(Times(m, c, times - 1), c).0
  {
    hide Handle, Meaning, RequestOf;
  }

  lemma SpreadOnce(nodes: seq<HostEntity>, stores: Stores, store: Table, m: Table, c: Call)
    requires nodes != [] && c.key != "" && Spread(nodes, stores[NodeOf(nodes, c) := store], m)
    ensures Spread(nodes, stores[NodeOf(nodes, c) := Handle(store, RequestOf(c)).0], Meaning(m, c).0)
    ensures Handle(store, RequestOf(c)).1 == Handle(m, RequestOf(c)).1
  {
    var h := NodeOf(nodes, c);
    hide Resolve, Spread, Handle, Meaning, RequestOf, NodeOf;
    SpreadAfter(nodes, stores[h := store], m, c);
    assert stores[h := store][h := Handle(store, RequestOf(c)).0] == stores[h := Handle(store, RequestOf(c)).0];
  }

  /** The response to the last of some deliveries is what the client reads as the answer of the last time. */
  lemma LastIsMeaning(nodes: seq<HostEntity>, stores: Stores, m: Table, c: Call, times: nat)
    requires nodes != [] && Spread(nodes, stores, m) && c.key != "" && times > 0
    ensures Read(c, LastResponse(StoreAt(stores, NodeOf(nodes, c)), RequestOf(c), times))
        == Meaning(Times(m, c, times - 1), c).1
  {
    hide Resolve, Spread, Handle, Meaning, RequestOf, NodeOf, Read, Deliver, Times;
    DeliverSpreads(nodes, stores, m, c, times - 1);
    var store := Deliver(StoreAt(stores, NodeOf(nodes, c)), RequestOf(c), times - 1);
    SpreadOnce(nodes, stores, store, Times(m, c, times - 1), c);
    ReadIsMeaning(Times(m, c, times - 1), c);
  }

  lemma ReadIsMeaning(m: Table, c: Call)
    requires c.key != ""
    ensures Read(c, Handle(m, RequestOf(c)).1) == Meaning(m, c).1
  {
    hide Handle, Meaning, Read;
    ProtocolIsFaithful(m, c);
  }

  /** One call, whatever the network does and whatever waits on the connection. */
  lemma CallIsCarriedOut(nodes: seq<HostEntity>, n: Net, m: Table, c: Call, weather: Weather) returns (times: nat)
    requires nodes != [] && Spread(nodes, n.stores, m)
    ensures var (n', told) := Issue(nodes, n, c, weather);
            Spread(nodes, n'.stores, Times(m, c, times))
            && CarriedOut(m, Times(m, c, times), c, told, Clean(LinkTo(n, NodeOf(nodes, c))), times)
  {
    if c.key == "" {
      RefusedIsNothing(m, c);
      return 1;
    }
    var h, r := NodeOf(nodes, c), RequestOf(c);
    var link, store := LinkTo(n, h), StoreAt(n.stores, h);
    times := RoundTrip(link, store, r, weather).deliveries;
    AtMostTwoDeliveries(link, store, r, weather);
    CallIsAnswered(link, store, r, weather);
    DeliverSpreads(nodes, n.stores, m, c, times);
    hide Resolve, Spread, Handle, Meaning, RequestOf, Read, RoundTrip, Clean, NodeOf, Times;
    hide Deliver, LastResponse, IsAnswer;
    if times > 0 {
      LastIsMeaning(nodes, n.stores, m, c, times);
    }
  }

  lemma RefusedIsNothing(m: Table, c: Call)
    requires c.key == ""
    ensures Times(m, c, 1) == m && Times(m, c, 0) == m && Meaning(m, c).1 == Err(EmptyKey)
  {
    assert Times(m, c, 1) == Meaning(Times(m, c, 0), c).0;
  }

  // ---------- runs ----------

  /** The node's connection was clean at the start and no earlier call to it met an error. */
  ghost predicate Undisturbed(nodes: seq<HostEntity>, n: Net, calls: seq<Call>, weather: nat -> Weather, i: nat)
    requires nodes != [] && i < |calls|
  {
    && Clean(LinkTo(n, NodeOf(nodes, calls[i])))
    && forall j :: 0 <= j < i && NodeOf(nodes, calls[j]) == NodeOf(nodes, calls[i]) ==>
         ToldAt(nodes, n, calls, weather, j).Ok?
  }

  lemma IssueStaysClean(nodes: seq<HostEntity>, n: Net, c: Call, weather: Weather, h: HostEntity)
    requires nodes != [] && Clean(LinkTo(n, h))
    requires NodeOf(nodes, c) == h ==> Issue(nodes, n, c, weather).1.Ok?
    ensures Clean(LinkTo(Issue(nodes, n, c, weather).0, h))
  {
    hide Resolve, RoundTrip, RequestOf, Read, Handle, Deliver;
    if c.key != "" {
      var g := NodeOf(nodes, c);
      CallIsAnswered(LinkTo(n, g), StoreAt(n.stores, g), RequestOf(c), weather);
    }
  }

  lemma {:induction false} LinkStaysClean(nodes: seq<HostEntity>, n: Net, calls: seq<Call>, weather: nat -> Weather,
                                          i: nat, h: HostEntity)
    requires nodes != [] && i <= |calls| && Clean(LinkTo(n, h))
    requires forall j :: 0 <= j < i && NodeOf(nodes, calls[j]) == h ==> ToldAt(nodes, n, calls, weather, j).Ok?
    ensures Clean(LinkTo(After(nodes, n, calls[..i], weather), h))
  {
    hide Issue, Clean, LinkTo, NodeOf;
    if i > 0 {
      LinkStaysClean(nodes, n, calls, weather, i - 1, h);
      assert calls[..i][..i - 1] == calls[..i - 1];
      IssueStaysClean(nodes, After(nodes, n, calls[..i - 1], weather), calls[i - 1], weather(i - 1), h);
    }
  }

  /** The tables the cluster stands for, call by call, and how often each call was carried out. */
  ghost predicate Accounts(nodes: seq<HostEntity>, n: Net, m: Table, calls: seq<Call>, weather: nat -> Weather,
                           tables: seq<Table>, times: seq<nat>)
    requires nodes != []
  {
    && |tables| == |calls| + 1 && |times| == |calls| && tables[0] == m
    && (forall i :: 0 <= i <= |calls| ==> Spread(nodes, After(nodes, n, calls[..i], weather).stores, tables[i]))
    && forall i :: 0 <= i < |calls| ==>
         CarriedOut(tables[i], tables[i + 1], calls[i], ToldAt(nodes, n, calls, weather, i),
                    Undisturbed(nodes, n, calls, weather, i), times[i])
  }

  /**
   Over any run of calls of any kind, whatever the network does and whatever waits on the connections: the cluster
   stands for one table throughout, which each call changes as its meaning does, never, once or twice; and until a call
   to a node meets an error, answers from it are those of the call's last time.
   */
  lemma {:induction false} AnswersAreTrue(nodes: seq<HostEntity>, n: Net, m: Table, calls: seq<Call>,
                                          weather: nat -> Weather)
    returns (tables: seq<Table>, times: seq<nat>)
    requires nodes != [] && Spread(nodes, n.stores, m)
    ensures Accounts(nodes, n, m, calls, weather, tables, times)
  {
    hide Issue, Spread, Clean, LinkTo, NodeOf, Times, Meaning, Undisturbed, CarriedOut;
    if calls == [] {
      assert calls[..0] == [];
      return [m], [];
    }
    var last := |calls| - 1;
    var front := calls[..last];
    tables, times := AnswersAreTrue(nodes, n, m, front, weather);
    var before := After(nodes, n, front, weather);
    assert front[..last] == front && calls[..|calls|] == calls;
    var d := CallIsCarriedOut(nodes, before, tables[last], calls[last], weather(last));
    if Undisturbed(nodes, n, calls, weather, last) {
      UndisturbedIsClean(nodes, n, calls, weather, last);
    }
    BelievedLess(tables[last], Times(tables[last], calls[last], d), calls[last], ToldAt(nodes, n, calls, weather, last),
                 Clean(LinkTo(before, NodeOf(nodes, calls[last]))), Undisturbed(nodes, n, calls, weather, last), d);
    AccountsOneMore(nodes, n, m, calls, weather, tables, times, d);
    tables, times := tables + [Times(tables[last], calls[last], d)], times + [d];
  }

  lemma AccountsOneMore(nodes: seq<HostEntity>, n: Net, m: Table, calls: seq<Call>, weather: nat -> Weather,
                        tables: seq<Table>, times: seq<nat>, d: nat)
    requires nodes != [] && calls != []
    requires Accounts(nodes, n, m, calls[..|calls| - 1], weather, tables, times)
    requires var last := |calls| - 1;
             var next := Times(tables[last], calls[last], d);
             && Spread(nodes, After(nodes, n, calls, weather).stores, next)
             && CarriedOut(tables[last], next, calls[last], ToldAt(nodes, n, calls, weather, last),
                           Undisturbed(nodes, n, calls, weather, last), d)
    ensures Accounts(nodes, n, m, calls, weather,
                     tables + [Times(tables[|calls| - 1], calls[|calls| - 1], d)], times + [d])
  {
    hide Spread, CarriedOut, After, ToldAt, Undisturbed, Times;
    var last := |calls| - 1;
    var front := calls[..last];
    assert calls[..|calls|] == calls;
    forall i | 0 <= i <= last ensures calls[..i] == front[..i] {
    }
    forall i | 0 <= i < last
      ensures ToldAt(nodes, n, calls, weather, i) == ToldAt(nodes, n, front, weather, i)
      ensures Undisturbed(nodes, n, calls, weather, i) == Undisturbed(nodes, n, front, weather, i)
    {
      SameFront(nodes, n, calls, weather, last, i);
    }
  }

  lemma UndisturbedIsClean(nodes: seq<HostEntity>, n: Net, calls: seq<Call>, weather: nat -> Weather, i: nat)
    requires nodes != [] && i < |calls| && Undisturbed(nodes, n, calls, weather, i)
    ensures Clean(LinkTo(After(nodes, n, calls[..i], weather), NodeOf(nodes, calls[i])))
  {
    hide Clean, LinkTo, NodeOf;
    LinkStaysClean(nodes, n, calls, weather, i, NodeOf(nodes, calls[i]));
  }

  lemma BelievedLess(m: Table, m': Table, c: Call, told: Told, more: bool, less: bool, times: nat)
    requires CarriedOut(m, m', c, told, more, times) && (less ==> more)
    ensures CarriedOut(m, m', c, told, less, times)
  {
  }

  /** What calls came to does not depend on later calls. */
  lemma SameFront(nodes: seq<HostEntity>, n: Net, calls: seq<Call>, weather: nat -> Weather, last: nat, i: nat)
    requires nodes != [] && i < last <= |calls|
    ensures ToldAt(nodes, n, calls, weather, i) == ToldAt(nodes, n, calls[..last], weather, i)
    ensures Undisturbed(nodes, n, calls, weather, i) == Undisturbed(nodes, n, calls[..last], weather, i)
  {
    hide Issue, Clean, LinkTo, NodeOf;
    forall j | 0 <= j <= i ensures ToldAt(nodes, n, calls, weather, j) == ToldAt(nodes, n, calls[..last], weather, j) {
      assert calls[..last][..j] == calls[..j];
    }
  }

  // ---------- calls that can be repeated ----------

  /** Every call but append and remove. */
  predicate Repeatable(c: Call) {
    !c.Append? && !c.Remove?
  }

  /**
   Carried out more than once, a call other than append changes what it changes once, and a repeatable one answers
   alike.
   */
  lemma {:induction false} RepeatsAreHarmless(m: Table, c: Call, times: nat)
    requires times > 0 && !c.Append?
    ensures Times(m, c, times) == Meaning(m, c).0
    ensures Repeatable(c) ==> Meaning(Times(m, c, times - 1), c).1 == Meaning(m, c).1
  {
    if times == 1 {
      assert Times(m, c, 0) == m;
    } else {
      RepeatsAreHarmless(m, c, times - 1);
      assert Meaning(Meaning(m, c).0, c).0 == Meaning(m, c).0;
    }
  }

  /**
   A run of repeatable calls that meets no error, over connections that were clean, is answered as one table would
   answer it, however often requests were sent again.
   */
  lemma {:induction false} AnsweredRunIsMeaning(nodes: seq<HostEntity>, n: Net, m: Table, calls: seq<Call>,
                                                weather: nat -> Weather)
    requires nodes != [] && Spread(nodes, n.stores, m)
    requires forall h :: Clean(LinkTo(n, h))
    requires forall i :: 0 <= i < |calls| ==> Repeatable(calls[i]) && ToldAt(nodes, n, calls, weather, i).Ok?
    ensures Spread(nodes, After(nodes, n, calls, weather).stores, MeaningRun(m, calls).0)
    ensures |MeaningRun(m, calls).1| == |calls|
    ensures forall i :: 0 <= i < |calls| ==> ToldAt(nodes, n, calls, weather, i) == Ok(MeaningRun(m, calls).1[i])
  {
    hide Issue, Spread, Clean, LinkTo, NodeOf, Times, Meaning;
    if calls != [] {
      var last := |calls| - 1;
      var front := calls[..last];
      forall i | 0 <= i < last ensures ToldAt(nodes, n, calls, weather, i) == ToldAt(nodes, n, front, weather, i) {
        SameFront(nodes, n, calls, weather, last, i);
      }
      AnsweredRunIsMeaning(nodes, n, m, front, weather);
      var before, table := After(nodes, n, front, weather), MeaningRun(m, front).0;
      var d := CallIsCarriedOut(nodes, before, table, calls[last], weather(last));
      LinkStaysClean(nodes, n, calls, weather, last, NodeOf(nodes, calls[last]));
      RepeatsAreHarmless(table, calls[last], d);
    }
  }

  /** An answered remove has removed the key, until a call to its node meets an error, whatever the answer says. */
  lemma RemoveIsTrue(nodes: seq<HostEntity>, n: Net, m: Table, calls: seq<Call>, weather: nat -> Weather, i: nat)
    returns (tables: seq<Table>, times: seq<nat>)
    requires nodes != [] && Spread(nodes, n.stores, m) && i < |calls|
    requires calls[i].Remove? && Undisturbed(nodes, n, calls, weather, i) && ToldAt(nodes, n, calls, weather, i).Ok?
    ensures Accounts(nodes, n, m, calls, weather, tables, times)
    ensures calls[i].key != "" ==> tables[i + 1] == tables[i] - {calls[i].key}
  {
    tables, times := AnswersAreTrue(nodes, n, m, calls, weather);
    hide Spread, After, Undisturbed, ToldAt;
    assert CarriedOut(tables[i], tables[i + 1], calls[i], ToldAt(nodes, n, calls, weather, i), true, times[i]);
    RepeatsAreHarmless(tables[i], calls[i], times[i]);
  }

  // ---------- after an error ----------

  /** A response that waited for the node at the start, or that answers one of these calls to it. */
  ghost predicate KnownResponse(nodes: seq<HostEntity>, n: Net, calls: seq<Call>, h: HostEntity, u: ZPack)
    requires nodes != []
  {
    u in Unread(LinkTo(n, h)) || exists j, t :: 0 <= j < |calls| && Answered(nodes, calls[j], h, t, u)
  }

  ghost predicate Answered(nodes: seq<HostEntity>, c: Call, h: HostEntity, t: Table, u: ZPack)
    requires nodes != []
  {
    c.key != "" && NodeOf(nodes, c) == h && u == Handle(t, RequestOf(c)).1
  }

  lemma KnownAfter(nodes: seq<HostEntity>, n: Net, calls: seq<Call>, h: HostEntity, u: ZPack)
    requires nodes != [] && calls != [] && KnownResponse(nodes, n, calls[..|calls| - 1], h, u)
    ensures KnownResponse(nodes, n, calls, h, u)
  {
    hide Answered, LinkTo;
    var front := calls[..|calls| - 1];
    if j, t :| 0 <= j < |front| && Answered(nodes, front[j], h, t, u) {
      assert calls[j] == front[j];
    }
  }

  /** Whatever waits for a node waited there at the start or answers an earlier call to it. */
  lemma {:induction false} UnreadIsKnown(nodes: seq<HostEntity>, n: Net, calls: seq<Call>, weather: nat -> Weather,
                                         h: HostEntity, u: ZPack)
    requires nodes != [] && u in Unread(LinkTo(After(nodes, n, calls, weather), h))
    ensures KnownResponse(nodes, n, calls, h, u)
  {
    hide Resolve, Handle, RoundTrip, RequestOf, Read, Unread, NodeOf;
    if calls != [] {
      var last := |calls| - 1;
      var c, before := calls[last], After(nodes, n, calls[..last], weather);
      if u in Unread(LinkTo(before, h)) {
        UnreadIsKnown(nodes, n, calls[..last], weather, h, u);
        KnownAfter(nodes, n, calls, h, u);
      } else {
        assert c.key != "" && NodeOf(nodes, c) == h;
        UnreadAfter(LinkTo(before, h), StoreAt(before.stores, h), RequestOf(c), weather(last), u);
        var t :| u == Handle(t, RequestOf(c)).1;
        assert Answered(nodes, calls[last], h, t, u);
      }
    }
  }

  /**
   Any answer in a run, disturbed or not, is read from a response that waited for the node at the start or that the node
   gave to this call or to an earlier one.
   */
  lemma AnswersAreKnown(nodes: seq<HostEntity>, n: Net, calls: seq<Call>, weather: nat -> Weather, i: nat)
    returns (u: ZPack)
    requires nodes != [] && i < |calls| && calls[i].key != "" && ToldAt(nodes, n, calls, weather, i).Ok?
    ensures ToldAt(nodes, n, calls, weather, i) == Ok(Read(calls[i], u))
    ensures KnownResponse(nodes, n, calls[..i + 1], NodeOf(nodes, calls[i]), u)
  {
    hide Resolve, Handle, RoundTrip, RequestOf, Read, Deliver, KnownResponse, NodeOf;
    var c, before := calls[i], After(nodes, n, calls[..i], weather);
    var h := NodeOf(nodes, c);
    var link, store := LinkTo(before, h), StoreAt(before.stores, h);
    var o := RoundTrip(link, store, RequestOf(c), weather(i));
    CallIsAnswered(link, store, RequestOf(c), weather(i));
    u := o.result.value;
    assert calls[..i + 1][..i] == calls[..i];
    if !Clean(link) && u == Unread(link)[0] {
      UnreadIsKnown(nodes, n, calls[..i], weather, h, u);
      KnownAfter(nodes, n, calls[..i + 1], h, u);
    } else {
      OwnIsKnown(nodes, n, calls[..i + 1], h, Deliver(store, RequestOf(c), o.deliveries - 1), u);
    }
  }

  lemma OwnIsKnown(nodes: seq<HostEntity>, n: Net, calls: seq<Call>, h: HostEntity, t: Table, u: ZPack)
    requires nodes != [] && calls != [] && Answered(nodes, calls[|calls| - 1], h, t, u)
    ensures KnownResponse(nodes, n, calls, h, u)
  {
  }
}
