/**
 Handing entries over to another node by INSERT requests on a pooled connection: what an answer tells about the
 other node's table, and when an entry may be given up on it.
 */
module Handover {
  import opened Common
  import opened LogFormat
  import opened Client
  import opened Worker
  import opened Proxy

  function InsertOf(key: string, value: string): ZPack {
    Request(INSERT, key, value, "", "")
  }

  predicate Holds(m: Table, key: string, value: string) {
    Find(m, key) == Some(value)
  }

  /** A table after an entry was inserted; the empty key is never accepted. */
  function Inserted(m: Table, key: string, value: string): Table {
    if key == "" then m else m[key := value]
  }

  // ---------- one entry ----------

  lemma {:induction false} DeliveredInsert(m: Table, key: string, value: string, n: nat)
    ensures Deliver(m, InsertOf(key, value), n) == if n == 0 then m else Inserted(m, key, value)
  {
    if n > 0 {
      DeliveredInsert(m, key, value, n - 1);
    }
  }

  lemma InsertResponse(m: Table, key: string, value: string)
    ensures Succeeded(Handle(m, InsertOf(key, value)).1) <==> key != ""
  {
    Statuses();
    hide IsSuccess;
  }

  /**
   Whatever waits on the connection, an INSERT stores the entry or does nothing. On a clean connection, an answer means
   that the entry is stored and says so, except for the empty key, which is refused; and the connection stays clean.
   */
  lemma InsertOutcome(link: Link, m: Table, key: string, value: string, weather: Weather)
    ensures var o := RoundTrip(link, m, InsertOf(key, value), weather);
            && (o.table == m || o.table == Inserted(m, key, value))
            && (Clean(link) && o.result.Ok? ==>
                  Clean(o.link) && o.table == Inserted(m, key, value) && (Succeeded(o.result.value) <==> key != ""))
  {
    hide RoundTrip, Handle, Deliver, Succeeded;
    var r := InsertOf(key, value);
    var o := RoundTrip(link, m, r, weather);
    AtMostTwoDeliveries(link, m, r, weather);
    CallIsAnswered(link, m, r, weather);
    DeliveredInsert(m, key, value, o.deliveries);
    if o.deliveries > 0 {
      InsertResponse(Deliver(m, r, o.deliveries - 1), key, value);
    }
  }

  /** The entry may be given up on any answer to its INSERT: whatever the answer says, the other node holds it. */
  predicate Removable(link: Link, m: Table, key: string, value: string, weather: Weather) {
    var o := RoundTrip(link, m, InsertOf(key, value), weather);
    o.result.Ok? ==> Holds(o.table, key, value)
  }

  /** The other node holds the entry already, or no response is waiting on the connection and the key is not empty. */
  predicate Trusted(link: Link, m: Table, key: string, value: string) {
    Holds(m, key, value) || (Clean(link) && key != "")
  }

  lemma TrustedIsRemovable(link: Link, m: Table, key: string, value: string, weather: Weather)
    requires Trusted(link, m, key, value)
    ensures Removable(link, m, key, value, weather)
  {
    hide RoundTrip;
    InsertOutcome(link, m, key, value, weather);
  }

  /**
   An answer to an INSERT can be relied on, whatever the network does and the answer says, exactly when the other node
   holds the entry already, or no response is waiting on the connection and the key is not empty.
   */
  lemma InsertIsTrusted(link: Link, m: Table, key: string, value: string)
    ensures (forall weather: Weather :: Removable(link, m, key, value, weather)) <==> Trusted(link, m, key, value)
  {
    var r := InsertOf(key, value);
    if Trusted(link, m, key, value) {
      forall weather: Weather ensures Removable(link, m, key, value, weather) {
        TrustedIsRemovable(link, m, key, value, weather);
      }
    } else {
      UntrustedOutcome(link, m, key, value);
      assert !Removable(link, m, key, value, Misleading(link));
    }
  }

  /** The broken connection is made anew, and the request arrives and is answered. */
  function Reconnect(): Weather {
    (i: nat) => if i == 0 then Attempt(true, false, SendBroken) else Attempt(true, true, Received)
  }

  /** Weather in which an entry that is not trusted is answered and lost. */
  function Misleading(link: Link): Weather {
    if Clean(link) then Reconnect() else Always(Attempt(true, false, Received))
  }

  lemma ReconnectOutcome(link: Link, m: Table, request: ZPack)
    ensures RoundTrip(link, m, request, Reconnect())
        == Outcome(Up([]), Handle(m, request).0, Ok(Handle(m, request).1), 1)
  {
    hide Handle;
    var r := Handle(m, request).1;
    assert Try(link, m, request, Reconnect()(0)) == Outcome(Down, m, Err(Broken), 0);
    assert ([] + [r])[0] == r && ([] + [r])[1..] == [];
    assert Try(Down, m, request, Reconnect()(1)) == Outcome(Up([]), Handle(m, request).0, Ok(r), 1);
    assert Exchange(Down, m, request, Reconnect(), 1) == Try(Down, m, request, Reconnect()(1));
  }

  lemma UntrustedOutcome(link: Link, m: Table, key: string, value: string)
    requires !Trusted(link, m, key, value)
    ensures var o := RoundTrip(link, m, InsertOf(key, value), Misleading(link)); o.result.Ok? && o.table == m
  {
    var r := InsertOf(key, value);
    hide RoundTrip;
    if Clean(link) {
      ReconnectOutcome(link, m, r);
    } else {
      StaleOutcome(link, m, r);
    }
  }

  // ---------- a group of entries ----------

  /**
   The connection, the other node's table and the number of successes after some keys were sent, or the first error.
   */
  datatype Sending = Sending(link: Link, table: Table, result: Result<nat, NetError>)

  /** Sends entries one after the other; the first transport error ends it. */
  function SendAll(link: Link, m: Table, source: Table, keys: seq<string>, weather: string -> Weather): Sending
    requires forall k :: k in keys ==> k in source
  {
    if keys == [] then Sending(link, m, Ok(0)) else
      var k := keys[|keys| - 1];
      var s := SendAll(link, m, source, keys[..|keys| - 1], weather);
      if s.result.Err? then s else SendNext(s, k, source[k], weather(k))
  }

  function SendNext(s: Sending, key: string, value: string, weather: Weather): Sending
    requires s.result.Ok?
  {
    var o := RoundTrip(s.link, s.table, InsertOf(key, value), weather);
    Sending(o.link, o.table,
            match o.result
            case Ok(response) => Ok(s.result.value + if Succeeded(response) then 1 else 0)
            case Err(e) => Err(e))
  }

  /** A table changed at most by receiving some of the given entries of another table. */
  ghost predicate OnlyFrom(before: Table, after: Table, source: Table, keys: set<string>) {
    forall k :: Find(after, k) == Find(before, k) || (k in keys && k != "" && Find(after, k) == Find(source, k))
  }

  function AsSet(keys: seq<string>): set<string> {
    set k | k in keys
  }

  lemma LastOfSet(keys: seq<string>)
    requires keys != []
    ensures AsSet(keys) == AsSet(keys[..|keys| - 1]) + {keys[|keys| - 1]}
    ensures NoRepeats(keys) ==> keys[|keys| - 1] !in AsSet(keys[..|keys| - 1])
  {
    var front, last := keys[..|keys| - 1], keys[|keys| - 1];
    assert keys == front + [last];
  }

  lemma {:induction false} OnlyGivenArrive(link: Link, m: Table, source: Table, keys: seq<string>,
                                           weather: string -> Weather)
    requires forall k :: k in keys ==> k in source
    ensures OnlyFrom(m, SendAll(link, m, source, keys, weather).table, source, AsSet(keys))
  {
    hide RoundTrip;
    if keys != [] {
      var front, k := keys[..|keys| - 1], keys[|keys| - 1];
      OnlyGivenArrive(link, m, source, front, weather);
      LastOfSet(keys);
      var s := SendAll(link, m, source, front, weather);
      InsertOutcome(s.link, s.table, k, source[k], weather(k));
    }
  }

  /** Over a clean connection, a group that was sent has arrived but for the empty key. */
  lemma {:induction false} CleanGroupArrives(link: Link, m: Table, source: Table, keys: seq<string>,
                                             weather: string -> Weather)
    requires forall k :: k in keys ==> k in source
    requires Clean(link) && SendAll(link, m, source, keys, weather).result.Ok?
    ensures var s := SendAll(link, m, source, keys, weather);
            Clean(s.link) && forall k :: k in keys && k != "" ==> Holds(s.table, k, source[k])
  {
    hide RoundTrip, Clean, Succeeded;
    if keys != [] {
      var front, k := keys[..|keys| - 1], keys[|keys| - 1];
      assert keys == front + [k];
      CleanGroupArrives(link, m, source, front, weather);
      var s := SendAll(link, m, source, front, weather);
      InsertOutcome(s.link, s.table, k, source[k], weather(k));
    }
  }

  /** And the number of successes says how many did. */
  lemma {:induction false} CleanGroupCount(link: Link, m: Table, source: Table, keys: seq<string>,
                                           weather: string -> Weather)
    requires NoRepeats(keys) && forall k :: k in keys ==> k in source
    requires Clean(link) && SendAll(link, m, source, keys, weather).result.Ok?
    ensures SendAll(link, m, source, keys, weather).result.value == |AsSet(keys) - {""}|
  {
    hide RoundTrip, Clean, Succeeded, Holds, Inserted, AsSet;
    if keys == [] {
      assert AsSet(keys) - {""} == {} by { EmptySet(); }
    } else {
      var front, k := keys[..|keys| - 1], keys[|keys| - 1];
      CleanGroupArrives(link, m, source, front, weather);
      CleanGroupCount(link, m, source, front, weather);
      var s := SendAll(link, m, source, front, weather);
      InsertOutcome(s.link, s.table, k, source[k], weather(k));
      LastOfSet(keys);
      CountOne(AsSet(front), k);
    }
  }

  lemma EmptySet()
    ensures AsSet([]) == {}
  {
  }

  /** The first error ends a group: nothing is sent after it. */
  lemma {:induction false} ErrorEndsGroup(link: Link, m: Table, source: Table, keys: seq<string>, rest: seq<string>,
                                          weather: string -> Weather)
    requires forall k :: k in keys + rest ==> k in source
    requires forall k :: k in keys ==> k in source
    requires SendAll(link, m, source, keys, weather).result.Err?
    ensures SendAll(link, m, source, keys + rest, weather) == SendAll(link, m, source, keys, weather)
  {
    hide RoundTrip;
    if rest == [] {
      assert keys + rest == keys;
    } else {
      var front := rest[..|rest| - 1];
      assert (keys + rest)[..|keys + rest| - 1] == keys + front;
      assert forall k :: k in keys + front ==> k in keys + rest;
      ErrorEndsGroup(link, m, source, keys, front, weather);
    }
  }

  /** What is sent depends on the keys that are sent alone. */
  lemma {:induction false} SendAllOf(link: Link, m: Table, source: Table, source': Table, keys: seq<string>,
                                     weather: string -> Weather)
    requires forall k :: k in keys ==> k in source && k in source' && source[k] == source'[k]
    ensures SendAll(link, m, source, keys, weather) == SendAll(link, m, source', keys, weather)
  {
    hide SendNext;
    if keys != [] {
      SendAllOf(link, m, source, source', keys[..|keys| - 1], weather);
    }
  }

  /** Some of the keys, sent in some order, met an error. */
  ghost predicate MetError(link: Link, m: Table, source: Table, keys: set<string>, weather: string -> Weather) {
    exists order :: ErrorIn(link, m, source, keys, order, weather)
  }

  ghost predicate ErrorIn(link: Link, m: Table, source: Table, keys: set<string>, order: seq<string>,
                          weather: string -> Weather)
  {
    && NoRepeats(order) && AsSet(order) <= keys && (forall k :: k in order ==> k in source)
    && SendAll(link, m, source, order, weather).result.Err?
  }

  /** Every attempt connects, delivers and receives. */
  ghost predicate Calm(weather: string -> Weather) {
    forall k, i: nat :: weather(k)(i) == Attempt(true, true, Received)
  }

  lemma CalmAnswers(link: Link, m: Table, request: ZPack, weather: Weather)
    requires weather(0) == Attempt(true, true, Received)
    ensures RoundTrip(link, m, request, weather).result.Ok?
  {
    hide Handle;
  }

  /** Over a calm network no group meets an error. */
  lemma {:induction false} CalmSendsAll(link: Link, m: Table, source: Table, keys: seq<string>,
                                        weather: string -> Weather)
    requires (forall k :: k in keys ==> k in source) && Calm(weather)
    ensures SendAll(link, m, source, keys, weather).result.Ok?
  {
    hide RoundTrip;
    if keys != [] {
      var k := keys[|keys| - 1];
      CalmSendsAll(link, m, source, keys[..|keys| - 1], weather);
      var s := SendAll(link, m, source, keys[..|keys| - 1], weather);
      CalmAnswers(s.link, s.table, InsertOf(k, source[k]), weather(k));
    }
  }

  lemma CalmMeetsNone(link: Link, m: Table, source: Table, keys: set<string>, weather: string -> Weather)
    requires Calm(weather)
    ensures !MetError(link, m, source, keys, weather)
  {
    hide SendAll, Calm;
    forall order ensures !ErrorIn(link, m, source, keys, order, weather) {
      if forall k :: k in order ==> k in source {
        CalmSendsAll(link, m, source, order, weather);
      }
    }
  }

  lemma CountOne(s: set<string>, k: string)
    requires k !in s
    ensures |s + {k} - {""}| == |s - {""}| + if k == "" then 0 else 1
  {
    assert s + {k} - {""} == if k == "" then s - {""} else (s - {""}) + {k};
  }

  /** Whatever the network does: if a group was sent, every entry in it that was to be trusted has arrived. */
  lemma TrustedArrives(link: Link, m: Table, source: Table, keys: seq<string>, weather: string -> Weather, k: string)
    requires (forall j :: j in keys ==> j in source) && k in keys
    requires SendAll(link, m, source, keys, weather).result.Ok? && Trusted(link, m, k, source[k])
    ensures Holds(SendAll(link, m, source, keys, weather).table, k, source[k])
  {
    hide SendAll;
    OnlyGivenArrive(link, m, source, keys, weather);
    if Clean(link) {
      CleanGroupArrives(link, m, source, keys, weather);
    }
  }

  /** An entry may be given up once its group was sent, in this order and weather. */
  predicate RemovableIn(link: Link, m: Table, source: Table, order: seq<string>, weather: string -> Weather, k: string)
    requires (forall j :: j in order ==> j in source) && k in source
  {
    var s := SendAll(link, m, source, order, weather);
    s.result.Ok? ==> Holds(s.table, k, source[k])
  }

  lemma {:induction false} SomeOrder(keys: set<string>) returns (order: seq<string>)
    ensures IsOrderOf(order, keys)
  {
    if keys == {} {
      return [];
    }
    var k :| k in keys;
    var rest := SomeOrder(keys - {k});
    return [k] + rest;
  }

  lemma {:induction false} MisledGroup(link: Link, m: Table, source: Table, k: string, rest: seq<string>,
                                       weather: string -> Weather)
    requires k in source && k !in rest && forall j :: j in rest ==> j in source
    requires !Trusted(link, m, k, source[k])
    requires weather(k) == Misleading(link) && forall j :: j in rest ==> weather(j) == Reconnect()
    ensures var s := SendAll(link, m, source, [k] + rest, weather); s.result.Ok? && Find(s.table, k) == Find(m, k)
  {
    hide RoundTrip, Handle;
    var keys := [k] + rest;
    if rest == [] {
      assert keys[..0] == [];
      UntrustedOutcome(link, m, k, source[k]);
    } else {
      var front, j := rest[..|rest| - 1], rest[|rest| - 1];
      assert keys[..|keys| - 1] == [k] + front && keys[|keys| - 1] == j;
      MisledGroup(link, m, source, k, front, weather);
      var s := SendAll(link, m, source, [k] + front, weather);
      ReconnectOutcome(s.link, s.table, InsertOf(j, source[j]));
      InsertOutcome(s.link, s.table, j, source[j], weather(j));
      assert j != k;
    }
  }

  /**
   An entry of a group can be given up once the group was sent, whatever the network does and the order is, exactly
   when it was to be trusted at the start: the other node held it already, or no response was waiting on the
   connection and its key is not empty.
   */
  lemma GroupIsTrusted(link: Link, m: Table, source: Table, keys: set<string>, k: string)
    requires keys <= source.Keys && k in keys
    ensures (forall order, weather: string -> Weather ::
              IsOrderOf(order, keys) ==> RemovableIn(link, m, source, order, weather, k))
            <==> Trusted(link, m, k, source[k])
  {
    if Trusted(link, m, k, source[k]) {
      forall order, weather: string -> Weather | IsOrderOf(order, keys)
        ensures RemovableIn(link, m, source, order, weather, k)
      {
        if SendAll(link, m, source, order, weather).result.Ok? {
          TrustedArrives(link, m, source, order, weather, k);
        }
      }
    } else {
      var rest := SomeOrder(keys - {k});
      var order := [k] + rest;
      var weather := (j: string) => if j == k then Misleading(link) else Reconnect();
      MisledGroup(link, m, source, k, rest, weather);
      assert IsOrderOf(order, keys);
      assert !RemovableIn(link, m, source, order, weather, k);
    }
  }
}
