/**
 The client and the cluster: zero-hop routing by hash, the requests a client
 sends and how it reads the answers. A cluster of any number of nodes answers
 like one node holding everything.
 */
module Client {
  import opened Common
  import opened LogFormat
  import opened Worker
  import Storage
  import opened Host
  import opened Hash
  import Utf8
  import Decimal

  /** The node a key is routed to. */
  function Resolve(key: string, nodes: seq<HostEntity>): Option<HostEntity> {
    if nodes == [] then None else Some(nodes[HashOfText(key) % |nodes|])
  }

  datatype ClientError =
    | EmptyKey
    | NoDestinationNode(key: string)
    | KeyNotFound(key: string)
    | CasMismatch(expected: string, actual: string)
    | LeaseExpired
    | Failed(code: string)

  /** The operations of the client; Await carries its lease as the text that is sent. */
  datatype Call =
    | Insert(key: string, value: string)
    | Lookup(key: string)
    | Remove(key: string)
    | Append(key: string, value: string)
    | CompareSwap(key: string, expected: string, newValue: string)
    | Await(key: string, expected: string, lease: string)

  type Answer = Result<string, ClientError>

  function RequestOf(c: Call): ZPack {
    match c
    case Insert(k, v) => Request(INSERT, k, v, "", "")
    case Lookup(k) => Request(LOOKUP, k, "", "", "")
    case Remove(k) => Request(REMOVE, k, "", "", "")
    case Append(k, v) => Request(APPEND, k, v, "", "")
    case CompareSwap(k, e, n) => Request(COMPARE_SWAP, k, e, n, "")
    case Await(k, e, lease) => Request(STATE_CHANGE_CALLBACK, k, e, "", lease)
  }

  /** The first three characters of the status field, which carries more than the status for a lookup. */
  function ParseStatus(response: ZPack): string {
    if |response.lease| >= 3 then response.lease[..3] else response.lease
  }

  /** How the client reads a response; operations without a value answer with the empty string. */
  function Read(c: Call, response: ZPack): Answer {
    var status := ParseStatus(response);
    match c
    case Lookup(k) =>
      if status == NONEXISTENT_KEY then Err(KeyNotFound(k))
      else if status != SUCCESS then Err(Failed(status))
      else Ok(if |response.lease| > 3 then response.lease[3..] else response.val)
    case Remove(k) =>
      if status == SUCCESS then Ok("")
      else if status == NONEXISTENT_KEY then Err(KeyNotFound(k))
      else Err(Failed(status))
    case CompareSwap(k, e, n) =>
      if status == NONEXISTENT_KEY then Err(KeyNotFound(k))
      else if status == CAS_MISMATCH then Err(CasMismatch(e, response.val))
      else Ok(response.val)
    case Await(_, _, _) =>
      if status == SUCCESS then Ok("") else if status == LEASE_EXPIRED then Err(LeaseExpired) else Err(Failed(status))
    case Insert(_, _) =>
      if status == SUCCESS then Ok("") else if status == EMPTY_KEY then Err(EmptyKey) else Err(Failed(status))
    case Append(_, _) =>
      if status == SUCCESS then Ok("") else Err(Failed(status))
  }

  // ---------- one node ----------

  /** A call answered by a single node holding the table. */
  function AtOneNode(m: Table, c: Call): (Table, Answer) {
    if c.key == "" then (m, Err(EmptyKey)) else
      var (m', response) := Handle(m, RequestOf(c));
      (m', Read(c, response))
  }

  /** What a call means for the table a client has in mind. */
  function Meaning(m: Table, c: Call): (Table, Answer) {
    if c.key == "" then (m, Err(EmptyKey)) else
      match c
      case Insert(k, v) => (m[k := v], Ok(""))
      case Lookup(k) => (m, if k in m then Ok(m[k]) else Err(KeyNotFound(k)))
      case Remove(k) => (m - {k}, if k in m then Ok("") else Err(KeyNotFound(k)))
      case Append(k, v) => (m[k := if k in m then m[k] + ":" + v else v], Ok(""))
      case CompareSwap(k, e, n) =>
        if k !in m || m[k] == e || m[k] == n then (m[k := n], Ok("")) else (m, Err(CasMismatch(e, m[k])))
      case Await(k, e, _) => (m, if k in m && m[k] == e then Ok("") else Err(LeaseExpired))
  }

  lemma StatusOfLookup(v: string)
    ensures (SUCCESS + v)[..3] == SUCCESS && (SUCCESS + v)[3..] == v
  {
  }

  /**
   The wire protocol carries the meaning: statuses and values never get mixed up, even for empty or status-like values.
   */
  lemma ProtocolIsFaithful(m: Table, c: Call)
    ensures AtOneNode(m, c) == Meaning(m, c)
  {
    if c.key != "" {
      Codes();
      match c {
        case Lookup(k) =>
          if k in m {
            StatusOfLookup(m[k]);
          }
        case Remove(k) =>
          assert k !in m ==> m - {k} == m;
        case CompareSwap(k, e, n) =>
          assert k in m ==> m[k := m[k]] == m;
        case _ =>
      }
    }
  }

  /** The status codes are three characters and different. */
  lemma Codes()
    ensures |SUCCESS| == |EMPTY_KEY| == |CAS_MISMATCH| == |LEASE_EXPIRED| == |NONEXISTENT_KEY| == 3
    ensures SUCCESS != NONEXISTENT_KEY && SUCCESS != CAS_MISMATCH && SUCCESS != LEASE_EXPIRED && SUCCESS != EMPTY_KEY
    ensures CAS_MISMATCH != NONEXISTENT_KEY
    ensures forall s: string :: |s| == 3 ==> s[..3] == s
  {
    assert SUCCESS[0] != NONEXISTENT_KEY[0] && SUCCESS[0] != CAS_MISMATCH[0] && SUCCESS[0] != LEASE_EXPIRED[0];
    assert SUCCESS[0] != EMPTY_KEY[0] && CAS_MISMATCH[1] != NONEXISTENT_KEY[1];
  }

  /**
   What the client makes of any response whatsoever, also one meant for another request: a success is a status field
   that begins with 000, and for a swap any but the two that refuse it.
   */
  lemma ReadExactly(c: Call, r: ZPack)
    ensures Read(c, r).Ok? <==>
            if c.CompareSwap? then !("-92" <= r.lease) && !("-02" <= r.lease) else "000" <= r.lease
    ensures Read(c, r).Ok? ==>
      Read(c, r).value == if c.Lookup? then (if |r.lease| > 3 then r.lease[3..] else r.val)
                          else if c.CompareSwap? then r.val else ""
    ensures (c.Lookup? || c.Remove? || c.CompareSwap?) && "-92" <= r.lease ==> Read(c, r) == Err(KeyNotFound(c.key))
    ensures c.CompareSwap? && "-02" <= r.lease ==> Read(c, r) == Err(CasMismatch(c.expected, r.val))
    ensures c.Await? && "-04" <= r.lease ==> Read(c, r) == Err(LeaseExpired)
    ensures c.Insert? && "-01" <= r.lease ==> Read(c, r) == Err(EmptyKey)
  {
    Prefixes(r.lease);
  }

  /** The first three characters are a code exactly when the text begins with it. */
  lemma Prefixes(lease: string)
    ensures forall code: string :: |code| == 3 ==>
              (code <= lease <==> (if |lease| >= 3 then lease[..3] else lease) == code)
  {
  }

  /** A callback carries its lease, so a lease of n milliseconds is granted as such. */
  lemma LeaseIsCarried(key: string, expected: string, n: nat)
    requires n <= 0xFFFF_FFFF_FFFF_FFFF
    ensures LeaseOf(RequestOf(Await(key, expected, Decimal.Digits(n)))) == n
  {
    LeaseIs(RequestOf(Await(key, expected, Decimal.Digits(n))));
    hide LeaseOf;
  }

  /** Routing by position: a key whose hash is i more than a multiple of the number of nodes goes to the i-th node. */
  lemma RoutedByPosition(key: string, nodes: seq<HostEntity>, q: nat, i: nat)
    requires i < |nodes| && HashOf(Utf8.Encode(key)) == q * |nodes| + i
    ensures Resolve(key, nodes) == Some(nodes[i])
  {
    RemainderIs(HashOf(Utf8.Encode(key)), |nodes|, q, i);
  }

  // ---------- a cluster ----------

  type Stores = map<HostEntity, Table>

  function StoreAt(stores: Stores, h: HostEntity): Table {
    if h in stores then stores[h] else map[]
  }

  function AtCluster(nodes: seq<HostEntity>, stores: Stores, c: Call): (Stores, Answer) {
    if c.key == "" then (stores, Err(EmptyKey)) else
      match Resolve(c.key, nodes)
      case None => (stores, Err(NoDestinationNode(c.key)))
      case Some(h) =>
        var (m', response) := Handle(StoreAt(stores, h), RequestOf(c));
        (stores[h := m'], Read(c, response))
  }

  /** The nodes together hold the table: every key at its owner, with its value, and nowhere else. */
  ghost predicate Spread(nodes: seq<HostEntity>, stores: Stores, m: Table) {
    && (forall h, k :: h in stores && k in stores[h] ==> k in m && Resolve(k, nodes) == Some(h))
    && forall k :: k in m ==> Resolve(k, nodes).Some? && Find(StoreAt(stores, Resolve(k, nodes).value), k) == Some(m[k])
  }

  function Find(m: Table, k: string): Option<string> {
    if k in m then Some(m[k]) else None
  }

  /** A request concerns the table at its key alone. */
  lemma HandleIsLocal(m: Table, n: Table, r: ZPack)
    requires Find(m, r.key) == Find(n, r.key)
    ensures Handle(m, r).1 == Handle(n, r).1
    ensures Find(Handle(m, r).0, r.key) == Find(Handle(n, r).0, r.key)
    ensures forall k :: k != r.key ==> Find(Handle(m, r).0, k) == Find(m, k)
  {
  }

  /** One call at the cluster answers as one node would, and keeps every key at its owner. */
  lemma ClusterStep(nodes: seq<HostEntity>, stores: Stores, m: Table, c: Call)
    requires nodes != [] && Spread(nodes, stores, m)
    ensures AtCluster(nodes, stores, c).1 == AtOneNode(m, c).1
    ensures Spread(nodes, AtCluster(nodes, stores, c).0, AtOneNode(m, c).0)
  {
    hide Handle, Read, RequestOf, HashOfText;
    if c.key != "" {
      KeyOfRequest(c);
      var h := Resolve(c.key, nodes).value;
      var r := RequestOf(c);
      HandleIsLocal(StoreAt(stores, h), m, r);
      HandleIsLocal(m, m, r);
      SpreadStep(nodes, stores, m, h, c.key, Handle(StoreAt(stores, h), r).0, Handle(m, r).0);
    }
  }

  lemma KeyOfRequest(c: Call)
    ensures RequestOf(c).key == c.key
  {
  }

  lemma SpreadStep(nodes: seq<HostEntity>, stores: Stores, m: Table, h: HostEntity, key: string, t: Table, m': Table)
    requires Spread(nodes, stores, m) && Resolve(key, nodes) == Some(h)
    requires Find(t, key) == Find(m', key)
    requires forall k :: k != key ==> Find(t, k) == Find(StoreAt(stores, h), k) && Find(m', k) == Find(m, k)
    ensures Spread(nodes, stores[h := t], m')
  {
    hide Resolve;
    var stores' := stores[h := t];
    forall g, k | g in stores' && k in stores'[g] ensures k in m' && Resolve(k, nodes) == Some(g) {
      if g == h {
        assert k != key ==> Find(t, k) == Find(StoreAt(stores, h), k) && Find(m', k) == Find(m, k);
      } else {
        assert k in stores[g] && k != key;
        assert Find(m', k) == Find(m, k);
      }
    }
    forall k | k in m'
      ensures Resolve(k, nodes).Some? && Find(StoreAt(stores', Resolve(k, nodes).value), k) == Some(m'[k])
    {
      if k != key {
        assert Find(m', k) == Find(m, k);
      }
    }
  }

  function ClusterRun(nodes: seq<HostEntity>, stores: Stores, calls: seq<Call>): (r: (Stores, seq<Answer>)) {
    if calls == [] then (stores, []) else
      var (before, answers) := ClusterRun(nodes, stores, calls[..|calls| - 1]);
      var (after, answer) := AtCluster(nodes, before, calls[|calls| - 1]);
      (after, answers + [answer])
  }

  function MeaningRun(m: Table, calls: seq<Call>): (r: (Table, seq<Answer>)) {
    if calls == [] then (m, []) else
      var (before, answers) := MeaningRun(m, calls[..|calls| - 1]);
      var (after, answer) := Meaning(before, calls[|calls| - 1]);
      (after, answers + [answer])
  }

  /** Any run of calls on a cluster answers as one table would, with every key kept at its owner. */
  lemma {:induction false} ClusterIsOneTable(nodes: seq<HostEntity>, stores: Stores, m: Table, calls: seq<Call>)
    requires nodes != [] && Spread(nodes, stores, m)
    ensures ClusterRun(nodes, stores, calls).1 == MeaningRun(m, calls).1
    ensures Spread(nodes, ClusterRun(nodes, stores, calls).0, MeaningRun(m, calls).0)
  {
    hide AtCluster, Meaning, AtOneNode, Spread;
    if calls != [] {
      var front, last := calls[..|calls| - 1], calls[|calls| - 1];
      ClusterIsOneTable(nodes, stores, m, front);
      var before, table := ClusterRun(nodes, stores, front).0, MeaningRun(m, front).0;
      ClusterStep(nodes, before, table, last);
      ProtocolIsFaithful(table, last);
    }
  }

  /** What a lookup returns right after an insert of any value whatsoever. */
  lemma LookupAfterInsert(nodes: seq<HostEntity>, stores: Stores, key: string, value: string)
    requires nodes != [] && key != ""
    ensures AtCluster(nodes, AtCluster(nodes, stores, Insert(key, value)).0, Lookup(key)).1 == Ok(value)
  {
    hide HashOfText;
    var h := Resolve(key, nodes).value;
    var m := StoreAt(stores, h);
    ProtocolIsFaithful(m, Insert(key, value));
    ProtocolIsFaithful(m[key := value], Lookup(key));
  }
}
