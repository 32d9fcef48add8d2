/**
 The request processor of a server node: the unmetered dispatcher as a function,
 and the metered one in place, shown to be that function plus exact counts.
 */
module Worker {
  import opened Common
  import opened Decimal
  import opened LogFormat
  import opened Storage

  /** A protocol message. The fields are bytes on the wire; here they are the text those bytes encode. */
  datatype ZPack = ZPack(opcode: string, key: string, val: string, newval: string, lease: string, valnull: bool)

  const LOOKUP := "001"
  const REMOVE := "002"
  const INSERT := "003"
  const APPEND := "004"
  const COMPARE_SWAP := "005"
  const STATE_CHANGE_CALLBACK := "006"

  const SUCCESS := "000"
  const EMPTY_KEY := "-01"
  const CAS_MISMATCH := "-02"
  const SERVER_FAILURE := "-03"
  const LEASE_EXPIRED := "-04"
  const NONEXISTENT_KEY := "-92"
  const UNRECOGNIZED_OPCODE := "-98"

  const POLL_INTERVAL := 100

  function Request(opcode: string, key: string, val: string, newval: string, lease: string): ZPack {
    ZPack(opcode, key, val, newval, lease, false)
  }

  /** A response echoes the opcode and the key. */
  function Response(request: ZPack, lease: string): ZPack {
    ZPack(request.opcode, request.key, "", "", lease, false)
  }

  /** What the caller sees while polling when nothing else writes the key. */
  function QuietPoll(m: Table, request: ZPack): string {
    if request.key in m && m[request.key] == request.val then SUCCESS else LEASE_EXPIRED
  }

  /**
   The dispatcher without metrics: the table afterwards and the response, with no concurrent writer while it polls.
   */
  function Handle(m: Table, request: ZPack): (Table, ZPack) {
    var k := request.key;
    if k == "" then (m, Response(request, EMPTY_KEY))
    else if request.opcode == LOOKUP then
      if k in m then (m, Response(request, SUCCESS + m[k]).(val := m[k]))
      else (m, Response(request, NONEXISTENT_KEY).(valnull := true))
    else if request.opcode == INSERT then
      (TableAfter(m, Op.Put(k, request.val)), Response(request, SUCCESS))
    else if request.opcode == REMOVE then
      (TableAfter(m, Op.Remove(k)), Response(request, if k in m then SUCCESS else NONEXISTENT_KEY))
    else if request.opcode == APPEND then
      (TableAfter(m, Op.Append(k, request.val)), Response(request, SUCCESS))
    else if request.opcode == COMPARE_SWAP then
      var actual := Swapped(m, k, request.val, request.newval);
      (TableAfter(m, Op.CompareSwap(k, request.val, request.newval)),
       if actual == request.newval then Response(request, SUCCESS)
       else Response(request, CAS_MISMATCH).(val := actual))
    else if request.opcode == STATE_CHANGE_CALLBACK then (m, Response(request, QuietPoll(m, request)))
    else (m, Response(request, UNRECOGNIZED_OPCODE))
  }

  predicate Succeeded(response: ZPack) {
    IsSuccess(response.lease)
  }

  predicate IsSuccess(lease: string) {
    SUCCESS <= lease
  }

  lemma Statuses()
    ensures IsSuccess(SUCCESS) && forall v: string :: IsSuccess(SUCCESS + v)
    ensures !IsSuccess(EMPTY_KEY) && !IsSuccess(CAS_MISMATCH) && !IsSuccess(LEASE_EXPIRED)
    ensures !IsSuccess(NONEXISTENT_KEY) && !IsSuccess(UNRECOGNIZED_OPCODE)
  {
    assert EMPTY_KEY[0] == CAS_MISMATCH[0] == LEASE_EXPIRED[0] == NONEXISTENT_KEY[0] == UNRECOGNIZED_OPCODE[0] == '-';
    assert SUCCESS[0] == '0';
  }

  /** Every answer, field by field, as it goes over the wire. */
  lemma AnswerOnTheWire(m: Table, r: ZPack)
    ensures var p, k := Handle(m, r).1, r.key;
            && p.opcode == r.opcode && p.key == k && p.newval == ""
            && (k == "" ==> p.lease == "-01" && p.val == "" && !p.valnull)
            && (k != "" ==>
                  match r.opcode
                  case "001" =>
                    if k in m then p.lease == "000" + m[k] && p.val == m[k] && !p.valnull
                    else p.lease == "-92" && p.val == "" && p.valnull
                  case "002" => p.lease == (if k in m then "000" else "-92") && p.val == "" && !p.valnull
                  case "003" => p.lease == "000" && p.val == "" && !p.valnull
                  case "004" => p.lease == "000" && p.val == "" && !p.valnull
                  case "005" =>
                    if k in m && m[k] != r.val && m[k] != r.newval then p.lease == "-02" && p.val == m[k] && !p.valnull
                    else p.lease == "000" && p.val == "" && !p.valnull
                  case "006" =>
                    p.lease == (if k in m && m[k] == r.val then "000" else "-04") && p.val == "" && !p.valnull
                  case _ => p.lease == "-98" && p.val == "" && !p.valnull)
  {
  }

  /** What each opcode on the wire does to a node's table; no other one does anything. */
  lemma EffectOnTheWire(m: Table, r: ZPack)
    requires r.key != ""
    ensures var m', k := Handle(m, r).0, r.key;
            match r.opcode
            case "002" => m' == m - {k}
            case "003" => m' == m[k := r.val]
            case "004" => m' == m[k := if k in m then m[k] + ":" + r.val else r.val]
            case "005" => m' == if k in m && m[k] != r.val then m else m[k := r.newval]
            case _ => m' == m
  {
    assert r.opcode == "005" && r.key in m ==> m[r.key := m[r.key]] == m;
  }

  // ---------- what a request does to the store ----------

  /** The operation of the store that a request asks for, if any. */
  function Asked(r: ZPack): Option<Op> {
    if r.key == "" then None
    else if r.opcode == INSERT then Some(Op.Put(r.key, r.val))
    else if r.opcode == REMOVE then Some(Op.Remove(r.key))
    else if r.opcode == APPEND then Some(Op.Append(r.key, r.val))
    else if r.opcode == COMPARE_SWAP then Some(Op.CompareSwap(r.key, r.val, r.newval))
    else None
  }

  /** The table and the file of a store, before and after a request. */
  ghost predicate Served(persistent: bool, before: Db, r: ZPack, after: Db) {
    match Asked(r)
    case None => after == before
    case Some(op) =>
      if persistent then Step(before, op, after) else after == Db(TableAfter(before.table, op), before.file)
  }

  /** What is served changes the table as the dispatcher does. */
  lemma ServedIsHandled(persistent: bool, before: Db, r: ZPack, after: Db)
    requires Served(persistent, before, r, after)
    ensures after.table == Handle(before.table, r).0
  {
    hide LogOf;
  }

  /**
   A node whose log replays to its table still has such a log after a request exactly when what is logged for it can
   be read back.
   */
  lemma ServedIsDurable(before: Db, r: ZPack, after: Db)
    requires Durable(before) && Served(true, before, r, after)
    ensures Durable(after) <==> Asked(r).None? || Safe(before.table, Asked(r).value)
  {
    hide Durable, Safe, LogOf, TableAfter, Step;
    if Asked(r).Some? {
      assert Step(before, Asked(r).value, after) by { ServedIsStep(before, r, after); }
      StepDurable(before, Asked(r).value, after);
    }
  }

  lemma ServedIsStep(before: Db, r: ZPack, after: Db)
    requires Served(true, before, r, after) && Asked(r).Some?
    ensures Step(before, Asked(r).value, after)
  {
    hide LogOf, TableAfter;
  }

  // ---------- doing a request twice ----------

  /** A second delivery leaves the store as the first did, except for APPEND. */
  lemma TwiceSameStore(m: Table, r: ZPack)
    ensures Handle(Handle(m, r).0, r).0 == Handle(m, r).0 <==> !(r.opcode == APPEND && r.key != "")
  {
    var m1 := Handle(m, r).0;
    if r.opcode == APPEND && r.key != "" {
      assert |Handle(m1, r).0[r.key]| > |m1[r.key]|;
    }
  }

  /** A second delivery gets the response of the first, except for APPEND's effect and the REMOVE of a present key. */
  lemma TwiceSameResponse(m: Table, r: ZPack)
    ensures Handle(Handle(m, r).0, r).1 == Handle(m, r).1 <==> !(r.opcode == REMOVE && r.key in m && r.key != "")
  {
  }

  /** Requests for which delivering twice cannot be told from delivering once. */
  predicate RetrySafe(r: ZPack) {
    r.key == "" || (r.opcode != APPEND && r.opcode != REMOVE)
  }

  /**
   For requests other than APPEND and REMOVE of a key, a second delivery is indistinguishable in every state; for those
   two it is not.
   */
  lemma RetrySafeExactly(r: ZPack)
    ensures RetrySafe(r) <==> forall m: Table :: Handle(Handle(m, r).0, r) == Handle(m, r)
  {
    if RetrySafe(r) {
      forall m: Table ensures Handle(Handle(m, r).0, r) == Handle(m, r) {
        TwiceSameStore(m, r);
        TwiceSameResponse(m, r);
      }
    } else {
      var m: Table := map[r.key := ""];
      TwiceSameStore(m, r);
      TwiceSameResponse(m, r);
      assert Handle(Handle(m, r).0, r) != Handle(m, r);
    }
  }

  // ---------- polling ----------

  /**
   The outcome of polling: the last of `polls` observations decides, and every earlier one was a mismatch before the
   deadline.
   */
  ghost predicate PollEnds(seen: nat -> Option<string>, clock: nat -> nat, expected: string, deadline: nat,
                           status: string, polls: nat)
  {
    && polls >= 1
    && (status == if seen(polls - 1) == Some(expected) then SUCCESS else LEASE_EXPIRED)
    && (status == LEASE_EXPIRED ==> clock(polls - 1) >= deadline)
    && forall i :: 0 <= i < polls - 1 ==> seen(i) != Some(expected) && clock(i) < deadline
  }

  /** How a polling run can end is determined by what it sees. */
  lemma PollIsDetermined(seen: nat -> Option<string>, clock: nat -> nat, expected: string, deadline: nat,
                         s: string, n: nat, s': string, n': nat)
    requires PollEnds(seen, clock, expected, deadline, s, n) && PollEnds(seen, clock, expected, deadline, s', n')
    ensures s == s' && n == n'
  {
  }

  function LeaseOf(request: ZPack): nat {
    match ParseUnsigned(request.lease, 0xFFFF_FFFF_FFFF_FFFF)
    case Some(n) => n
    case None => POLL_INTERVAL
  }

  /** A lease sent as a number of milliseconds that fits 64 bits is that number; one that is no number is 100. */
  lemma LeaseIs(request: ZPack)
    ensures forall n :: n <= 0xFFFF_FFFF_FFFF_FFFF && request.lease == Digits(n) ==> LeaseOf(request) == n
    ensures (forall n :: ParseUnsigned(request.lease, 0xFFFF_FFFF_FFFF_FFFF) != Some(n)) ==> LeaseOf(request) == 100
  {
    hide Digits, ParseUnsigned;
    forall n | n <= 0xFFFF_FFFF_FFFF_FFFF && request.lease == Digits(n) ensures LeaseOf(request) == n {
      ParseOfDigits(n, 0xFFFF_FFFF_FFFF_FFFF);
    }
    if ParseUnsigned(request.lease, 0xFFFF_FFFF_FFFF_FFFF).Some? {
      var n := ParseUnsigned(request.lease, 0xFFFF_FFFF_FFFF_FFFF).value;
      assert ParseUnsigned(request.lease, 0xFFFF_FFFF_FFFF_FFFF) == Some(n);
    }
  }

  /**
   A callback with a lease of n milliseconds expires n milliseconds after its start or later, having missed the value.
   */
  lemma ExpiryIsLate(s: Surroundings, request: ZPack, n: nat, status: string, polls: nat)
    requires n <= 0xFFFF_FFFF_FFFF_FFFF && request.lease == Digits(n)
    requires PollEnds(Seen(s, request.key), s.clock, request.val, DeadlineOf(s, request), status, polls)
    ensures polls > 0
    ensures status == "-04" ==>
      s.clock(polls - 1) >= s.start + n && Seen(s, request.key)(polls - 1) != Some(request.val)
    ensures status != "-04" ==> status == "000" && Seen(s, request.key)(polls - 1) == Some(request.val)
  {
    LeaseIs(request);
    hide LeaseOf;
    assert SUCCESS[0] != LEASE_EXPIRED[0];
  }

  /** What polling reads from the store and the clock while other clients go on writing. */
  datatype Surroundings = Surroundings(start: nat, tables: nat -> Table, clock: nat -> nat)

  /** What each poll sees of a key. */
  function Seen(s: Surroundings, key: string): nat -> Option<string> {
    (i: nat) => if key in s.tables(i) then Some(s.tables(i)[key]) else None
  }

  ghost predicate Steady(s: Surroundings) {
    s.start <= s.clock(0) && forall i: nat :: s.clock(i) + POLL_INTERVAL <= s.clock(i + 1)
  }

  function DeadlineOf(s: Surroundings, request: ZPack): nat {
    s.start + LeaseOf(request)
  }

  /**
   The polling loop against whatever other clients write meanwhile; it ends one poll after the lease at the latest.
   */
  method Poll(s: Surroundings, request: ZPack) returns (status: string, polls: nat)
    requires Steady(s)
    ensures PollEnds(Seen(s, request.key), s.clock, request.val, DeadlineOf(s, request), status, polls)
    ensures polls <= (LeaseOf(request) + 99) / 100 + 1
  {
    hide LeaseOf;
    var lease: int := LeaseOf(request);
    var deadline := s.start + lease;
    var i := 0;
    while true
      invariant s.clock(i) >= s.start + 100 * i
      invariant i > 0 ==> 100 * (i - 1) < lease
      invariant forall j :: 0 <= j < i ==> Seen(s, request.key)(j) != Some(request.val) && s.clock(j) < deadline
      decreases lease + 100 - 100 * i
    {
      if request.key in s.tables(i) && s.tables(i)[request.key] == request.val {
        return SUCCESS, i + 1;
      }
      if s.clock(i) >= deadline {
        return LEASE_EXPIRED, i + 1;
      }
      i := i + 1;
    }
  }

  // ---------- metrics ----------

  datatype Metrics = Metrics(
    totalOperations: nat, totalErrors: nat,
    insertCount: nat, insertErrors: nat, lookupCount: nat, lookupErrors: nat,
    removeCount: nat, removeErrors: nat, appendCount: nat, appendErrors: nat,
    compareSwapCount: nat, compareSwapErrors: nat, callbackCount: nat, callbackErrors: nat,
    unrecognizedCount: nat)

  const ZERO := Metrics(0, 0, 0, 0, 0, 0, 0, 0, 0, 0, 0, 0, 0, 0, 0)

  /** A request and the response it got. */
  datatype Event = Event(request: ZPack, response: ZPack)

  function Count(p: Event -> bool, history: seq<Event>): nat {
    if history == [] then 0 else
      Count(p, history[..|history| - 1]) + if p(history[|history| - 1]) then 1 else 0
  }

  function Runs(opcode: string): Event -> bool {
    (e: Event) => e.request.key != "" && e.request.opcode == opcode
  }

  function Fails(opcode: string): Event -> bool {
    (e: Event) => e.request.opcode == opcode && !Succeeded(e.response)
  }

  predicate Known(opcode: string) {
    opcode in [LOOKUP, REMOVE, INSERT, APPEND, COMPARE_SWAP, STATE_CHANGE_CALLBACK]
  }

  function AnyRun(): Event -> bool {
    (e: Event) => true
  }

  function AnyFailure(): Event -> bool {
    (e: Event) => !Succeeded(e.response)
  }

  function Unrecognized(): Event -> bool {
    (e: Event) => e.request.key != "" && !Known(e.request.opcode)
  }

  function Keyless(): Event -> bool {
    (e: Event) => e.request.key == ""
  }

  /** What the counters mean: each counts the events of its kind. */
  function Tally(h: seq<Event>): Metrics {
    Metrics(Count(AnyRun(), h), Count(AnyFailure(), h),
            Count(Runs(INSERT), h), Count(Fails(INSERT), h), Count(Runs(LOOKUP), h), Count(Fails(LOOKUP), h),
            Count(Runs(REMOVE), h), Count(Fails(REMOVE), h), Count(Runs(APPEND), h), Count(Fails(APPEND), h),
            Count(Runs(COMPARE_SWAP), h), Count(Fails(COMPARE_SWAP), h),
            Count(Runs(STATE_CHANGE_CALLBACK), h), Count(Fails(STATE_CHANGE_CALLBACK), h),
            Count(Unrecognized(), h))
  }

  function Bit(b: bool): nat {
    if b then 1 else 0
  }

  function Bumped(m: Metrics, e: Event): Metrics {
    Metrics(m.totalOperations + 1, m.totalErrors + Bit(AnyFailure()(e)),
            m.insertCount + Bit(Runs(INSERT)(e)), m.insertErrors + Bit(Fails(INSERT)(e)),
            m.lookupCount + Bit(Runs(LOOKUP)(e)), m.lookupErrors + Bit(Fails(LOOKUP)(e)),
            m.removeCount + Bit(Runs(REMOVE)(e)), m.removeErrors + Bit(Fails(REMOVE)(e)),
            m.appendCount + Bit(Runs(APPEND)(e)), m.appendErrors + Bit(Fails(APPEND)(e)),
            m.compareSwapCount + Bit(Runs(COMPARE_SWAP)(e)), m.compareSwapErrors + Bit(Fails(COMPARE_SWAP)(e)),
            m.callbackCount + Bit(Runs(STATE_CHANGE_CALLBACK)(e)),
            m.callbackErrors + Bit(Fails(STATE_CHANGE_CALLBACK)(e)),
            m.unrecognizedCount + Bit(Unrecognized()(e)))
  }

  lemma TallyNext(h: seq<Event>, e: Event)
    ensures Tally(h + [e]) == Bumped(Tally(h), e)
  {
    assert (h + [e])[..|h|] == h;
  }

  /** Which counter an event moves, by the opcode on the wire. */
  lemma CountersByOpcode(e: Event)
    ensures var t, keyed, failed := Tally([e]), e.request.key != "", !("000" <= e.response.lease);
            && t.totalOperations == 1 && (t.totalErrors == 1 <==> failed)
            && (t.lookupCount == 1 <==> keyed && e.request.opcode == "001")
            && (t.lookupErrors == 1 <==> failed && e.request.opcode == "001")
            && (t.removeCount == 1 <==> keyed && e.request.opcode == "002")
            && (t.removeErrors == 1 <==> failed && e.request.opcode == "002")
            && (t.insertCount == 1 <==> keyed && e.request.opcode == "003")
            && (t.insertErrors == 1 <==> failed && e.request.opcode == "003")
            && (t.appendCount == 1 <==> keyed && e.request.opcode == "004")
            && (t.appendErrors == 1 <==> failed && e.request.opcode == "004")
            && (t.compareSwapCount == 1 <==> keyed && e.request.opcode == "005")
            && (t.compareSwapErrors == 1 <==> failed && e.request.opcode == "005")
            && (t.callbackCount == 1 <==> keyed && e.request.opcode == "006")
            && (t.callbackErrors == 1 <==> failed && e.request.opcode == "006")
            && (t.unrecognizedCount == 1 <==>
                  keyed && e.request.opcode !in ["001", "002", "003", "004", "005", "006"])
  {
    assert [] + [e] == [e];
    TallyNext([], e);
    assert Tally([]) == ZERO;
    hide Tally;
  }

  /** Every event is counted once: by its opcode, as unrecognized, or as having no key. */
  lemma {:induction false} OperationsAddUp(h: seq<Event>)
    ensures var t := Tally(h);
            t.totalOperations == t.insertCount + t.lookupCount + t.removeCount + t.appendCount + t.compareSwapCount
                                 + t.callbackCount + t.unrecognizedCount + Count(Keyless(), h)
  {
    if h != [] {
      var front, e := h[..|h| - 1], h[|h| - 1];
      assert h == front + [e];
      OperationsAddUp(front);
      TallyNext(front, e);
    }
  }

  function UnknownFails(): Event -> bool {
    (e: Event) => !Known(e.request.opcode) && !Succeeded(e.response)
  }

  /** Every failure is counted once: by its opcode, or as one of an unknown opcode. */
  lemma {:induction false} ErrorsAddUp(h: seq<Event>)
    ensures var t := Tally(h);
            t.totalErrors == t.insertErrors + t.lookupErrors + t.removeErrors + t.appendErrors + t.compareSwapErrors
                             + t.callbackErrors + Count(UnknownFails(), h)
  {
    if h != [] {
      var front, e := h[..|h| - 1], h[|h| - 1];
      assert h == front + [e];
      ErrorsAddUp(front);
      TallyNext(front, e);
    }
  }

  // ---------- the metered worker in place ----------

  /** The response is the unmetered dispatcher's; for a callback its status is how polling ends. */
  ghost predicate Answers(m: Table, request: ZPack, s: Surroundings, response: ZPack) {
    if request.key != "" && request.opcode == STATE_CHANGE_CALLBACK then
      && response == Response(request, response.lease)
      && exists polls ::
           PollEnds(Seen(s, request.key), s.clock, request.val, DeadlineOf(s, request), response.lease, polls)
    else response == Handle(m, request).1
  }

  /** When nothing else writes the key during the call, the callback too answers as the unmetered dispatcher. */
  lemma QuietCallback(m: Table, request: ZPack, s: Surroundings, response: ZPack)
    requires Answers(m, request, s, response)
    requires forall i: nat :: Seen(s, request.key)(i) == if request.key in m then Some(m[request.key]) else None
    ensures response == Handle(m, request).1
  {
  }

  class HTWorker {
    const store: NoVoHT
    var metrics: Metrics
    ghost var history: seq<Event>

    /** The counters say what happened. */
    ghost predicate Valid()
      reads this
    {
      metrics == Tally(history)
    }

    constructor (store: NoVoHT)
      ensures Valid() && this.store == store && history == [] && metrics == ZERO
    {
      this.store, metrics, history := store, ZERO, [];
    }

    /** The source's dispatcher, one opcode a branch; each branch keeps its own counters. */
    method Process(request: ZPack, s: Surroundings) returns (response: ZPack)
      requires Valid() && Steady(s)
      modifies this, store
      ensures Valid() && history == old(history) + [Event(request, response)]
      ensures store.table == Handle(old(store.table), request).0
      ensures Served(store.persistent, old(store.Now()), request, store.Now())
      ensures Answers(old(store.table), request, s, response)
    {
      hide Tally, Bumped, Handle;
      if request.key == "" {
        response := RefuseKeyless(request);
      } else {
        match request.opcode {
          case "001" => response := Lookup(request);
          case "003" => response := Insert(request);
          case "002" => response := Remove(request);
          case "004" => response := Append(request);
          case "005" => response := CompareAndSwap(request);
          case "006" => response := Await(request, s);
          case _ => response := RefuseOpcode(request);
        }
      }
      TallyNext(history, Event(request, response));
      history := history + [Event(request, response)];
    }

    method RefuseKeyless(request: ZPack) returns (response: ZPack)
      requires request.key == ""
      modifies this`metrics
      ensures metrics == Bumped(old(metrics), Event(request, response))
      ensures (store.table, response) == Handle(store.table, request)
    {
      hide IsSuccess;
      Statuses();
      metrics := metrics.(totalOperations := metrics.totalOperations + 1, totalErrors := metrics.totalErrors + 1);
      match request.opcode {
        case "001" => metrics := metrics.(lookupErrors := metrics.lookupErrors + 1);
        case "003" => metrics := metrics.(insertErrors := metrics.insertErrors + 1);
        case "002" => metrics := metrics.(removeErrors := metrics.removeErrors + 1);
        case "004" => metrics := metrics.(appendErrors := metrics.appendErrors + 1);
        case "005" => metrics := metrics.(compareSwapErrors := metrics.compareSwapErrors + 1);
        case "006" => metrics := metrics.(callbackErrors := metrics.callbackErrors + 1);
        case _ =>
      }
      response := Response(request, EMPTY_KEY);
    }

    method Lookup(request: ZPack) returns (response: ZPack)
      requires request.key != "" && request.opcode == LOOKUP
      modifies this`metrics
      ensures metrics == Bumped(old(metrics), Event(request, response))
      ensures (store.table, response) == Handle(store.table, request)
    {
      hide IsSuccess;
      Statuses();
      metrics := metrics.(totalOperations := metrics.totalOperations + 1, lookupCount := metrics.lookupCount + 1);
      var r := store.Get(request.key);
      match r {
        case Ok(val) =>
          response := Response(request, SUCCESS + val).(val := val);
          assert SUCCESS <= SUCCESS + val;
        case Err(_) =>
          response := Response(request, NONEXISTENT_KEY).(valnull := true);
          metrics := metrics.(lookupErrors := metrics.lookupErrors + 1, totalErrors := metrics.totalErrors + 1);
      }
    }

    method Insert(request: ZPack) returns (response: ZPack)
      requires request.key != "" && request.opcode == INSERT
      modifies this`metrics, store
      ensures metrics == Bumped(old(metrics), Event(request, response))
      ensures (store.table, response) == Handle(old(store.table), request)
      ensures Served(store.persistent, old(store.Now()), request, store.Now())
    {
      hide IsSuccess;
      Statuses();
      metrics := metrics.(totalOperations := metrics.totalOperations + 1, insertCount := metrics.insertCount + 1);
      var r := store.Put(request.key, request.val);
      // The store refuses only an empty key, so the failure status is never sent.
      response := Response(request, if r.Ok? then SUCCESS else SERVER_FAILURE);
    }

    method Remove(request: ZPack) returns (response: ZPack)
      requires request.key != "" && request.opcode == REMOVE
      modifies this`metrics, store
      ensures metrics == Bumped(old(metrics), Event(request, response))
      ensures (store.table, response) == Handle(old(store.table), request)
      ensures Served(store.persistent, old(store.Now()), request, store.Now())
    {
      hide IsSuccess;
      Statuses();
      metrics := metrics.(totalOperations := metrics.totalOperations + 1, removeCount := metrics.removeCount + 1);
      var r := store.Remove(request.key);
      match r {
        case Ok(_) => response := Response(request, SUCCESS);
        case Err(_) =>
          response := Response(request, NONEXISTENT_KEY);
          metrics := metrics.(removeErrors := metrics.removeErrors + 1, totalErrors := metrics.totalErrors + 1);
      }
    }

    method Append(request: ZPack) returns (response: ZPack)
      requires request.key != "" && request.opcode == APPEND
      modifies this`metrics, store
      ensures metrics == Bumped(old(metrics), Event(request, response))
      ensures (store.table, response) == Handle(old(store.table), request)
      ensures Served(store.persistent, old(store.Now()), request, store.Now())
    {
      hide IsSuccess;
      Statuses();
      metrics := metrics.(totalOperations := metrics.totalOperations + 1, appendCount := metrics.appendCount + 1);
      var r := store.Append(request.key, request.val);
      // The store refuses only an empty key, so the failure status is never sent.
      response := Response(request, if r.Ok? then SUCCESS else SERVER_FAILURE);
    }

    /** Reports success whenever the value now stored is the new one, whether or not it was swapped in. */
    method CompareAndSwap(request: ZPack) returns (response: ZPack)
      requires request.key != "" && request.opcode == COMPARE_SWAP
      modifies this`metrics, store
      ensures metrics == Bumped(old(metrics), Event(request, response))
      ensures (store.table, response) == Handle(old(store.table), request)
      ensures Served(store.persistent, old(store.Now()), request, store.Now())
    {
      hide IsSuccess;
      Statuses();
      metrics := metrics.(totalOperations := metrics.totalOperations + 1,
                          compareSwapCount := metrics.compareSwapCount + 1);
      var actual := store.CompareSwap(request.key, request.val, request.newval);
      if actual == request.newval {
        response := Response(request, SUCCESS);
      } else {
        response := Response(request, CAS_MISMATCH).(val := actual);
        metrics := metrics.(compareSwapErrors := metrics.compareSwapErrors + 1, totalErrors := metrics.totalErrors + 1);
      }
    }

    method Await(request: ZPack, s: Surroundings) returns (response: ZPack)
      requires request.key != "" && request.opcode == STATE_CHANGE_CALLBACK && Steady(s)
      modifies this`metrics
      ensures metrics == Bumped(old(metrics), Event(request, response))
      ensures store.table == Handle(store.table, request).0
      ensures Answers(store.table, request, s, response)
    {
      hide IsSuccess;
      Statuses();
      metrics := metrics.(totalOperations := metrics.totalOperations + 1, callbackCount := metrics.callbackCount + 1);
      hide PollEnds, DeadlineOf, Steady;
      var status, polls := Poll(s, request);
      response := Response(request, status);
      if status == LEASE_EXPIRED {
        metrics := metrics.(callbackErrors := metrics.callbackErrors + 1, totalErrors := metrics.totalErrors + 1);
      }
    }

    method RefuseOpcode(request: ZPack) returns (response: ZPack)
      requires request.key != "" && !Known(request.opcode)
      modifies this`metrics
      ensures metrics == Bumped(old(metrics), Event(request, response))
      ensures (store.table, response) == Handle(store.table, request)
    {
      hide IsSuccess;
      Statuses();
      metrics := metrics.(totalOperations := metrics.totalOperations + 1, totalErrors := metrics.totalErrors + 1,
                          unrecognizedCount := metrics.unrecognizedCount + 1);
      response := Response(request, UNRECOGNIZED_OPCODE);
    }
  }
}
