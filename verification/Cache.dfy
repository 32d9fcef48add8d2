/**
 The bounded LRU cache: a table and a recency queue, shown to be the cache that
 stamps every entry with the time of its last use and evicts the oldest stamp.
 */
module Cache {
  import opened Common

  // ---------- the cache on values ----------

  /** The table and the keys from most to least recently used. */
  datatype Lru<K, V> = Lru(entries: map<K, V>, order: seq<K>)

  datatype Op<K, V> = Insert(key: K, value: V) | Fetch(key: K) | Touch(key: K) | Remove(key: K) | Clear

  function Position<K(==)>(s: seq<K>, k: K): (i: nat)
    ensures i <= |s| && k !in s[..i] && (i < |s| ==> s[i] == k)
  {
    if s == [] || s[0] == k then 0 else
      var i := 1 + Position(s[1..], k);
      assert s[..i] == [s[0]] + s[1..][..i - 1];
      i
  }

  /** The queue without the first occurrence of k. */
  function Without<K(==)>(s: seq<K>, k: K): seq<K> {
    var i := Position(s, k);
    if i < |s| then s[..i] + s[i + 1..] else s
  }

  function Evict<K, V>(c: Lru<K, V>, cap: nat): Lru<K, V>
    decreases |c.order|
  {
    if |c.entries| > cap && c.order != [] then
      var last := |c.order| - 1;
      Evict(Lru(c.entries - {c.order[last]}, c.order[..last]), cap)
    else c
  }

  function Placed<K, V>(c: Lru<K, V>, k: K, v: V): Lru<K, V> {
    Lru(c.entries[k := v], [k] + Without(c.order, k))
  }

  function Promoted<K, V>(c: Lru<K, V>, k: K): Lru<K, V> {
    if k in c.entries then c.(order := [k] + Without(c.order, k)) else c
  }

  function Find<K, V>(m: map<K, V>, k: K): Option<V> {
    if k in m then Some(m[k]) else None
  }

  function Next<K, V>(c: Lru<K, V>, cap: nat, op: Op<K, V>): Lru<K, V> {
    match op
    case Insert(k, v) => Evict(Placed(c, k, v), cap)
    case Fetch(k) => Promoted(c, k)
    case Touch(k) => Promoted(c, k)
    case Remove(k) => Lru(c.entries - {k}, Without(c.order, k))
    case Clear => Lru(map[], [])
  }

  /** What the caller sees of an operation. */
  function Answer<K, V>(m: map<K, V>, op: Op<K, V>): Option<V> {
    if op.Fetch? || op.Remove? then Find(m, op.key) else None
  }

  function RunFrom<K, V>(c: Lru<K, V>, cap: nat, ops: seq<Op<K, V>>): Lru<K, V> {
    if ops == [] then c else Next(RunFrom(c, cap, ops[..|ops| - 1]), cap, ops[|ops| - 1])
  }

  function Empty<K, V>(): Lru<K, V> {
    Lru(map[], [])
  }

  /** The queue lists exactly the keys of the table, each once, and the table fits. */
  ghost predicate WellFormed<K(!new), V>(c: Lru<K, V>, cap: nat) {
    && |c.order| == |c.entries| <= cap
    && (forall k :: k in c.order <==> k in c.entries)
    && NoRepeats(c.order)
  }

  // ---------- the specification with time stamps ----------

  datatype Slot<V> = Slot(value: V, used: nat)

  datatype Stamped<K, V> = Stamped(slots: map<K, Slot<V>>, clock: nat)

  ghost predicate IsOldest<K, V>(slots: map<K, Slot<V>>, k: K) {
    k in slots && forall j :: j in slots && j != k ==> slots[k].used < slots[j].used
  }

  /** Over capacity, the one entry used longest ago goes. */
  ghost function Shrink<K(!new), V>(slots: map<K, Slot<V>>, cap: nat): map<K, Slot<V>> {
    if |slots| > cap && exists k :: IsOldest(slots, k) then
      var k :| IsOldest(slots, k);
      slots - {k}
    else slots
  }

  ghost function StampedNext<K(!new), V>(t: Stamped<K, V>, cap: nat, op: Op<K, V>): Stamped<K, V> {
    Stamped(match op
            case Insert(k, v) => Shrink(t.slots[k := Slot(v, t.clock)], cap)
            case Fetch(k) => Restamp(t, k)
            case Touch(k) => Restamp(t, k)
            case Remove(k) => t.slots - {k}
            case Clear => map[],
            t.clock + 1)
  }

  function EmptyStamped<K, V>(): Stamped<K, V> {
    Stamped(map[], 0)
  }

  function Restamp<K, V>(t: Stamped<K, V>, k: K): map<K, Slot<V>> {
    if k in t.slots then t.slots[k := Slot(t.slots[k].value, t.clock)] else t.slots
  }

  ghost function StampedRun<K(!new), V>(t: Stamped<K, V>, cap: nat, ops: seq<Op<K, V>>): Stamped<K, V> {
    if ops == [] then t else StampedNext(StampedRun(t, cap, ops[..|ops| - 1]), cap, ops[|ops| - 1])
  }

  /** Stamps are in the past and no two entries share one. */
  ghost predicate Distinct<K, V>(t: Stamped<K, V>) {
    && (forall k :: k in t.slots ==> t.slots[k].used < t.clock)
    && forall j, k :: j in t.slots && k in t.slots && j != k ==> t.slots[j].used != t.slots[k].used
  }

  lemma {:induction false} OldestExists<K(!new), V>(slots: map<K, Slot<V>>) returns (k: K)
    requires slots != map[]
    requires forall i, j :: i in slots && j in slots && i != j ==> slots[i].used != slots[j].used
    ensures IsOldest(slots, k)
    decreases |slots|
  {
    k :| k in slots;
    var rest := slots - {k};
    SizeWithout(slots, k);
    if rest != map[] {
      var j := OldestExists(rest);
      assert forall i :: i in slots ==> i == k || (i in rest && rest[i] == slots[i]);
      if slots[j].used < slots[k].used {
        k := j;
      }
    } else {
      assert forall i :: i in slots ==> i == k || i in rest;
    }
  }

  // ---------- the queue represents the stamps ----------

  ghost predicate SameValues<K, V>(entries: map<K, V>, slots: map<K, Slot<V>>) {
    entries.Keys == slots.Keys && forall k :: k in slots ==> entries[k] == slots[k].value
  }

  ghost predicate Descending<K, V>(order: seq<K>, slots: map<K, Slot<V>>) {
    && (forall i :: 0 <= i < |order| ==> order[i] in slots)
    && forall i, j :: 0 <= i < j < |order| ==> slots[order[j]].used < slots[order[i]].used
  }

  ghost predicate Covers<K, V>(order: seq<K>, slots: map<K, Slot<V>>) {
    forall k :: k in slots ==> k in order
  }

  ghost predicate Past<K, V>(slots: map<K, Slot<V>>, clock: nat) {
    forall k :: k in slots ==> slots[k].used < clock
  }

  /** The queue is the stamped table sorted by last use, latest first. */
  ghost predicate Represents<K, V>(c: Lru<K, V>, t: Stamped<K, V>) {
    && SameValues(c.entries, t.slots)
    && Descending(c.order, t.slots)
    && Covers(c.order, t.slots)
    && Past(t.slots, t.clock)
  }

  /** Without k, the queue holds the other keys, still in order. */
  lemma WithoutIsDescending<K, V>(order: seq<K>, slots: map<K, Slot<V>>, k: K)
    requires Descending(order, slots)
    ensures Descending(Without(order, k), slots - {k})
  {
    var i := Position(order, k);
    var w := Without(order, k);
    if i < |order| {
      assert forall n :: 0 <= n < |w| ==> w[n] == order[if n < i then n else n + 1];
      assert forall n :: 0 <= n < i ==> order[n] == order[..i][n];
    } else {
      assert order[..i] == order;
    }
    assert forall n :: 0 <= n < |w| ==> w[n] in slots && w[n] != k;
  }

  lemma WithoutCovers<K, V>(order: seq<K>, slots: map<K, Slot<V>>, k: K)
    requires Covers(order, slots)
    ensures Covers(Without(order, k), slots - {k})
  {
    var i := Position(order, k);
    var w := Without(order, k);
    forall j | j in slots - {k} ensures j in w {
      var n :| 0 <= n < |order| && order[n] == j;
      if i < |order| {
        assert w[if n < i then n else n - 1] == j;
      }
    }
  }

  lemma RemoveRepresents<K, V>(c: Lru<K, V>, t: Stamped<K, V>, k: K)
    requires Represents(c, t)
    ensures Represents(Lru(c.entries - {k}, Without(c.order, k)), Stamped(t.slots - {k}, t.clock))
  {
    WithoutIsDescending(c.order, t.slots, k);
    WithoutCovers(c.order, t.slots, k);
  }

  lemma PushIsDescending<K, V>(order: seq<K>, slots: map<K, Slot<V>>, k: K, v: V, clock: nat)
    requires Descending(order, slots) && Past(slots, clock) && k !in slots
    ensures Descending([k] + order, slots[k := Slot(v, clock)])
  {
    var order' := [k] + order;
    assert forall n :: 0 < n < |order'| ==> order'[n] == order[n - 1];
  }

  /** Moving or adding k at the front, with a new stamp, keeps the representation. */
  lemma FrontRepresents<K, V>(c: Lru<K, V>, t: Stamped<K, V>, k: K, v: V)
    requires Represents(c, t)
    ensures Represents(Placed(c, k, v), Stamped(t.slots[k := Slot(v, t.clock)], t.clock + 1))
  {
    var w, slot := Without(c.order, k), Slot(v, t.clock);
    WithoutIsDescending(c.order, t.slots, k);
    WithoutCovers(c.order, t.slots, k);
    PushIsDescending(w, t.slots - {k}, k, v, t.clock);
    PushCovers(w, t.slots - {k}, k, slot);
    PutBack(t.slots, k, slot);
    SameValuesWith(c.entries, t.slots, k, slot);
    PastWith(t.slots, t.clock, k, v);
  }

  lemma SameValuesWith<K, V>(entries: map<K, V>, slots: map<K, Slot<V>>, k: K, s: Slot<V>)
    requires SameValues(entries, slots)
    ensures SameValues(entries[k := s.value], slots[k := s])
  {
  }

  lemma PastWith<K, V>(slots: map<K, Slot<V>>, clock: nat, k: K, v: V)
    requires Past(slots, clock)
    ensures Past(slots[k := Slot(v, clock)], clock + 1)
  {
  }

  lemma PutBack<K, V>(slots: map<K, Slot<V>>, k: K, s: Slot<V>)
    ensures (slots - {k})[k := s] == slots[k := s]
  {
  }

  lemma PushCovers<K, V>(order: seq<K>, slots: map<K, Slot<V>>, k: K, s: Slot<V>)
    requires Covers(order, slots)
    ensures Covers([k] + order, slots[k := s])
  {
  }

  /** The last key of the queue carries the oldest stamp, and evicting it is removing it. */
  lemma LastIsOldest<K, V>(c: Lru<K, V>, t: Stamped<K, V>)
    requires Represents(c, t) && c.order != []
    ensures IsOldest(t.slots, c.order[|c.order| - 1])
    ensures Without(c.order, c.order[|c.order| - 1]) == c.order[..|c.order| - 1]
  {
    var last := |c.order| - 1;
    forall j | j in t.slots && j != c.order[last] ensures t.slots[c.order[last]].used < t.slots[j].used {
      var n :| 0 <= n < |c.order| && c.order[n] == j;
    }
    assert forall n :: 0 <= n < last ==> t.slots[c.order[last]].used < t.slots[c.order[n]].used;
  }

  lemma ShrinkRemovesOldest<K(!new), V>(slots: map<K, Slot<V>>, cap: nat, k: K)
    requires |slots| > cap && IsOldest(slots, k)
    ensures Shrink(slots, cap) == slots - {k}
  {
  }

  lemma SizeWithout<K, V>(m: map<K, V>, k: K)
    ensures |m - {k}| == |m| - if k in m then 1 else 0
  {
    assert (m - {k}).Keys == m.Keys - {k};
    assert |m - {k}| == |(m - {k}).Keys| && |m| == |m.Keys|;
  }

  lemma SizeWith<K, V>(m: map<K, V>, k: K, v: V)
    ensures |m[k := v]| == |m| + if k in m then 0 else 1
  {
    assert m[k := v].Keys == m.Keys + {k};
    assert |m[k := v]| == |m[k := v].Keys| && |m| == |m.Keys|;
    if k in m { assert m.Keys + {k} == m.Keys; }
  }

  lemma SameSize<K, V>(entries: map<K, V>, slots: map<K, Slot<V>>)
    requires SameValues(entries, slots)
    ensures |entries| == |slots|
  {
    assert |entries| == |entries.Keys| && |slots| == |slots.Keys|;
  }

  lemma EvictRepresents<K(!new), V>(c: Lru<K, V>, t: Stamped<K, V>, cap: nat)
    requires Represents(c, t) && |c.entries| <= cap + 1
    ensures Represents(Evict(c, cap), Stamped(Shrink(t.slots, cap), t.clock))
    ensures |Evict(c, cap).entries| <= cap
  {
    SameSize(c.entries, t.slots);
    if |c.entries| > cap {
      var some :| some in c.entries.Keys;
      assert some in c.order;
      var last := c.order[|c.order| - 1];
      LastIsOldest(c, t);
      ShrinkRemovesOldest(t.slots, cap, last);
      RemoveRepresents(c, t, last);
      SizeWithout(c.entries, last);
      var c' := Lru(c.entries - {last}, c.order[..|c.order| - 1]);
      assert Evict(c, cap) == Evict(c', cap) == c';
    }
  }

  /** Every operation of the queue does what the stamped specification does. */
  lemma NextRepresents<K(!new), V>(c: Lru<K, V>, t: Stamped<K, V>, cap: nat, op: Op<K, V>)
    requires Represents(c, t) && |c.entries| <= cap
    ensures Represents(Next(c, cap, op), StampedNext(t, cap, op))
    ensures |Next(c, cap, op).entries| <= cap
  {
    match op
    case Insert(k, v) =>
      FrontRepresents(c, t, k, v);
      SizeWith(c.entries, k, v);
      EvictRepresents(Placed(c, k, v), Stamped(t.slots[k := Slot(v, t.clock)], t.clock + 1), cap);
    case Fetch(k) => PromoteRepresents(c, t, k);
    case Touch(k) => PromoteRepresents(c, t, k);
    case Remove(k) => RemoveRepresents(c, t, k); SizeWithout(c.entries, k);
    case Clear =>
  }

  lemma PromoteRepresents<K, V>(c: Lru<K, V>, t: Stamped<K, V>, k: K)
    requires Represents(c, t)
    ensures Represents(Promoted(c, k), Stamped(Restamp(t, k), t.clock + 1))
  {
    if k in c.entries {
      FrontRepresents(c, t, k, c.entries[k]);
      assert c.entries[k := c.entries[k]] == c.entries;
    }
  }

  lemma {:induction false} RunRepresents<K(!new), V>(c: Lru<K, V>, t: Stamped<K, V>, cap: nat, ops: seq<Op<K, V>>)
    requires Represents(c, t) && |c.entries| <= cap
    ensures Represents(RunFrom(c, cap, ops), StampedRun(t, cap, ops))
    ensures |RunFrom(c, cap, ops).entries| <= cap
  {
    if ops != [] {
      var front := ops[..|ops| - 1];
      RunRepresents(c, t, cap, front);
      NextRepresents(RunFrom(c, cap, front), StampedRun(t, cap, front), cap, ops[|ops| - 1]);
    }
  }

  // ---------- what the stamped cache keeps ----------

  lemma ShrinkFits<K(!new), V>(slots: map<K, Slot<V>>, clock: nat, cap: nat)
    requires Distinct(Stamped(slots, clock)) && |slots| <= cap + 1
    ensures |Shrink(slots, cap)| <= cap
    ensures |slots| <= cap ==> Shrink(slots, cap) == slots
    ensures |slots| > cap ==> exists k :: IsOldest(slots, k) && Shrink(slots, cap) == slots - {k}
  {
    if |slots| > cap {
      var k := OldestExists(slots);
      ShrinkRemovesOldest(slots, cap, k);
      SizeWithout(slots, k);
    }
  }

  lemma DistinctWith<K, V>(t: Stamped<K, V>, k: K, v: V)
    requires Distinct(t)
    ensures Distinct(Stamped(t.slots[k := Slot(v, t.clock)], t.clock + 1))
  {
  }

  lemma StampedInsert<K(!new), V>(t: Stamped<K, V>, cap: nat, k: K, v: V)
    requires Distinct(t) && |t.slots| <= cap
    ensures StampedNext(t, cap, Insert(k, v)).slots == Shrink(t.slots[k := Slot(v, t.clock)], cap)
    ensures Distinct(StampedNext(t, cap, Insert(k, v))) && |StampedNext(t, cap, Insert(k, v)).slots| <= cap
  {
    SizeWith(t.slots, k, Slot(v, t.clock));
    DistinctWith(t, k, v);
    ShrinkFits(t.slots[k := Slot(v, t.clock)], t.clock + 1, cap);
  }

  lemma StampedStep<K(!new), V>(t: Stamped<K, V>, cap: nat, op: Op<K, V>)
    requires Distinct(t) && |t.slots| <= cap
    ensures Distinct(StampedNext(t, cap, op)) && |StampedNext(t, cap, op).slots| <= cap
  {
    match op
    case Insert(k, v) => StampedInsert(t, cap, k, v);
    case Fetch(k) => StampedUse(t, k);
    case Touch(k) => StampedUse(t, k);
    case Remove(k) => SizeWithout(t.slots, k);
    case Clear =>
  }

  lemma StampedUse<K, V>(t: Stamped<K, V>, k: K)
    requires Distinct(t)
    ensures Distinct(Stamped(Restamp(t, k), t.clock + 1)) && |Restamp(t, k)| == |t.slots|
  {
    SameSizeRestamped(t, k);
    if k in t.slots {
      DistinctWith(t, k, t.slots[k].value);
    }
  }

  // ---------- inclusion ----------

  /** The small cache's stamped entries are among the big one's, and the big one has at least as much room left. */
  ghost predicate Inside<K, V>(s: Stamped<K, V>, b: Stamped<K, V>, small: nat, big: nat) {
    && s.clock == b.clock
    && Distinct(s) && Distinct(b)
    && |s.slots| <= small && |b.slots| <= big
    && |b.slots| - |s.slots| <= big - small
    && SubMap(s.slots, b.slots)
  }

  ghost predicate SubMap<K, V>(a: map<K, V>, b: map<K, V>) {
    forall k :: k in a ==> k in b && a[k] == b[k]
  }

  lemma InsideStep<K(!new), V>(s: Stamped<K, V>, b: Stamped<K, V>, small: nat, big: nat, op: Op<K, V>)
    requires Inside(s, b, small, big) && small <= big
    ensures Inside(StampedNext(s, small, op), StampedNext(b, big, op), small, big)
  {
    StampedStep(s, small, op);
    StampedStep(b, big, op);
    match op
    case Insert(k, v) => InsideInsert(s, b, small, big, k, Slot(v, s.clock));
    case Fetch(k) => InsideRestamp(s, b, k);
    case Touch(k) => InsideRestamp(s, b, k);
    case Remove(k) => InsideRemove(s.slots, b.slots, k);
    case Clear =>
  }

  lemma InsideRestamp<K, V>(s: Stamped<K, V>, b: Stamped<K, V>, k: K)
    requires SubMap(s.slots, b.slots) && s.clock == b.clock
    ensures SubMap(Restamp(s, k), Restamp(b, k))
    ensures |Restamp(s, k)| == |s.slots| && |Restamp(b, k)| == |b.slots|
  {
    SameSizeRestamped(s, k);
    SameSizeRestamped(b, k);
  }

  lemma InsideRemove<K, V>(s: map<K, V>, b: map<K, V>, k: K)
    requires SubMap(s, b)
    ensures SubMap(s - {k}, b - {k}) && |b - {k}| - |s - {k}| <= |b| - |s|
  {
    SizeWithout(s, k);
    SizeWithout(b, k);
  }

  lemma SameSizeRestamped<K, V>(t: Stamped<K, V>, k: K)
    ensures |Restamp(t, k)| == |t.slots|
  {
    if k in t.slots {
      SizeWith(t.slots, k, Slot(t.slots[k].value, t.clock));
    }
  }

  lemma InsideInsert<K(!new), V>(s: Stamped<K, V>, b: Stamped<K, V>, small: nat, big: nat, k: K, slot: Slot<V>)
    requires Inside(s, b, small, big) && small <= big && slot.used == s.clock
    ensures var s', b' := Shrink(s.slots[k := slot], small), Shrink(b.slots[k := slot], big);
            SubMap(s', b') && |b'| - |s'| <= big - small
  {
    SizeWith(s.slots, k, slot);
    SizeWith(b.slots, k, slot);
    DistinctWith(s, k, slot.value);
    DistinctWith(b, k, slot.value);
    SubMapWith(s.slots, b.slots, k, slot);
    ShrinkKeepsSubMap(s.slots[k := slot], b.slots[k := slot], s.clock + 1, small, big);
  }

  lemma SubMapWith<K, V>(a: map<K, V>, b: map<K, V>, k: K, v: V)
    requires SubMap(a, b)
    ensures SubMap(a[k := v], b[k := v])
  {
  }

  lemma ShrinkKeepsSubMap<K(!new), V>(s: map<K, Slot<V>>, b: map<K, Slot<V>>, clock: nat, small: nat, big: nat)
    requires SubMap(s, b) && Distinct(Stamped(s, clock)) && Distinct(Stamped(b, clock))
    requires |s| <= small + 1 && |b| <= big + 1
    requires |b| > big ==> |s| > small
    ensures SubMap(Shrink(s, small), Shrink(b, big))
    ensures |Shrink(s, small)| == if |s| > small then small else |s|
    ensures |Shrink(b, big)| == if |b| > big then big else |b|
  {
    ShrinkFits(s, clock, small);
    ShrinkFits(b, clock, big);
    if |s| > small {
      var n :| IsOldest(s, n) && Shrink(s, small) == s - {n};
      SizeWithout(s, n);
      if |b| > big {
        var m :| IsOldest(b, m) && Shrink(b, big) == b - {m};
        SizeWithout(b, m);
        assert m in s ==> m == n;
      }
    }
  }

  lemma {:induction false} RunsInside<K(!new), V>(ops: seq<Op<K, V>>, small: nat, big: nat)
    requires small <= big
    ensures Inside(StampedRun(EmptyStamped<K, V>(), small, ops), StampedRun(EmptyStamped<K, V>(), big, ops), small, big)
  {
    if ops != [] {
      var front := ops[..|ops| - 1];
      RunsInside(front, small, big);
      InsideStep(StampedRun(EmptyStamped<K, V>(), small, front), StampedRun(EmptyStamped<K, V>(), big, front),
                 small, big, ops[|ops| - 1]);
    }
  }

  /** Stack inclusion: after any operations, what the smaller cache holds and answers, the larger one does too. */
  lemma StackInclusion<K(!new), V>(ops: seq<Op<K, V>>, small: nat, big: nat)
    requires 0 < small <= big
    ensures var s, b := RunFrom(Empty<K, V>(), small, ops), RunFrom(Empty<K, V>(), big, ops);
            && SubMap(s.entries, b.entries)
            && forall op: Op<K, V> :: (op.Fetch? || op.Remove?) && op.key in s.entries ==>
                 Answer(s.entries, op) == Answer(b.entries, op) == Some(s.entries[op.key])
  {
    RunRepresents(Empty<K, V>(), EmptyStamped<K, V>(), small, ops);
    RunRepresents(Empty<K, V>(), EmptyStamped<K, V>(), big, ops);
    RunsInside(ops, small, big);
    var s, b := RunFrom(Empty<K, V>(), small, ops), RunFrom(Empty<K, V>(), big, ops);
    SubMapOfValues(s, StampedRun(EmptyStamped<K, V>(), small, ops), b, StampedRun(EmptyStamped<K, V>(), big, ops));
  }

  lemma SubMapOfValues<K, V>(c: Lru<K, V>, s: Stamped<K, V>, d: Lru<K, V>, b: Stamped<K, V>)
    requires SameValues(c.entries, s.slots) && SameValues(d.entries, b.slots) && SubMap(s.slots, b.slots)
    ensures SubMap(c.entries, d.entries)
  {
  }

  // ---------- reachable states ----------

  lemma {:induction false} SizeOfOrder<K, V>(order: seq<K>, slots: map<K, Slot<V>>)
    requires Descending(order, slots) && Covers(order, slots)
    ensures |order| == |slots|
  {
    if order == [] {
      assert slots.Keys == {};
    } else {
      var n := |order| - 1;
      FrontCovers(order, slots);
      SizeOfOrder(order[..n], slots - {order[n]});
      SizeWithout(slots, order[n]);
    }
  }

  lemma FrontCovers<K, V>(order: seq<K>, slots: map<K, Slot<V>>)
    requires Descending(order, slots) && Covers(order, slots) && order != []
    ensures var n := |order| - 1; Descending(order[..n], slots - {order[n]}) && Covers(order[..n], slots - {order[n]})
  {
    var n := |order| - 1;
    assert forall i :: 0 <= i < n ==> slots[order[n]].used < slots[order[i]].used;
    forall k | k in slots - {order[n]} ensures k in order[..n] {
      var i :| 0 <= i < |order| && order[i] == k;
      assert order[..n][i] == k;
    }
  }

  lemma RepresentedIsWellFormed<K(!new), V>(c: Lru<K, V>, t: Stamped<K, V>, cap: nat)
    requires Represents(c, t) && |c.entries| <= cap
    ensures WellFormed(c, cap) && Distinct(t)
  {
    SizeOfOrder(c.order, t.slots);
    SameSize(c.entries, t.slots);
    forall i, j | 0 <= i < j < |c.order| ensures c.order[i] != c.order[j] {
      assert t.slots[c.order[j]].used < t.slots[c.order[i]].used;
    }
    forall j, k | j in t.slots && k in t.slots && j != k ensures t.slots[j].used != t.slots[k].used {
      assert j in c.order && k in c.order;
    }
  }

  /**
   In every reachable state the queue is duplicate-free, lists exactly the table's keys, fits, and is sorted by last
   use.
   */
  lemma {:induction false} Reachable<K(!new), V>(ops: seq<Op<K, V>>, cap: nat)
    ensures WellFormed(RunFrom(Empty<K, V>(), cap, ops), cap)
    ensures Represents(RunFrom(Empty<K, V>(), cap, ops), StampedRun(EmptyStamped<K, V>(), cap, ops))
  {
    RunRepresents(Empty<K, V>(), EmptyStamped<K, V>(), cap, ops);
    RepresentedIsWellFormed(RunFrom(Empty<K, V>(), cap, ops), StampedRun(EmptyStamped<K, V>(), cap, ops), cap);
  }

  /** Stamps read off the queue: any well-formed cache represents a stamped one. */
  function StampsOf<K(!new), V>(c: Lru<K, V>): (t: Stamped<K, V>)
    requires forall k :: k in c.order ==> k in c.entries
  {
    Stamped(map k | k in c.order :: Slot(c.entries[k], |c.order| - Position(c.order, k)), |c.order| + 1)
  }

  lemma StampsAreRepresented<K(!new), V>(c: Lru<K, V>, cap: nat)
    requires WellFormed(c, cap)
    ensures Represents(c, StampsOf(c))
  {
    var slots := StampsOf(c).slots;
    forall i | 0 <= i < |c.order| ensures Position(c.order, c.order[i]) == i {
      assert forall n :: 0 <= n < Position(c.order, c.order[i]) ==>
          c.order[..Position(c.order, c.order[i])][n] == c.order[n];
    }
    assert c.entries.Keys == slots.Keys;
    forall i, j | 0 <= i < j < |c.order| ensures slots[c.order[j]].used < slots[c.order[i]].used {
      assert c.order[i] in c.order && c.order[j] in c.order;
    }
  }

  // ---------- residency ----------

  /** The key an operation inserts or promotes, if any. */
  function UsedBy<K(==), V>(c: Lru<K, V>, op: Op<K, V>): set<K> {
    if op.Insert? || ((op.Fetch? || op.Touch?) && op.key in c.entries) then {op.key} else {}
  }

  /** The other keys inserted or promoted during a run since k last was. */
  function Rivals<K(==), V>(c: Lru<K, V>, cap: nat, ops: seq<Op<K, V>>, k: K): set<K> {
    if ops == [] then {} else
      var front := ops[..|ops| - 1];
      var used := UsedBy(RunFrom(c, cap, front), ops[|ops| - 1]);
      if k in used then {} else Rivals(c, cap, front, k) + used
  }

  function Latest<K(==), V>(ops: seq<Op<K, V>>, k: K, v: V): V {
    if ops == [] then v else
      var op := ops[|ops| - 1];
      if op.Insert? && op.key == k then op.value else Latest(ops[..|ops| - 1], k, v)
  }

  predicate Drops<K(==), V>(op: Op<K, V>, k: K) {
    op.Clear? || (op.Remove? && op.key == k)
  }

  /** Only rivals were used later than k. */
  ghost predicate OnlyRivalsLater<K(!new), V>(slots: map<K, Slot<V>>, k: K, v: V, rivals: set<K>) {
    && k in slots && slots[k].value == v
    && forall j :: j in slots && slots[j].used > slots[k].used ==> j in rivals
  }

  lemma VictimHasRivals<K, V>(slots: map<K, Slot<V>>, cap: nat, k: K, rivals: set<K>)
    requires |slots| > cap && k in slots && forall j :: j in slots && j != k ==> j in rivals
    ensures |rivals| >= cap
  {
    SizeWithout(slots, k);
    assert |(slots - {k}).Keys| == |slots - {k}|;
    SubsetSize((slots - {k}).Keys, rivals);
  }

  /** Eviction spares k while it has fewer than `cap` rivals. */
  lemma StaysEvict<K(!new), V>(slots: map<K, Slot<V>>, clock: nat, cap: nat, k: K, v: V, rivals: set<K>)
    requires Distinct(Stamped(slots, clock)) && |slots| <= cap + 1 && |rivals| < cap
    requires OnlyRivalsLater(slots, k, v, rivals)
    ensures OnlyRivalsLater(Shrink(slots, cap), k, v, rivals)
  {
    ShrinkFits(slots, clock, cap);
    if |slots| > cap {
      var m :| IsOldest(slots, m) && Shrink(slots, cap) == slots - {m};
      if m == k {
        VictimHasRivals(slots, cap, k, rivals);
      }
    }
  }

  lemma StaysWith<K(!new), V>(t: Stamped<K, V>, j: K, w: V, k: K, v: V, rivals: set<K>)
    requires Distinct(t) && OnlyRivalsLater(t.slots, k, v, rivals)
    ensures var v', rivals' := if j == k then w else v, if j == k then {} else rivals + {j};
            OnlyRivalsLater(t.slots[j := Slot(w, t.clock)], k, v', rivals')
  {
  }

  lemma StaysStep<K(!new), V>(c: Lru<K, V>, t: Stamped<K, V>, cap: nat, op: Op<K, V>, k: K, v: V, rivals: set<K>)
    requires c.entries.Keys == t.slots.Keys && Distinct(t) && |t.slots| <= cap && !Drops(op, k)
    requires OnlyRivalsLater(t.slots, k, v, rivals)
    requires var rivals' := if k in UsedBy(c, op) then {} else rivals + UsedBy(c, op); |rivals'| < cap
    ensures var rivals' := if k in UsedBy(c, op) then {} else rivals + UsedBy(c, op);
            OnlyRivalsLater(StampedNext(t, cap, op).slots, k,
                            if op.Insert? && op.key == k then op.value else v, rivals')
  {
    if op.Insert? {
      var rivals' := if k == op.key then {} else rivals + {op.key};
      SizeWith(t.slots, op.key, Slot(op.value, t.clock));
      DistinctWith(t, op.key, op.value);
      StaysWith(t, op.key, op.value, k, v, rivals);
      StaysEvict(t.slots[op.key := Slot(op.value, t.clock)], t.clock + 1, cap, k,
                 if k == op.key then op.value else v, rivals');
    }
  }

  lemma {:induction false} SubsetSize<T>(a: set<T>, b: set<T>)
    requires a <= b
    ensures |a| <= |b|
  {
    if a != {} {
      var x :| x in a;
      SubsetSize(a - {x}, b - {x});
    }
  }

  lemma {:induction false} StaysRun<K(!new), V>(c: Lru<K, V>, t: Stamped<K, V>, cap: nat, ops: seq<Op<K, V>>, k: K,
                                                v: V)
    requires Represents(c, t) && |c.entries| <= cap
    requires OnlyRivalsLater(t.slots, k, v, {})
    requires forall i :: 0 <= i < |ops| ==> !Drops(ops[i], k)
    requires forall n :: 0 <= n <= |ops| ==> |Rivals(c, cap, ops[..n], k)| < cap
    ensures OnlyRivalsLater(StampedRun(t, cap, ops).slots, k, Latest(ops, k, v), Rivals(c, cap, ops, k))
  {
    if ops != [] {
      var front := ops[..|ops| - 1];
      forall n | 0 <= n <= |front| ensures |Rivals(c, cap, front[..n], k)| < cap {
        assert front[..n] == ops[..n];
      }
      StaysRun(c, t, cap, front, k, v);
      RunRepresents(c, t, cap, front);
      var c1, t1 := RunFrom(c, cap, front), StampedRun(t, cap, front);
      RepresentedIsWellFormed(c1, t1, cap);
      SameSize(c1.entries, t1.slots);
      assert ops[..|ops|] == ops;
      StaysStep(c1, t1, cap, ops[|ops| - 1], k, Latest(front, k, v), Rivals(c, cap, front, k));
    }
  }

  /**
   A key just used stays, with its latest value, while it is not dropped and fewer than `cap` others are used since.
   */
  lemma {:induction false} Residency<K(!new), V>(c: Lru<K, V>, cap: nat, ops: seq<Op<K, V>>, k: K)
    requires WellFormed(c, cap) && c.order != [] && c.order[0] == k
    requires forall i :: 0 <= i < |ops| ==> !Drops(ops[i], k)
    requires forall n :: 0 <= n <= |ops| ==> |Rivals(c, cap, ops[..n], k)| < cap
    ensures Find(RunFrom(c, cap, ops).entries, k) == Some(Latest(ops, k, c.entries[k]))
  {
    StampsAreRepresented(c, cap);
    var t := StampsOf(c);
    forall j | j in t.slots ensures t.slots[j].used <= t.slots[k].used {
      var i :| 0 <= i < |c.order| && c.order[i] == j;
      assert i > 0 ==> t.slots[c.order[i]].used < t.slots[c.order[0]].used;
    }
    StaysRun(c, t, cap, ops, k, c.entries[k]);
    RunRepresents(c, t, cap, ops);
  }

  /** Such a key is hit, with its latest value, by a fetch and by a remove. */
  lemma {:induction false} ResidentIsHit<K(!new), V>(c: Lru<K, V>, cap: nat, ops: seq<Op<K, V>>, k: K)
    requires WellFormed(c, cap) && c.order != [] && c.order[0] == k
    requires forall i :: 0 <= i < |ops| ==> !Drops(ops[i], k)
    requires forall n :: 0 <= n <= |ops| ==> |Rivals(c, cap, ops[..n], k)| < cap
    ensures Answer(RunFrom(c, cap, ops).entries, Op.Fetch(k)) == Some(Latest(ops, k, c.entries[k]))
    ensures Answer(RunFrom(c, cap, ops).entries, Op.Remove(k)) == Some(Latest(ops, k, c.entries[k]))
  {
    Residency(c, cap, ops, k);
  }

  /** The value last inserted for a key that was not dropped since. */
  function LastInserted<K(==), V>(ops: seq<Op<K, V>>, k: K): Option<V> {
    if ops == [] then None else
      var op := ops[|ops| - 1];
      if Drops(op, k) then None
      else if op.Insert? && op.key == k then Some(op.value)
      else LastInserted(ops[..|ops| - 1], k)
  }

  lemma {:induction false} EvictKeepsValues<K(!new), V>(c: Lru<K, V>, cap: nat)
    ensures SubMap(Evict(c, cap).entries, c.entries)
    decreases |c.order|
  {
    if |c.entries| > cap && c.order != [] {
      var last := |c.order| - 1;
      EvictKeepsValues(Lru(c.entries - {c.order[last]}, c.order[..last]), cap);
    }
  }

  /**
   No hit is stale: in every run a key is missed or answered with the value last inserted for it and not dropped since.
   */
  lemma {:induction false} HitsAreLatest<K(!new), V>(ops: seq<Op<K, V>>, cap: nat, k: K)
    ensures var m := RunFrom(Empty<K, V>(), cap, ops).entries;
            k in m ==> LastInserted(ops, k) == Some(m[k])
  {
    if ops != [] {
      var front, op := ops[..|ops| - 1], ops[|ops| - 1];
      HitsAreLatest(front, cap, k);
      if op.Insert? {
        EvictKeepsValues(Placed(RunFrom(Empty<K, V>(), cap, front), op.key, op.value), cap);
      }
      hide Evict, Without;
    }
  }

  /** What a fetch or a remove answers after any run: nothing, or the value last inserted and not dropped since. */
  lemma {:induction false} AnswersAreLatest<K(!new), V>(ops: seq<Op<K, V>>, cap: nat, k: K)
    ensures var m := RunFrom(Empty<K, V>(), cap, ops).entries;
            && Answer(m, Op.Fetch(k)) == Answer(m, Op.Remove(k))
            && (Answer(m, Op.Fetch(k)) == None || Answer(m, Op.Fetch(k)) == LastInserted(ops, k))
            && (LastInserted(ops, k) == None ==> Answer(m, Op.Fetch(k)) == None)
  {
    HitsAreLatest(ops, cap, k);
  }

  /** An operation on another key that takes no entry out. */
  predicate OnAnother<K(==), V>(op: Op<K, V>, k: K) {
    !op.Clear? && !op.Remove? && op.key != k
  }

  ghost predicate RivalsLater<K, V>(slots: map<K, Slot<V>>, k: K, rivals: set<K>) {
    k in slots ==> forall j :: j in rivals ==> j in slots && slots[k].used < slots[j].used
  }

  lemma RivalsInsert<K(!new), V>(t: Stamped<K, V>, cap: nat, j: K, v: V, k: K, rivals: set<K>)
    requires Distinct(t) && |t.slots| <= cap && j != k
    requires RivalsLater(t.slots, k, rivals)
    ensures RivalsLater(Shrink(t.slots[j := Slot(v, t.clock)], cap), k, rivals + {j})
  {
    var slots := t.slots[j := Slot(v, t.clock)];
    SizeWith(t.slots, j, Slot(v, t.clock));
    DistinctWith(t, j, v);
    RivalsWith(t, j, v, k, rivals);
    ShrinkFits(slots, t.clock + 1, cap);
    if |slots| > cap {
      var m :| IsOldest(slots, m) && Shrink(slots, cap) == slots - {m};
      OthersLater(slots, m, k, rivals + {j});
    }
  }

  lemma RivalsWith<K(!new), V>(t: Stamped<K, V>, j: K, v: V, k: K, rivals: set<K>)
    requires Distinct(t) && j != k && RivalsLater(t.slots, k, rivals)
    ensures RivalsLater(t.slots[j := Slot(v, t.clock)], k, rivals + {j})
  {
  }

  lemma OthersLater<K(!new), V>(slots: map<K, Slot<V>>, m: K, k: K, rivals: set<K>)
    requires IsOldest(slots, m) && RivalsLater(slots, k, rivals)
    ensures RivalsLater(slots - {m}, k, rivals)
  {
    if k in slots && k != m {
      assert slots[m].used < slots[k].used;
      forall j | j in rivals ensures j in slots - {m} && (slots - {m})[k].used < (slots - {m})[j].used {
        assert slots[k].used < slots[j].used;
      }
    }
  }

  lemma RivalsStep<K(!new), V>(c: Lru<K, V>, t: Stamped<K, V>, cap: nat, op: Op<K, V>, k: K, rivals: set<K>)
    requires c.entries.Keys == t.slots.Keys && Distinct(t) && |t.slots| <= cap && OnAnother(op, k)
    requires RivalsLater(t.slots, k, rivals)
    ensures RivalsLater(StampedNext(t, cap, op).slots, k, rivals + UsedBy(c, op))
  {
    if op.Insert? {
      RivalsInsert(t, cap, op.key, op.value, k, rivals);
    }
  }

  lemma {:induction false} RivalsRun<K(!new), V>(c: Lru<K, V>, t: Stamped<K, V>, cap: nat, ops: seq<Op<K, V>>, k: K)
    requires Represents(c, t) && |c.entries| <= cap
    requires forall i :: 0 <= i < |ops| ==> OnAnother(ops[i], k)
    ensures RivalsLater(StampedRun(t, cap, ops).slots, k, Rivals(c, cap, ops, k))
  {
    if ops != [] {
      var front := ops[..|ops| - 1];
      RivalsRun(c, t, cap, front, k);
      RunRepresents(c, t, cap, front);
      var c1, t1 := RunFrom(c, cap, front), StampedRun(t, cap, front);
      RepresentedIsWellFormed(c1, t1, cap);
      SameSize(c1.entries, t1.slots);
      RivalsStep(c1, t1, cap, ops[|ops| - 1], k, Rivals(c, cap, front, k));
    }
  }

  lemma {:induction false} RivalsGrow<K, V>(c: Lru<K, V>, cap: nat, ops: seq<Op<K, V>>, k: K, n: nat)
    requires n <= |ops| && forall i :: 0 <= i < |ops| ==> OnAnother(ops[i], k)
    ensures Rivals(c, cap, ops[..n], k) <= Rivals(c, cap, ops, k)
  {
    if n < |ops| {
      var front := ops[..|ops| - 1];
      RivalsGrow(c, cap, front, k, n);
      assert front[..n] == ops[..n];
    } else {
      assert ops[..n] == ops;
    }
  }

  /**
   While only other keys are used and none is taken out, a key just used is held exactly while it has fewer than `cap`
   rivals.
   */
  lemma {:induction false} ResidencyExact<K(!new), V>(c: Lru<K, V>, cap: nat, ops: seq<Op<K, V>>, k: K)
    requires WellFormed(c, cap) && c.order != [] && c.order[0] == k
    requires forall i :: 0 <= i < |ops| ==> OnAnother(ops[i], k)
    ensures k in RunFrom(c, cap, ops).entries <==> |Rivals(c, cap, ops, k)| < cap
  {
    if |Rivals(c, cap, ops, k)| < cap {
      forall n | 0 <= n <= |ops| ensures |Rivals(c, cap, ops[..n], k)| < cap {
        RivalsGrow(c, cap, ops, k, n);
        SubsetSize(Rivals(c, cap, ops[..n], k), Rivals(c, cap, ops, k));
      }
      Residency(c, cap, ops, k);
    }
    if k in RunFrom(c, cap, ops).entries {
      HeldHasFewRivals(c, cap, ops, k);
    }
  }

  lemma HeldHasFewRivals<K(!new), V>(c: Lru<K, V>, cap: nat, ops: seq<Op<K, V>>, k: K)
    requires WellFormed(c, cap)
    requires forall i :: 0 <= i < |ops| ==> OnAnother(ops[i], k)
    requires k in RunFrom(c, cap, ops).entries
    ensures |Rivals(c, cap, ops, k)| < cap
  {
    StampsAreRepresented(c, cap);
    var t := StampsOf(c);
    RivalsRun(c, t, cap, ops, k);
    RunRepresents(c, t, cap, ops);
    var entries, slots := RunFrom(c, cap, ops).entries, StampedRun(t, cap, ops).slots;
    SameSize(entries, slots);
    var rivals := Rivals(c, cap, ops, k);
    assert rivals <= slots.Keys - {k};
    SubsetSize(rivals, slots.Keys - {k});
    assert |slots.Keys| == |slots|;
  }

  // ---------- the cache in place ----------

  class LruCache<K(==, !new), V> {
    var entries: map<K, V>
    var order: seq<K>
    const maxSize: nat

    function Now(): Lru<K, V>
      reads this
    {
      Lru(entries, order)
    }

    ghost predicate Valid()
      reads this
    {
      0 < maxSize && WellFormed(Now(), maxSize)
    }

    /** The source panics on a capacity of zero. */
    constructor (maxSize: nat)
      requires maxSize > 0
      ensures Valid() && Now() == Empty() && this.maxSize == maxSize
    {
      this.maxSize, entries, order := maxSize, map[], [];
    }

    /** Takes the first occurrence of the key out of the queue. */
    method RemoveOrder(key: K)
      modifies this`order
      ensures order == Without(old(order), key)
    {
      var i := 0;
      while i < |order| && order[i] != key
        invariant 0 <= i <= |order|
        invariant key !in order[..i]
      {
        i := i + 1;
      }
      PositionIsFirst(order, key, i);
      if i < |order| {
        order := order[..i] + order[i + 1..];
      }
    }

    method Insert(key: K, value: V)
      requires Valid()
      modifies this
      ensures Valid() && Now() == Next(old(Now()), maxSize, Op.Insert(key, value))
    {
      NextIsWellFormed(Now(), maxSize, Op.Insert(key, value));
      if key in entries {
        RemoveOrder(key);
      } else {
        AbsentPosition(order, key);
      }
      order := [key] + order;
      entries := entries[key := value];
      while |entries| > maxSize
        invariant Evict(Now(), maxSize) == Next(old(Now()), maxSize, Op.Insert(key, value))
        invariant |entries| > maxSize ==> order != []
        decreases |order|
      {
        var last := order[|order| - 1];
        order := order[..|order| - 1];
        entries := entries - {last};
      }
    }

    /** Same effect as Insert; returns the value of the least recently used entry when that entry had to go. */
    method InsertWithEviction(key: K, value: V) returns (evicted: Option<V>)
      requires Valid()
      modifies this
      ensures Valid() && Now() == Next(old(Now()), maxSize, Op.Insert(key, value))
      ensures evicted == if key in old(entries) || |old(entries)| < maxSize then None
                         else Some(old(entries[order[|order| - 1]]))
      ensures evicted.Some? ==> entries == old(entries)[key := value] - {old(order[|order| - 1])}
    {
      NextIsWellFormed(Now(), maxSize, Op.Insert(key, value));
      SizeWith(entries, key, value);
      if key in entries {
        RemoveOrder(key);
      } else {
        AbsentPosition(order, key);
      }
      order := [key] + order;
      entries := entries[key := value];
      if |entries| > maxSize {
        var last := order[|order| - 1];
        assert old(order) != [] && last == old(order[|order| - 1]);
        assert last in old(order) && last != key;
        order := order[..|order| - 1];
        evicted := Some(entries[last]);
        SizeWithout(entries, last);
        entries := entries - {last};
        assert Evict(Now(), maxSize) == Now();
        return;
      }
      return None;
    }

    method Fetch(key: K) returns (r: Option<V>)
      requires Valid()
      modifies this
      ensures Valid() && Now() == Next(old(Now()), maxSize, Op.Fetch(key))
      ensures r == if key in old(entries) then Some(old(entries[key])) else None
    {
      r := Find(entries, key);
      Touch(key);
    }

    method Touch(key: K)
      requires Valid()
      modifies this
      ensures Valid() && Now() == Next(old(Now()), maxSize, Op.Touch(key))
    {
      NextIsWellFormed(Now(), maxSize, Op.Touch(key));
      if key !in entries { return; }
      RemoveOrder(key);
      order := [key] + order;
    }

    method Remove(key: K) returns (r: Option<V>)
      requires Valid()
      modifies this
      ensures Valid() && Now() == Next(old(Now()), maxSize, Op.Remove(key))
      ensures r == if key in old(entries) then Some(old(entries[key])) else None
    {
      NextIsWellFormed(Now(), maxSize, Op.Remove(key));
      RemoveOrder(key);
      r := Find(entries, key);
      entries := entries - {key};
    }

    method Clear()
      requires Valid()
      modifies this
      ensures Valid() && Now() == Next(old(Now()), maxSize, Op.Clear)
    {
      entries, order := map[], [];
    }
  }

  lemma PositionIsFirst<K>(s: seq<K>, k: K, i: nat)
    requires i <= |s| && k !in s[..i] && (i < |s| ==> s[i] == k)
    ensures Position(s, k) == i
  {
    var p := Position(s, k);
    assert forall n :: 0 <= n < i ==> s[..i][n] == s[n];
    assert forall n :: 0 <= n < p ==> s[..p][n] == s[n];
  }

  lemma AbsentPosition<K>(s: seq<K>, k: K)
    requires k !in s
    ensures Without(s, k) == s
  {
  }

  /** Every operation keeps a well-formed cache well-formed. */
  lemma NextIsWellFormed<K(!new), V>(c: Lru<K, V>, cap: nat, op: Op<K, V>)
    requires WellFormed(c, cap)
    ensures WellFormed(Next(c, cap, op), cap)
  {
    StampsAreRepresented(c, cap);
    NextRepresents(c, StampsOf(c), cap, op);
    RepresentedIsWellFormed(Next(c, cap, op), StampedNext(StampsOf(c), cap, op), cap);
  }
}
