/** The membership table of a node and the replica nodes picked from its alive members. */
module Membership {
  import opened Common
  import opened Host
  import opened Hash
  import opened Client
  import Utf8

  datatype NodeState = Alive | Suspect | Dead | Left

  datatype Entry = Entry(host: HostEntity, state: NodeState, lastHeartbeat: nat)

  function Hosts(members: seq<Entry>): (r: seq<HostEntity>)
    ensures |r| == |members| && forall i :: 0 <= i < |r| ==> r[i] == members[i].host
  {
    seq(|members|, i requires 0 <= i < |members| => members[i].host)
  }

  /** The hosts other than this node, in order. */
  function Others(hosts: seq<HostEntity>, self: HostEntity): (r: seq<HostEntity>)
    ensures self !in r && forall h :: h in r <==> h in hosts && h != self
  {
    if hosts == [] then [] else
      var rest := Others(hosts[..|hosts| - 1], self);
      var last := hosts[|hosts| - 1];
      if last == self then rest else rest + [last]
  }

  function AliveHosts(members: seq<Entry>): (r: seq<HostEntity>)
    ensures forall h :: h in r <==> exists e :: e in members && e.host == h && e.state == Alive
  {
    if members == [] then [] else
      var rest := AliveHosts(members[..|members| - 1]);
      var last := members[|members| - 1];
      assert members == members[..|members| - 1] + [last];
      if last.state == Alive then rest + [last.host] else rest
  }

  /** Positions in increasing order. */
  ghost predicate Increasing(positions: seq<nat>) {
    forall i, j :: 0 <= i < j < |positions| ==> positions[i] < positions[j]
  }

  /** The picks are what the kept positions of a table hold, in the table's order, and no kept position is left out. */
  ghost predicate Picked(picks: seq<HostEntity>, hosts: seq<HostEntity>, kept: nat -> bool, positions: seq<nat>) {
    && |positions| == |picks| && Increasing(positions)
    && (forall i :: 0 <= i < |picks| ==>
          positions[i] < |hosts| && kept(positions[i]) && picks[i] == hosts[positions[i]])
    && forall j: nat :: j < |hosts| && kept(j) ==> j in positions
  }

  lemma PickOneMore(picks: seq<HostEntity>, hosts: seq<HostEntity>, h: HostEntity, kept: nat -> bool,
                    positions: seq<nat>)
    requires Picked(picks, hosts, kept, positions)
    ensures if kept(|hosts|) then Picked(picks + [h], hosts + [h], kept, positions + [|hosts|])
            else Picked(picks, hosts + [h], kept, positions)
  {
    forall j: nat | j < |hosts + [h]| && kept(j) ensures j in positions + if kept(|hosts|) then [|hosts|] else [] {
      if j < |hosts| {
        assert j in positions;
      }
    }
  }

  lemma PickedAlike(picks: seq<HostEntity>, hosts: seq<HostEntity>, kept: nat -> bool, kept': nat -> bool,
                    positions: seq<nat>)
    requires Picked(picks, hosts, kept, positions) && forall j: nat :: j < |hosts| ==> kept(j) == kept'(j)
    ensures Picked(picks, hosts, kept', positions)
  {
  }

  function IsAliveAt(members: seq<Entry>): nat -> bool {
    (j: nat) => j < |members| && members[j].state == Alive
  }

  /** The alive members are exactly the alive entries, in the order of the table. */
  lemma {:induction false} AliveKeepOrder(members: seq<Entry>) returns (positions: seq<nat>)
    ensures Picked(AliveHosts(members), Hosts(members), IsAliveAt(members), positions)
  {
    if members == [] {
      return [];
    }
    var n := |members| - 1;
    var front, last := members[..n], members[n];
    positions := AliveKeepOrder(front);
    HostsOfFront(members);
    PickedAlike(AliveHosts(front), Hosts(front), IsAliveAt(front), IsAliveAt(members), positions);
    PickOneMore(AliveHosts(front), Hosts(front), last.host, IsAliveAt(members), positions);
    if last.state == Alive {
      positions := positions + [n];
    }
  }

  function IsOtherAt(hosts: seq<HostEntity>, self: HostEntity): nat -> bool {
    (j: nat) => j < |hosts| && hosts[j] != self
  }

  /** The other nodes are exactly those of the list that are not this one, in the order of the list. */
  lemma {:induction false} OthersKeepOrder(hosts: seq<HostEntity>, self: HostEntity) returns (positions: seq<nat>)
    ensures Picked(Others(hosts, self), hosts, IsOtherAt(hosts, self), positions)
  {
    if hosts == [] {
      return [];
    }
    var n := |hosts| - 1;
    var front, last := hosts[..n], hosts[n];
    assert hosts == front + [last];
    positions := OthersKeepOrder(front, self);
    PickedAlike(Others(front, self), front, IsOtherAt(front, self), IsOtherAt(hosts, self), positions);
    PickOneMore(Others(front, self), front, last, IsOtherAt(hosts, self), positions);
    if last != self {
      positions := positions + [n];
    }
  }

  lemma AliveAreMembers(members: seq<Entry>)
    ensures forall h :: h in AliveHosts(members) ==> h in Hosts(members)
  {
    forall h | h in AliveHosts(members) ensures h in Hosts(members) {
      var e :| e in members && e.host == h;
      var i :| 0 <= i < |members| && members[i] == e;
      assert Hosts(members)[i] == h;
    }
  }

  lemma HostsOfFront(members: seq<Entry>)
    requires members != []
    ensures Hosts(members) == Hosts(members[..|members| - 1]) + [members[|members| - 1].host]
  {
  }

  lemma FrontDistinct(s: seq<HostEntity>, h: HostEntity)
    requires NoRepeats(s + [h])
    ensures NoRepeats(s) && h !in s
  {
    var t := s + [h];
    assert forall i :: 0 <= i < |s| ==> t[i] == s[i];
    assert t[|s|] == h;
  }

  lemma {:induction false} AliveAreDistinct(members: seq<Entry>)
    requires NoRepeats(Hosts(members))
    ensures NoRepeats(AliveHosts(members))
  {
    if members != [] {
      var front, last := members[..|members| - 1], members[|members| - 1];
      HostsOfFront(members);
      FrontDistinct(Hosts(front), last.host);
      AliveAreDistinct(front);
      AliveAreMembers(front);
      AppendIfDistinct(AliveHosts(front), last.host);
    }
  }

  lemma AppendIfDistinct(s: seq<HostEntity>, h: HostEntity)
    ensures NoRepeats(s) && h !in s ==> NoRepeats(s + [h])
  {
  }

  // ---------- replicas ----------

  /** The nodes after the primary in the ring of alive members, as many as configured. */
  function Replicas(alive: seq<HostEntity>, hash: nat, n: nat): (r: seq<HostEntity>)
    ensures |r| == if alive == [] then 0 else n
    ensures forall h :: h in r ==> h in alive
  {
    if alive == [] || n == 0 then [] else
      seq(n, i requires 0 <= i => alive[(hash % |alive| + i + 1) % |alive|])
  }

  function ReplicaNodes(alive: seq<HostEntity>, key: string, n: nat): seq<HostEntity> {
    Replicas(alive, HashOfText(key), n)
  }

  function Count(hosts: seq<HostEntity>, h: HostEntity): nat {
    if hosts == [] then 0 else Count(hosts[..|hosts| - 1], h) + if hosts[|hosts| - 1] == h then 1 else 0
  }

  /** How far around the ring of t places e is past j. */
  function Past(e: nat, j: nat, t: nat): nat
    requires e < t && j < t
  {
    if e >= j then e - j else e + t - j
  }

  lemma StepAround(x: nat, t: nat)
    requires t > 0
    ensures (x + 1) % t == if x % t + 1 == t then 0 else x % t + 1
  {
    var q, r := x / t, x % t;
    assert x == q * t + r;
    if r + 1 == t {
      assert x + 1 == (q + 1) * t;
      RemainderIs(x + 1, t, q + 1, 0);
    } else {
      RemainderIs(x + 1, t, q, r + 1);
    }
  }

  lemma PastStep(e: nat, j: nat, t: nat)
    requires e < t && j < t
    ensures var e' := if e + 1 == t then 0 else e + 1;
            Past(e', j, t) + (if e' == j then t else 0) == Past(e, j, t) + 1
  {
  }

  /** The position after n steps around the ring. */
  function Around(start: nat, n: nat, t: nat): (e: nat)
    requires start < t
    ensures e < t
  {
    (start + n) % t
  }

  lemma CountStep(alive: seq<HostEntity>, hash: nat, n: nat, h: HostEntity)
    requires alive != [] && n > 0
    ensures Count(Replicas(alive, hash, n), h) ==
            Count(Replicas(alive, hash, n - 1), h) + if alive[Around(hash % |alive|, n, |alive|)] == h then 1 else 0
  {
    var r := Replicas(alive, hash, n);
    assert r[..n - 1] == Replicas(alive, hash, n - 1);
    assert r[n - 1] == alive[Around(hash % |alive|, n, |alive|)];
  }

  lemma AroundStep(p: nat, n: nat, t: nat)
    requires p < t && n > 0
    ensures var e := Around(p, n - 1, t); Around(p, n, t) == if e + 1 == t then 0 else e + 1
  {
    StepAround(p + n - 1, t);
  }

  lemma Turn(t: nat, c: nat, c': nat, past: nat, past': nat, hit: bool, n: nat, base: nat)
    requires t * c + past == n + base
    requires c' == c + (if hit then 1 else 0) && past' + (if hit then t else 0) == past + 1
    ensures t * c' + past' == n + 1 + base
  {
    assert t * (c + 1) == t * c + t;
  }

  lemma AroundNone(p: nat, t: nat)
    requires p < t
    ensures Around(p, 0, t) == p
  {
    RemainderIs(p, t, 0, p);
  }

  /** Walking the ring: each full turn passes every node once. */
  lemma {:induction false} CountAround(alive: seq<HostEntity>, hash: nat, n: nat, j: nat)
    requires NoRepeats(alive) && j < |alive|
    ensures var t, p := |alive|, hash % |alive|;
            t * Count(Replicas(alive, hash, n), alive[j]) + Past(Around(p, n, t), j, t) == n + Past(p, j, t)
  {
    hide Around, Replicas, Past;
    var t, p := |alive|, hash % |alive|;
    if n == 0 {
      AroundNone(p, t);
      assert Replicas(alive, hash, 0) == [];
    } else {
      CountAround(alive, hash, n - 1, j);
      CountStep(alive, hash, n, alive[j]);
      AroundStep(p, n, t);
      PastStep(Around(p, n - 1, t), j, t);
      hide Count;
      var e := Around(p, n, t);
      Turn(t, Count(Replicas(alive, hash, n - 1), alive[j]), Count(Replicas(alive, hash, n), alive[j]),
           Past(Around(p, n - 1, t), j, t), Past(e, j, t), e == j, n - 1, Past(p, j, t));
    }
  }

  lemma FactorBelow(t: nat, x: int, y: int)
    requires t > 0 && t * x < t * y
    ensures x < y
  {
  }

  lemma QuotientBounds(t: nat, c: nat, n: nat, low: int)
    requires t > 0 && t * c == n + low && -(t as int) < low < t
    ensures n / t <= c <= n / t + 1
  {
    var q, r := n / t, n % t;
    assert n == t * q + r;
    assert t * (c - q) == r + low;
    FactorBelow(t, c - q, 2);
    FactorBelow(t, -1, c - q);
  }

  /** Replicas are spread evenly: every alive node is picked n / total times or once more. */
  lemma ReplicasAreEven(alive: seq<HostEntity>, key: string, n: nat, h: HostEntity)
    requires NoRepeats(alive) && h in alive
    ensures n / |alive| <= Count(ReplicaNodes(alive, key, n), h) <= n / |alive| + 1
  {
    hide Count, Replicas;
    var j :| 0 <= j < |alive| && alive[j] == h;
    var hash, t := HashOfText(key), |alive|;
    var p := hash % t;
    CountAround(alive, hash, n, j);
    QuotientBounds(t, Count(ReplicaNodes(alive, key, n), h), n, Past(p, j, t) - Past(Around(p, n, t), j, t));
  }

  lemma NoneOrSome(t: nat, c: nat, n: nat, d: nat)
    requires t * c + d == n && d < t
    ensures c == 0 <==> n < t
  {
    if n < t {
      FactorBelow(t, c, 1);
    } else {
      FactorBelow(t, 0, c);
    }
  }

  /** The node a key is routed to is not among its replicas exactly when there are fewer replicas than alive nodes. */
  lemma PrimaryIsExcluded(alive: seq<HostEntity>, key: string, n: nat)
    requires NoRepeats(alive) && alive != []
    ensures Resolve(key, alive).Some?
    ensures Count(ReplicaNodes(alive, key, n), Resolve(key, alive).value) == 0 <==> n < |alive|
  {
    hide Count, Replicas, Around;
    var hash, t := HashOfText(key), |alive|;
    var p := hash % t;
    CountAround(alive, hash, n, p);
    NoneOrSome(t, Count(ReplicaNodes(alive, key, n), alive[p]), n, Past(Around(p, n, t), p, t));
  }

  /** The place after j on the ring of t places. */
  function After(j: nat, t: nat): nat {
    if j + 1 == t then 0 else j + 1
  }

  /** The first replica is the alive node after the one a key is routed to, and each other one the node after it. */
  lemma ReplicasFollow(alive: seq<HostEntity>, key: string, n: nat, j: nat, i: nat)
    requires NoRepeats(alive) && j < |alive| && i < n
    requires (if i == 0 then Resolve(key, alive).value else ReplicaNodes(alive, key, n)[i - 1]) == alive[j]
    ensures ReplicaNodes(alive, key, n)[i] == alive[After(j, |alive|)]
  {
    var p := HashOfText(key) % |alive|;
    if i == 0 {
      assert j == p;
      AroundNone(p, |alive|);
      AroundStep(p, 1, |alive|);
    } else {
      assert j == Around(p, i, |alive|);
      AroundStep(p, i + 1, |alive|);
    }
  }

  /** No node is picked twice exactly when there are no more replicas than alive nodes. */
  lemma ReplicasAreDistinct(alive: seq<HostEntity>, key: string, n: nat)
    requires NoRepeats(alive) && alive != []
    ensures (forall j :: 0 <= j < |alive| ==> Count(ReplicaNodes(alive, key, n), alive[j]) <= 1) <==> n <= |alive|
  {
    hide Count, Replicas, Around;
    var hash, t := HashOfText(key), |alive|;
    var p := hash % t;
    if n <= t {
      forall j | 0 <= j < t ensures Count(ReplicaNodes(alive, key, n), alive[j]) <= 1 {
        CountAround(alive, hash, n, j);
        FactorBelow(t, Count(ReplicaNodes(alive, key, n), alive[j]), 2);
      }
    } else {
      var j := if p + 1 == t then 0 else p + 1;
      CountAround(alive, hash, n, j);
      FactorBelow(t, 1, Count(ReplicaNodes(alive, key, n), alive[j]));
    }
  }

  // ---------- the table in place ----------

  class MembershipManager {
    var members: seq<Entry>
    const self: HostEntity

    /** This node is never in its own table. */
    ghost predicate Valid()
      reads this
    {
      self !in Hosts(members)
    }

    /** No member is in the table twice. */
    ghost predicate Unique()
      reads this
    {
      NoRepeats(Hosts(members))
    }

    /** The table is free of repeats exactly when the configured list names no other node twice. */
    constructor (self: HostEntity, initial: seq<HostEntity>, now: nat)
      ensures Valid() && this.self == self && Hosts(members) == Others(initial, self)
      ensures Unique() <==> NoRepeats(Others(initial, self))
      ensures forall e :: e in members ==> e.state == Alive && e.lastHeartbeat == now
    {
      this.self := self;
      var others := Others(initial, self);
      members := seq(|others|, i requires 0 <= i < |others| => Entry(others[i], Alive, now));
      new;
      assert Hosts(members) == others;
    }

    /** The position of a member, or the length of the table. */
    method Find(host: HostEntity) returns (i: nat)
      ensures i <= |members| && host !in Hosts(members)[..i] && (i < |members| ==> members[i].host == host)
    {
      i := 0;
      while i < |members| && members[i].host != host
        invariant i <= |members| && host !in Hosts(members)[..i]
      {
        i := i + 1;
      }
    }

    /** Marks the first entry of a node and no other; a node not in the table is not added. */
    method Mark(host: HostEntity, state: NodeState, now: nat, beat: bool)
      requires Valid()
      modifies this
      ensures Valid() && Hosts(members) == old(Hosts(members))
      ensures Marked(old(members), members, host, state, if beat then Some(now) else None)
    {
      var i := Find(host);
      if i < |members| {
        assert Hosts(members)[i] == host;
        members := members[i := Entry(host, state, if beat then now else members[i].lastHeartbeat)];
        assert MarkedAt(old(members), members, i, host, state, if beat then Some(now) else None);
        assert Hosts(members) == old(Hosts(members));
      } else {
        assert Hosts(members)[..i] == Hosts(members);
      }
    }

    method MarkAlive(host: HostEntity, now: nat)
      requires Valid()
      modifies this
      ensures Valid() && Hosts(members) == old(Hosts(members))
      ensures Marked(old(members), members, host, Alive, Some(now))
      ensures host in Hosts(members) ==> host in AliveHosts(members)
    {
      Mark(host, Alive, now, true);
      if host in Hosts(members) {
        ghost var i: nat :| MarkedAt(old(members), members, i, host, Alive, Some(now));
        assert members[i] in members;
      }
    }

    method MarkSuspect(host: HostEntity, now: nat)
      requires Valid()
      modifies this
      ensures Valid() && Hosts(members) == old(Hosts(members))
      ensures Marked(old(members), members, host, Suspect, Some(now))
      ensures Unique() ==> host !in AliveHosts(members)
    {
      Mark(host, Suspect, now, true);
      MarkedIsNotAlive(old(members), members, host, Suspect, Some(now));
    }

    method MarkDead(host: HostEntity)
      requires Valid()
      modifies this
      ensures Valid() && Hosts(members) == old(Hosts(members))
      ensures Marked(old(members), members, host, Dead, None)
      ensures Unique() ==> host !in AliveHosts(members)
    {
      Mark(host, Dead, 0, false);
      MarkedIsNotAlive(old(members), members, host, Dead, None);
    }

    /** Neither this node nor a known one is added. */
    method AddMember(host: HostEntity, now: nat)
      requires Valid()
      modifies this
      ensures Valid() && (Unique() <==> old(Unique()))
      ensures members == if host == self || host in old(Hosts(members)) then old(members)
                         else old(members) + [Entry(host, Alive, now)]
    {
      if host == self { return; }
      var i := Find(host);
      if i < |members| {
        assert Hosts(members)[i] == host;
        return;
      }
      assert Hosts(members)[..i] == Hosts(members);
      members := members + [Entry(host, Alive, now)];
      assert Hosts(members) == old(Hosts(members)) + [host];
      AppendIsDistinct(old(Hosts(members)), host);
    }

    /** Every entry of the node goes, and no other. */
    method RemoveMember(host: HostEntity)
      requires Valid()
      modifies this
      ensures Valid() && (old(Unique()) ==> Unique())
      ensures Hosts(members) == Others(old(Hosts(members)), host)
      ensures forall e :: e in members <==> e in old(members) && e.host != host
    {
      var kept: seq<Entry> := [];
      var was := members;
      if Unique() {
        OthersKeepDistinct(Hosts(was), host);
      }
      for i := 0 to |was|
        invariant Hosts(kept) == Others(Hosts(was)[..i], host)
        invariant forall e :: e in kept <==> e in was[..i] && e.host != host
      {
        assert Hosts(was)[..i + 1][..i] == Hosts(was)[..i];
        if was[i].host != host {
          assert Hosts(kept + [was[i]]) == Hosts(kept) + [was[i].host];
          kept := kept + [was[i]];
        }
      }
      assert was[..|was|] == was && Hosts(was)[..|was|] == Hosts(was);
      members := kept;
    }

    /** Alive members not heard from for longer than the timeout become suspect; nothing else changes. */
    method CheckHealth(timeout: nat, now: nat)
      requires Valid()
      modifies this
      ensures Valid() && Hosts(members) == old(Hosts(members))
      ensures forall i :: 0 <= i < |members| ==>
        var e := old(members)[i];
        members[i] == if e.state == Alive && e.lastHeartbeat + timeout < now then e.(state := Suspect) else e
    {
      var i := 0;
      while i < |members|
        invariant i <= |members| == |old(members)|
        invariant forall n :: 0 <= n < i ==>
          var e := old(members)[n];
          members[n] == if e.state == Alive && e.lastHeartbeat + timeout < now then e.(state := Suspect) else e
        invariant forall n :: i <= n < |members| ==> members[n] == old(members)[n]
      {
        if members[i].state == Alive && members[i].lastHeartbeat + timeout < now {
          members := members[i := members[i].(state := Suspect)];
        }
        i := i + 1;
      }
      assert Hosts(members) == old(Hosts(members));
    }

    /** The alive members never include this node, so routing over them never resolves to it. */
    method ActiveMembers() returns (alive: seq<HostEntity>)
      requires Valid()
      ensures alive == AliveHosts(members) && self !in alive
      ensures Unique() ==> NoRepeats(alive)
    {
      if Unique() {
        AliveAreDistinct(members);
      }
      AliveAreMembers(members);
      alive := AliveHosts(members);
    }

    /** The alive member a key is routed to, if any member is alive. */
    method ResolveNode(key: string) returns (r: Option<HostEntity>)
      requires Valid()
      ensures r == Resolve(key, AliveHosts(members)) && r != Some(self)
      ensures r == None <==> forall e :: e in members ==> e.state != Alive
    {
      var alive := ActiveMembers();
      NeverRoutedHere(alive, key, self);
      assert alive != [] ==> alive[0] in alive;
      assert forall e :: e in members && e.state == Alive ==> e.host in alive;
      if alive == [] {
        return None;
      }
      var hash := GenHash(Utf8.Encode(key));
      r := Some(alive[hash % |alive|]);
    }
  }

  /**
   A key is routed over the alive members by the hash, as a client routes it over its list, and never to this node.
   */
  lemma NeverRoutedHere(alive: seq<HostEntity>, key: string, self: HostEntity)
    requires self !in alive
    ensures Resolve(key, alive) != Some(self) && (Resolve(key, alive) == None <==> alive == [])
  {
  }

  /** The entry at i is the first of the node and was marked, with a new heartbeat or none; no other entry changed. */
  ghost predicate MarkedAt(before: seq<Entry>, after: seq<Entry>, i: nat, host: HostEntity, state: NodeState,
                           beat: Option<nat>) {
    && i < |before| && before[i].host == host && host !in Hosts(before)[..i]
    && after == before[i := Entry(host, state, if beat.Some? then beat.value else before[i].lastHeartbeat)]
  }

  ghost predicate Marked(before: seq<Entry>, after: seq<Entry>, host: HostEntity, state: NodeState, beat: Option<nat>) {
    if host in Hosts(before) then exists i: nat :: MarkedAt(before, after, i, host, state, beat) else after == before
  }

  lemma MarkedIsNotAlive(before: seq<Entry>, after: seq<Entry>, host: HostEntity, state: NodeState, beat: Option<nat>)
    requires Marked(before, after, host, state, beat) && state != Alive
    ensures NoRepeats(Hosts(after)) ==> host !in AliveHosts(after)
  {
    if host in Hosts(before) && NoRepeats(Hosts(after)) {
      var i: nat :| MarkedAt(before, after, i, host, state, beat);
      forall e | e in after && e.host == host ensures e.state != Alive {
        var j :| 0 <= j < |after| && after[j] == e;
        assert Hosts(after)[i] == host && Hosts(after)[j] == host;
        assert j == i;
      }
    } else if host !in Hosts(before) {
      AliveAreMembers(after);
    }
  }

  lemma AppendIsDistinct(s: seq<HostEntity>, h: HostEntity)
    requires h !in s
    ensures NoRepeats(s + [h]) <==> NoRepeats(s)
  {
    if NoRepeats(s + [h]) {
      FrontDistinct(s, h);
    }
  }

  lemma {:induction false} OthersKeepDistinct(hosts: seq<HostEntity>, h: HostEntity)
    requires NoRepeats(hosts)
    ensures NoRepeats(Others(hosts, h))
  {
    if hosts != [] {
      var front, last := hosts[..|hosts| - 1], hosts[|hosts| - 1];
      assert hosts == front + [last];
      FrontDistinct(front, last);
      OthersKeepDistinct(front, h);
      AppendIfDistinct(Others(front, h), last);
    }
  }
}
