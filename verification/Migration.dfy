/**
 Moving keys to their owners: the migration plan of a node, and the migration
 itself over a network that may fail at any point.
 */
module Migration {
  import opened Common
  import opened LogFormat
  import Storage
  import opened Host
  import opened Client
  import opened Worker
  import opened Proxy
  import opened Handover
  import opened Rebalance

  // ---------- grouping by target ----------

  /** The keys to move to one target. */
  datatype Action = Action(target: HostEntity, keys: seq<string>)

  /** Groups hold exactly the keys that have a target, each once, under the address of its target. */
  ghost predicate GroupedBy(groups: map<string, Action>, targets: map<string, HostEntity>) {
    && (forall a :: a in groups ==> a == Address(groups[a].target) && groups[a].keys != [] && NoRepeats(groups[a].keys))
    && (forall a, k :: a in groups && k in groups[a].keys ==> k in targets && targets[k] == groups[a].target)
    && (forall k :: k in targets ==> Address(targets[k]) in groups && k in groups[Address(targets[k])].keys)
  }

  /** Adds a key to the group of its target's address, which is made with this target if it is new. */
  function Grouped(groups: map<string, Action>, key: string, target: HostEntity): map<string, Action> {
    var addr := Address(target);
    var action := if addr in groups then groups[addr] else Action(target, []);
    groups[addr := action.(keys := action.keys + [key])]
  }

  lemma GroupedKeeps(groups: map<string, Action>, targets: map<string, HostEntity>, key: string, target: HostEntity)
    requires GroupedBy(groups, targets) && key !in targets
    ensures GroupedBy(Grouped(groups, key, target), targets[key := target])
  {
    hide Address;
    var addr := Address(target);
    if addr in groups {
      AddressIsInjective(groups[addr].target, target);
    }
    var groups' := Grouped(groups, key, target);
    assert groups'[addr].target == target;
    forall a, k | a in groups' && k in groups'[a].keys
      ensures k in targets[key := target] && targets[key := target][k] == groups'[a].target
    {
      if a != addr {
        assert k in groups[a].keys;
      }
    }
  }

  /** A key is in the group of its target and in no other. */
  lemma InOneGroup(groups: map<string, Action>, targets: map<string, HostEntity>, a: string, b: string, k: string)
    requires GroupedBy(groups, targets)
    requires a in groups && b in groups && k in groups[a].keys && k in groups[b].keys
    ensures a == b
  {
    assert a == Address(groups[a].target) && b == Address(groups[b].target);
    assert targets[k] == groups[a].target == groups[b].target;
  }

  // ---------- the plan ----------

  function NewOwners(keys: set<string>, self: HostEntity, old': seq<HostEntity>, new': seq<HostEntity>)
    : map<string, HostEntity>
  {
    map k | k in keys && Moves(k, self, old', new') :: Resolve(k, new').value
  }

  /** The plan of a node: every key that moves, in exactly one action, whose target is the key's new owner. */
  method CalculatePlan(store: Storage.NoVoHT, self: HostEntity, old': seq<HostEntity>, new': seq<HostEntity>)
    returns (plan: map<string, Action>)
    ensures old' == [] || new' == [] ==> plan == map[]
    ensures old' != [] && new' != [] ==> GroupedBy(plan, NewOwners(store.table.Keys, self, old', new'))
  {
    if old' == [] || new' == [] {
      return map[];
    }
    plan := map[];
    var left := store.table.Keys;
    NoOwners(self, old', new');
    assert store.table.Keys - left == {};
    hide NewOwners, GroupedBy;
    while left != {}
      invariant left <= store.table.Keys
      invariant GroupedBy(plan, NewOwners(store.table.Keys - left, self, old', new'))
      decreases left
    {
      var key :| key in left;
      plan := PlanKey(plan, store.table.Keys - left, key, self, old', new');
      assert store.table.Keys - (left - {key}) == (store.table.Keys - left) + {key};
      left := left - {key};
    }
    assert store.table.Keys - left == store.table.Keys;
  }

  lemma NoOwners(self: HostEntity, old': seq<HostEntity>, new': seq<HostEntity>)
    ensures GroupedBy(map[], NewOwners({}, self, old', new'))
  {
  }

  /** One turn of the planning loop. */
  method PlanKey(plan: map<string, Action>, ghost done: set<string>, key: string, self: HostEntity,
                 old': seq<HostEntity>, new': seq<HostEntity>)
    returns (plan': map<string, Action>)
    requires key !in done && GroupedBy(plan, NewOwners(done, self, old', new'))
    ensures GroupedBy(plan', NewOwners(done + {key}, self, old', new'))
  {
    hide Resolve, GroupedBy;
    var oldOwner, newOwner := Resolve(key, old'), Resolve(key, new');
    if oldOwner != newOwner && newOwner.Some? && newOwner.value != self {
      GroupedKeeps(plan, NewOwners(done, self, old', new'), key, newOwner.value);
      plan' := Grouped(plan, key, newOwner.value);
      assert NewOwners(done + {key}, self, old', new') == NewOwners(done, self, old', new')[key := newOwner.value];
    } else {
      plan' := plan;
      assert NewOwners(done + {key}, self, old', new') == NewOwners(done, self, old', new');
    }
  }

  /** The plan is what rebalancing expects of a node: its actions together hold exactly the moving keys. */
  lemma PlanIsMovingKeys(plan: map<string, Action>, m: Table, self: HostEntity, old': seq<HostEntity>,
                         new': seq<HostEntity>, k: string)
    requires GroupedBy(plan, NewOwners(m.Keys, self, old', new'))
    ensures k in MovingKeys(m, self, old', new') <==> exists a :: a in plan && k in plan[a].keys
    ensures forall a :: a in plan && k in plan[a].keys ==> Resolve(k, new') == Some(plan[a].target)
  {
    hide Resolve;
    var owners := NewOwners(m.Keys, self, old', new');
    assert k in MovingKeys(m, self, old', new') <==> k in owners;
    if k in owners {
      assert Address(owners[k]) in plan;
    }
  }

  // ---------- the migration in place ----------

  /** The keys of a store that belong to another alive member, with that member. */
  function Strays(keys: set<string>, self: HostEntity, alive: seq<HostEntity>): map<string, HostEntity> {
    map k | k in keys && Resolve(k, alive).Some? && Resolve(k, alive) != Some(self) :: Resolve(k, alive).value
  }

  /** The keys whose target is at one of the given addresses. */
  function AtAddresses(targets: map<string, HostEntity>, addrs: set<string>): set<string> {
    set k | k in targets && Address(targets[k]) in addrs
  }

  /**
   What sending a group came to: the target received some of its entries; all that were to be trusted, if it was sent
   whole.
   */
  ghost predicate GroupMoved(link: Link, before: Table, after: Table, source: Table, keys: set<string>, ok: bool) {
    OnlyFrom(before, after, source, keys) && (ok ==> Kept(link, before, after, source, keys))
  }

  /** Every entry that was to be trusted has arrived. */
  ghost predicate Kept(link: Link, before: Table, after: Table, source: Table, keys: set<string>) {
    forall k :: k in keys && k in source && Trusted(link, before, k, source[k]) ==> Holds(after, k, source[k])
  }

  lemma SentIsMoved(link: Link, m: Table, source: Table, order: seq<string>, keys: set<string>,
                    weather: string -> Weather)
    requires AsSet(order) <= keys <= source.Keys
    ensures forall k :: k in order ==> k in source
    ensures var g := SendAll(link, m, source, order, weather);
            (g.result.Ok? ==> AsSet(order) == keys) ==> GroupMoved(link, m, g.table, source, keys, g.result.Ok?)
  {
    assert forall k :: k in order ==> k in AsSet(order);
    hide SendAll, Trusted;
    OnlyGivenArrive(link, m, source, order, weather);
    var g := SendAll(link, m, source, order, weather);
    if g.result.Ok? && AsSet(order) == keys {
      forall k | k in keys && Trusted(link, m, k, source[k]) ensures Holds(g.table, k, source[k]) {
        TrustedArrives(link, m, source, order, weather, k);
      }
    }
  }

  class MigrationManager {
    const store: Storage.NoVoHT
    const proxy: TcpProxy
    const self: HostEntity
    const enabled: bool
    var migrating: bool

    constructor (store: Storage.NoVoHT, proxy: TcpProxy, self: HostEntity, enabled: bool)
      ensures this.store == store && this.proxy == proxy && this.self == self && this.enabled == enabled && !migrating
    {
      this.store, this.proxy, this.self, this.enabled, migrating := store, proxy, self, enabled, false;
    }

    /** Sends one key and counts it if the answer says so; an error ends the group. */
    method SendKey(net: Network, addr: string, key: string, migrated: nat, weather: Weather)
      returns (r: Result<nat, NetError>)
      requires key in store.table
      modifies proxy, net
      ensures Sending(proxy.LinkTo(addr), net.At(addr), r)
              == SendNext(Sending(old(proxy.LinkTo(addr)), old(net.At(addr)), Ok(migrated)),
                          key, store.table[key], weather)
      ensures Elsewhere(addr, old(proxy.connections), old(net.tables), proxy.connections, net.tables)
    {
      hide Succeeded, Elsewhere, RoundTrip, TcpProxy.LinkTo, Network.At;
      var result;
      ghost var deliveries;
      result, deliveries := proxy.SendReceive(net, addr, InsertOf(key, store.table[key]), weather);
      match result {
        case Err(e) => return Err(e);
        case Ok(response) => return Ok(if Succeeded(response) then migrated + 1 else migrated);
      }
    }

    /** Sends the given keys of the store to one address, in some order; the first transport error ends it. */
    method MigrateKeys(net: Network, addr: string, keys: set<string>, weather: string -> Weather)
      returns (r: Result<nat, NetError>, ghost sent: seq<string>)
      modifies proxy, net
      ensures NoRepeats(sent) && AsSet(sent) <= keys * store.table.Keys
      ensures r.Ok? ==> AsSet(sent) == keys * store.table.Keys
      ensures forall k :: k in sent ==> k in store.table
      ensures Sending(proxy.LinkTo(addr), net.At(addr), r)
              == SendAll(old(proxy.LinkTo(addr)), old(net.At(addr)), store.table, sent, weather)
      ensures Elsewhere(addr, old(proxy.connections), old(net.tables), proxy.connections, net.tables)
    {
      sent := [];
      ElsewhereSame(addr, proxy.connections, net.tables);
      NothingSent(proxy.LinkTo(addr), net.At(addr), store.table, weather);
      hide Elsewhere, SendNext, TcpProxy.LinkTo, Network.At, SendAll, AsSet, NoRepeats;
      var migrated := 0;
      var left := store.table.Keys;
      while left != {}
        invariant left <= store.table.Keys
        invariant AsSet(sent) == (store.table.Keys - left) * keys && NoRepeats(sent)
        invariant forall k :: k in sent ==> k in store.table
        invariant Sending(proxy.LinkTo(addr), net.At(addr), Ok(migrated))
                  == SendAll(old(proxy.LinkTo(addr)), old(net.At(addr)), store.table, sent, weather)
        invariant Elsewhere(addr, old(proxy.connections), old(net.tables), proxy.connections, net.tables)
        decreases left
      {
        var key :| key in left;
        OneDone(store.table.Keys, keys, left, key);
        left := left - {key};
        if key !in keys {
          continue;
        }
        ghost var connections1, tables1 := proxy.connections, net.tables;
        OneMoreSent(old(proxy.LinkTo(addr)), old(net.At(addr)), store.table, sent, key, weather);
        var r := SendKey(net, addr, key, migrated, weather(key));
        ElsewhereChain(addr, old(proxy.connections), old(net.tables), connections1, tables1,
                       proxy.connections, net.tables);
        sent := sent + [key];
        if r.Err? {
          return r, sent;
        }
        migrated := r.value;
      }
      assert (store.table.Keys - left) * keys == keys * store.table.Keys;
      return Ok(migrated), sent;
    }

    method RemoveKeys(keys: seq<string>)
      modifies store
      ensures store.table == old(store.table) - AsSet(keys)
      ensures Storage.LogKept(store.persistent, old(store.Now()), store.Now())
    {
      hide Storage.LogKept, Storage.Durable, Storage.LogOf, Storage.TableAfter;
      ghost var start := store.Now();
      Storage.LogKeptStill(store.persistent, start);
      for i := 0 to |keys|
        invariant store.table == old(store.table) - AsSet(keys[..i])
        invariant Storage.LogKept(store.persistent, start, store.Now())
      {
        ghost var before := store.Now();
        var r := store.Remove(keys[i]);
        Storage.LogKeptOnce(store.persistent, before, keys[i], store.Now());
        Storage.LogKeptTwice(store.persistent, start, before, store.Now());
        assert keys[..i + 1] == keys[..i] + [keys[i]];
      }
      assert keys[..|keys|] == keys;
    }

    /**
     Sends a group of keys to its target and, when all were answered, removes them here, whatever the answers said.
     */
    method MigrateGroup(net: Network, addr: string, keys: seq<string>, weather: string -> Weather)
      returns (count: nat, ghost ok: bool)
      requires AsSet(keys) <= store.table.Keys
      modifies proxy, net, store
      ensures GroupMoved(LinkIn(old(proxy.connections), addr), TableAt(old(net.tables), addr),
                         TableAt(net.tables, addr), old(store.table), AsSet(keys), ok)
      ensures store.table == old(store.table) - if ok then AsSet(keys) else {}
      ensures Storage.LogKept(store.persistent, old(store.Now()), store.Now())
      ensures !ok ==> count == 0
      ensures !ok ==> MetError(LinkIn(old(proxy.connections), addr), TableAt(old(net.tables), addr), old(store.table),
                               AsSet(keys), weather)
      ensures ok && Clean(LinkIn(old(proxy.connections), addr)) ==> count == |AsSet(keys) - {""}|
      ensures Elsewhere(addr, old(proxy.connections), old(net.tables), proxy.connections, net.tables)
    {
      hide Clean, TableAt, LinkIn, Elsewhere, GroupMoved, SendAll, AsSet, Storage.LogKept;
      Storage.LogKeptStill(store.persistent, store.Now());
      var r;
      ghost var sent;
      r, sent := MigrateKeys(net, addr, AsSet(keys), weather);
      ghost var link, m := LinkIn(old(proxy.connections), addr), TableAt(old(net.tables), addr);
      assert AsSet(keys) * store.table.Keys == AsSet(keys);
      SentIsMoved(link, m, store.table, sent, AsSet(keys), weather);
      match r {
        case Ok(n) =>
          if Clean(link) {
            CleanGroupCount(link, m, store.table, sent, weather);
          }
          RemoveKeys(keys);
          return n, true;
        case Err(_) =>
          assert store.table - {} == store.table;
          assert ErrorIn(link, m, store.table, AsSet(keys), sent, weather);
          return 0, false;
      }
    }

    /** The keys to migrate, with their targets. */
    method FindStrays(alive: seq<HostEntity>) returns (targets: map<string, HostEntity>)
      ensures targets == Strays(store.table.Keys, self, alive)
    {
      hide Resolve;
      targets := map[];
      var left := store.table.Keys;
      while left != {}
        invariant left <= store.table.Keys && targets == Strays(store.table.Keys - left, self, alive)
        decreases left
      {
        var key :| key in left;
        StraysMore(store.table.Keys - left, key, self, alive);
        assert store.table.Keys - (left - {key}) == (store.table.Keys - left) + {key};
        left := left - {key};
        match Resolve(key, alive) {
          case None =>
          case Some(target) =>
            if target != self {
              targets := targets[key := target];
            }
        }
      }
      assert store.table.Keys - left == store.table.Keys;
    }

    method GroupByTarget(targets: map<string, HostEntity>) returns (groups: map<string, Action>)
      ensures GroupedBy(groups, targets)
    {
      hide GroupedBy, Grouped;
      groups := map[];
      var left := targets.Keys;
      NothingGrouped();
      assert targets - left == map[];
      while left != {}
        invariant left <= targets.Keys && GroupedBy(groups, targets - left)
        decreases left
      {
        var key :| key in left;
        GroupedKeeps(groups, targets - left, key, targets[key]);
        groups := Grouped(groups, key, targets[key]);
        assert (targets - left)[key := targets[key]] == targets - (left - {key});
        left := left - {key};
      }
      assert targets - left == targets;
    }

    /** The migration loop over the groups; a group that fails stays here whole. */
    method MigrateGroups(net: Network, targets: map<string, HostEntity>, groups: map<string, Action>,
                         weather: string -> string -> Weather)
      returns (migrated: nat, ghost succeeded: set<string>)
      requires targets.Keys <= store.table.Keys && GroupedBy(groups, targets)
      modifies proxy, net, store
      ensures store.table == old(store.table) - AtAddresses(targets, succeeded)
      ensures (forall a :: a in groups ==> Clean(LinkIn(old(proxy.connections), a)))
              ==> migrated == |AtAddresses(targets, succeeded) - {""}|
      ensures Progress(old(proxy.connections), old(net.tables), proxy.connections, net.tables,
                       old(store.table), targets, {}, succeeded)
      ensures AllFailed(old(proxy.connections), old(net.tables), old(store.table), targets,
                        groups.Keys - succeeded, weather)
      ensures Storage.LogKept(store.persistent, old(store.Now()), store.Now())
    {
      hide Clean, AtAddresses, GroupedBy, AsSet, TableAt, LinkIn, Elsewhere, Standing, GroupMoved, Address, MetError;
      hide Storage.LogKept;
      ghost var start := store.Now();
      Storage.LogKeptStill(store.persistent, start);
      migrated, succeeded := 0, {};
      ghost var held, tables, connections := store.table, net.tables, proxy.connections;
      StandingAtStart(connections, tables, held, targets, groups.Keys, weather);
      var left := groups.Keys;
      while left != {}
        invariant left <= groups.Keys
        invariant Standing(connections, tables, proxy.connections, net.tables, held, store.table, targets,
                           groups.Keys, left, succeeded, migrated, weather)
        invariant Storage.LogKept(store.persistent, start, store.Now()) && store.table.Keys <= held.Keys
        decreases left
      {
        var addr :| addr in left;
        GroupKeys(groups, targets, addr);
        GroupStands(connections, tables, proxy.connections, net.tables, held, store.table, targets,
                    groups.Keys, left, succeeded, migrated, weather, addr);
        ghost var tables1, connections1, table1, before := net.tables, proxy.connections, store.table, store.Now();
        var count;
        ghost var ok;
        count, ok := MigrateGroup(net, addr, groups[addr].keys, weather(addr));
        Storage.LogKeptTwice(store.persistent, start, before, store.Now());
        StandingStep(connections, tables, connections1, tables1, proxy.connections, net.tables,
                     held, table1, store.table, targets, groups.Keys, left, succeeded, migrated, weather,
                     addr, ok, count);
        left := left - {addr};
        migrated := migrated + count;
        if ok {
          succeeded := succeeded + {addr};
        }
      }
      StandingAtEnd(connections, tables, proxy.connections, net.tables, held, store.table, targets,
                    groups.Keys, succeeded, migrated, weather);
    }

    /**
     Moves every stray key to its owner, group by group. A stray stays only if sending its group met an error. A key
     leaves only when its whole group was answered, and then its target holds it with the value it had, if the target
     held it before or if its connection was clean and the key is not empty. Whatever the network does, targets change
     only by receiving keys meant for them, and removed keys do not come back from the log. Over a calm network every
     stray leaves, and over clean connections every non-empty one arrives.
     */
    method CheckAndMigrate(net: Network, alive: seq<HostEntity>, weather: string -> string -> Weather)
      returns (migrated: nat, ghost succeeded: set<string>)
      modifies this, proxy, net, store
      ensures migrating == old(migrating)
      ensures !enabled || old(migrating) ==>
        && migrated == 0 && store.table == old(store.table)
        && net.tables == old(net.tables) && proxy.connections == old(proxy.connections)
      ensures store.table == old(store.table) - AtAddresses(Strays(old(store.table.Keys), self, alive), succeeded)
      ensures Storage.LogKept(store.persistent, old(store.Now()), store.Now())
      ensures Moved(old(proxy.connections), old(net.tables), net.tables, old(store.table), store.table,
                    Strays(old(store.table.Keys), self, alive), migrated)
      ensures enabled && !old(migrating) ==>
        Stayed(old(proxy.connections), old(net.tables), net.tables, old(store.table), store.table,
               Strays(old(store.table.Keys), self, alive), migrated, weather)
    {
      hide AtAddresses, GroupedBy, TableAt, LinkIn, Progress, Strays, Moved, Stayed;
      hide Storage.LogKept, AllFailed;
      Storage.LogKeptStill(store.persistent, store.Now());
      succeeded := {};
      ghost var held, tables, connections := store.table, net.tables, proxy.connections;
      ghost var strays := Strays(held.Keys, self, alive);
      NoneAtNone(held, strays);
      NothingMoved(connections, tables, held, strays, weather);
      if !enabled || migrating {
        return 0, {};
      }
      var targets := FindStrays(alive);
      if targets == map[] {
        return 0, {};
      }
      StraysAreHeld(held.Keys, self, alive);
      migrating := true;
      var groups := GroupByTarget(targets);
      migrated, succeeded := MigrateGroups(net, targets, groups, weather);
      migrating := false;
      Done(connections, tables, proxy.connections, net.tables, held, targets, groups, succeeded, migrated);
      StillHere(connections, tables, proxy.connections, net.tables, held, targets, groups, succeeded, migrated,
                weather);
    }
  }

  /**
   What was removed has its target, which received it if it was to be trusted; no table changed but by receiving what
   is meant for it; and over clean connections the count is the number of non-empty keys removed.
   */
  ghost predicate Moved(c0: Connections, t0: Tables, t: Tables, held: Table, now: Table,
                        targets: map<string, HostEntity>, migrated: nat)
  {
    && AllTransferred(c0, t0, t, held, now, targets)
    && OnlyMeant(t0, t, held, targets)
    && (CleanTargets(c0, targets) ==> migrated == |(held.Keys - now.Keys) - {""}|)
  }

  ghost predicate AllTransferred(c0: Connections, t0: Tables, t: Tables, held: Table, now: Table,
                                 targets: map<string, HostEntity>)
  {
    forall k :: k in held && k !in now ==> k in targets && TransferredTo(c0, t0, t, Address(targets[k]), k, held[k])
  }

  ghost predicate OnlyMeant(t0: Tables, t: Tables, held: Table, targets: map<string, HostEntity>) {
    forall a :: OnlyFrom(TableAt(t0, a), TableAt(t, a), held, AtAddresses(targets, {a}))
  }

  ghost predicate CleanTargets(c0: Connections, targets: map<string, HostEntity>) {
    forall k :: k in targets ==> Clean(LinkIn(c0, Address(targets[k])))
  }

  /**
   A stray that is still here belongs to a group that met an error. So over a calm network every stray has left, and
   over clean connections too, every non-empty one has arrived and was counted.
   */
  ghost predicate Stayed(c0: Connections, t0: Tables, t: Tables, held: Table, now: Table,
                         targets: map<string, HostEntity>, migrated: nat, weather: string -> string -> Weather)
  {
    && StillFailing(c0, t0, held, now, targets, weather)
    && ((forall a :: Calm(weather(a))) ==> now == held - targets.Keys)
    && ((forall a :: Calm(weather(a))) && CleanTargets(c0, targets) ==> EveryOneArrived(t, held, targets, migrated))
  }

  ghost predicate StillFailing(c0: Connections, t0: Tables, held: Table, now: Table, targets: map<string, HostEntity>,
                               weather: string -> string -> Weather)
  {
    forall k :: k in targets && k in now ==>
      var a := Address(targets[k]);
      MetError(LinkIn(c0, a), TableAt(t0, a), held, AtAddresses(targets, {a}), weather(a))
  }

  ghost predicate EveryOneArrived(t: Tables, held: Table, targets: map<string, HostEntity>, migrated: nat) {
    && migrated == |targets.Keys - {""}|
    && forall k :: k in targets && k != "" ==> k in held && Holds(TableAt(t, Address(targets[k])), k, held[k])
  }

  /** An entry that was to be trusted is there. */
  predicate Transferred(link: Link, before: Table, after: Table, key: string, value: string) {
    Trusted(link, before, key, value) ==> Holds(after, key, value)
  }

  predicate TransferredTo(c0: Connections, t0: Tables, t: Tables, addr: string, key: string, value: string) {
    Transferred(LinkIn(c0, addr), TableAt(t0, addr), TableAt(t, addr), key, value)
  }

  lemma OneDone(all: set<string>, keys: set<string>, left: set<string>, key: string)
    requires key in left && left <= all
    ensures (all - (left - {key})) * keys == if key in keys then (all - left) * keys + {key} else (all - left) * keys
  {
  }

  lemma NothingSent(link: Link, m: Table, source: Table, weather: string -> Weather)
    ensures SendAll(link, m, source, [], weather) == Sending(link, m, Ok(0))
    ensures AsSet([]) == {} && NoRepeats<string>([])
  {
  }

  lemma OneMoreSent(link: Link, m: Table, source: Table, sent: seq<string>, key: string, weather: string -> Weather)
    requires (forall k :: k in sent ==> k in source) && key in source
    requires SendAll(link, m, source, sent, weather).result.Ok?
    ensures forall k :: k in sent + [key] ==> k in source
    ensures SendAll(link, m, source, sent + [key], weather)
            == SendNext(SendAll(link, m, source, sent, weather), key, source[key], weather(key))
    ensures AsSet(sent + [key]) == AsSet(sent) + {key}
    ensures NoRepeats(sent) && key !in AsSet(sent) ==> NoRepeats(sent + [key])
  {
    hide RoundTrip, SendNext;
    assert (sent + [key])[..|sent|] == sent;
  }

  lemma NothingGrouped()
    ensures GroupedBy(map[], map[])
  {
  }

  lemma StraysMore(keys: set<string>, key: string, self: HostEntity, alive: seq<HostEntity>)
    requires key !in keys
    ensures var r := Resolve(key, alive);
            Strays(keys + {key}, self, alive) ==
            if r.Some? && r != Some(self) then Strays(keys, self, alive)[key := r.value] else Strays(keys, self, alive)
  {
    hide Resolve;
  }

  lemma GroupKeys(groups: map<string, Action>, targets: map<string, HostEntity>, a: string)
    requires GroupedBy(groups, targets) && a in groups
    ensures AsSet(groups[a].keys) == AtAddresses(targets, {a})
  {
    hide Address;
  }

  lemma AddressesMore(targets: map<string, HostEntity>, addrs: set<string>, a: string)
    requires a !in addrs
    ensures AtAddresses(targets, addrs + {a}) == AtAddresses(targets, addrs) + AtAddresses(targets, {a})
    ensures AtAddresses(targets, addrs) !! AtAddresses(targets, {a})
  {
    hide Address;
  }

  /** Everything about a migration under way: what is gone, the count, the groups that arrived and those that failed. */
  ghost predicate Standing(c0: Connections, t0: Tables, c: Connections, t: Tables, held: Table, now: Table,
                           targets: map<string, HostEntity>, all: set<string>, left: set<string>,
                           succeeded: set<string>, migrated: nat, weather: string -> string -> Weather)
  {
    && left <= all && succeeded !! left && targets.Keys <= held.Keys
    && now == held - AtAddresses(targets, succeeded)
    && ((forall a :: a in all ==> Clean(LinkIn(c0, a))) ==> migrated == |AtAddresses(targets, succeeded) - {""}|)
    && Progress(c0, t0, c, t, held, targets, left, succeeded)
    && AllFailed(c0, t0, held, targets, all - left - succeeded, weather)
  }

  lemma StandingAtStart(c: Connections, t: Tables, held: Table, targets: map<string, HostEntity>, all: set<string>,
                        weather: string -> string -> Weather)
    requires targets.Keys <= held.Keys
    ensures Standing(c, t, c, t, held, held, targets, all, all, {}, 0, weather)
  {
    NoneAtNone(held, targets);
    ProgressAtStart(c, t, held, targets, all);
    NoneFailed(c, t, held, targets, weather);
    assert all - all - {} == {};
    hide AtAddresses, Progress, AllFailed, Clean, LinkIn;
  }

  lemma GroupStands(c0: Connections, t0: Tables, c: Connections, t: Tables, held: Table, now: Table,
                    targets: map<string, HostEntity>, all: set<string>, left: set<string>, succeeded: set<string>,
                    migrated: nat, weather: string -> string -> Weather, addr: string)
    requires Standing(c0, t0, c, t, held, now, targets, all, left, succeeded, migrated, weather) && addr in left
    ensures AtAddresses(targets, {addr}) <= now.Keys
  {
    GroupIsHere(targets, held, succeeded, addr);
  }

  lemma StandingStep(c0: Connections, t0: Tables, c1: Connections, t1: Tables, c2: Connections, t2: Tables, held: Table,
                     now: Table, now': Table, targets: map<string, HostEntity>, all: set<string>, left: set<string>,
                     succeeded: set<string>, migrated: nat, weather: string -> string -> Weather,
                     addr: string, ok: bool, count: nat)
    requires Standing(c0, t0, c1, t1, held, now, targets, all, left, succeeded, migrated, weather) && addr in left
    requires Elsewhere(addr, c1, t1, c2, t2)
    requires var group := AtAddresses(targets, {addr});
             && GroupMoved(LinkIn(c1, addr), TableAt(t1, addr), TableAt(t2, addr), now, group, ok)
             && now' == now - (if ok then group else {})
             && (!ok ==> count == 0)
             && (!ok ==> MetError(LinkIn(c1, addr), TableAt(t1, addr), now, group, weather(addr)))
             && (ok && Clean(LinkIn(c1, addr)) ==> count == |group - {""}|)
    ensures Standing(c0, t0, c2, t2, held, now', targets, all, left - {addr},
                     if ok then succeeded + {addr} else succeeded, migrated + count, weather)
  {
    hide AtAddresses, Progress, AllFailed, Clean, LinkIn, TableAt, Elsewhere, GroupMoved, MetError;
    LeftIsUntouched(c0, t0, c1, t1, held, targets, left, succeeded, addr);
    ProgressStep(c0, t0, c1, t1, c2, t2, held, targets, left, succeeded, addr, ok);
    GroupAdded(held, targets, succeeded, addr);
    var failed := all - left - succeeded;
    if ok {
      assert all - (left - {addr}) - (succeeded + {addr}) == failed;
    } else {
      FailedOneMore(c0, t0, held, targets, failed, succeeded, addr, weather);
      assert all - (left - {addr}) - succeeded == failed + {addr};
    }
  }

  lemma StandingAtEnd(c0: Connections, t0: Tables, c: Connections, t: Tables, held: Table, now: Table,
                      targets: map<string, HostEntity>, all: set<string>, succeeded: set<string>, migrated: nat,
                      weather: string -> string -> Weather)
    requires Standing(c0, t0, c, t, held, now, targets, all, {}, succeeded, migrated, weather)
    ensures now == held - AtAddresses(targets, succeeded)
    ensures (forall a :: a in all ==> Clean(LinkIn(c0, a))) ==> migrated == |AtAddresses(targets, succeeded) - {""}|
    ensures Progress(c0, t0, c, t, held, targets, {}, succeeded)
    ensures AllFailed(c0, t0, held, targets, all - succeeded, weather)
  {
    hide AtAddresses, Progress, AllFailed, Clean, LinkIn;
    assert all - {} - succeeded == all - succeeded;
  }

  lemma GroupIsHere(targets: map<string, HostEntity>, held: Table, succeeded: set<string>, addr: string)
    requires addr !in succeeded && targets.Keys <= held.Keys
    ensures AtAddresses(targets, {addr}) <= (held - AtAddresses(targets, succeeded)).Keys
  {
    hide Address;
  }

  /** What taking out one more group takes out, and how much that is. */
  lemma GroupAdded(held: Table, targets: map<string, HostEntity>, succeeded: set<string>, addr: string)
    requires addr !in succeeded
    ensures var gone, group := AtAddresses(targets, succeeded), AtAddresses(targets, {addr});
            && held - gone - {} == held - gone
            && held - gone - group == held - AtAddresses(targets, succeeded + {addr})
            && |AtAddresses(targets, succeeded + {addr}) - {""}| == |gone - {""}| + |group - {""}|
  {
    hide Address;
    AddressesMore(targets, succeeded, addr);
    hide AtAddresses;
    CountMore(AtAddresses(targets, succeeded), AtAddresses(targets, {addr}));
  }

  /** Where the migration stands: groups not tried yet find everything as it was, and what was removed has arrived. */
  ghost predicate Progress(c0: Connections, t0: Tables, c: Connections, t: Tables,
                           held: Table, targets: map<string, HostEntity>, left: set<string>, succeeded: set<string>)
  {
    && (forall a :: a in left ==> LinkIn(c, a) == LinkIn(c0, a) && TableAt(t, a) == TableAt(t0, a))
    && (forall a :: OnlyFrom(TableAt(t0, a), TableAt(t, a), held, AtAddresses(targets, {a})))
    && (forall a :: a in succeeded ==>
      Kept(LinkIn(c0, a), TableAt(t0, a), TableAt(t, a), held, AtAddresses(targets, {a})))
  }

  lemma ProgressAtStart(c: Connections, t: Tables, held: Table, targets: map<string, HostEntity>, left: set<string>)
    ensures Progress(c, t, c, t, held, targets, left, {})
  {
    hide Address, TableAt, AtAddresses;
  }

  /** The groups of these addresses each met an error, over the connections and tables there were at the start. */
  ghost predicate AllFailed(c0: Connections, t0: Tables, held: Table, targets: map<string, HostEntity>,
                            addrs: set<string>, weather: string -> string -> Weather)
  {
    forall a :: a in addrs ==>
      MetError(LinkIn(c0, a), TableAt(t0, a), held, AtAddresses(targets, {a}), weather(a))
  }

  lemma NoneFailed(c0: Connections, t0: Tables, held: Table, targets: map<string, HostEntity>,
                   weather: string -> string -> Weather)
    ensures AllFailed(c0, t0, held, targets, {}, weather)
  {
  }

  lemma FailedOneMore(c0: Connections, t0: Tables, held: Table, targets: map<string, HostEntity>, failed: set<string>,
                      succeeded: set<string>, addr: string, weather: string -> string -> Weather)
    requires AllFailed(c0, t0, held, targets, failed, weather) && addr !in succeeded && targets.Keys <= held.Keys
    requires MetError(LinkIn(c0, addr), TableAt(t0, addr), held - AtAddresses(targets, succeeded),
                      AtAddresses(targets, {addr}), weather(addr))
    ensures AllFailed(c0, t0, held, targets, failed + {addr}, weather)
  {
    GroupIsHere(targets, held, succeeded, addr);
    ErrorWithHeld(LinkIn(c0, addr), TableAt(t0, addr), held, AtAddresses(targets, succeeded),
                  AtAddresses(targets, {addr}), weather(addr));
    hide MetError, AtAddresses, LinkIn, TableAt, Address;
  }

  lemma ErrorWithHeld(link: Link, m: Table, held: Table, gone: set<string>, keys: set<string>,
                      weather: string -> Weather)
    requires keys <= (held - gone).Keys && MetError(link, m, held - gone, keys, weather)
    ensures MetError(link, m, held, keys, weather)
  {
    hide SendAll;
    var order :| ErrorIn(link, m, held - gone, keys, order, weather);
    SendAllOf(link, m, held - gone, held, order, weather);
    assert ErrorIn(link, m, held, keys, order, weather);
  }

  lemma LeftIsUntouched(c0: Connections, t0: Tables, c: Connections, t: Tables,
                        held: Table, targets: map<string, HostEntity>, left: set<string>, succeeded: set<string>,
                        addr: string)
    requires Progress(c0, t0, c, t, held, targets, left, succeeded) && addr in left
    ensures LinkIn(c, addr) == LinkIn(c0, addr) && TableAt(t, addr) == TableAt(t0, addr)
  {
  }

  lemma ProgressStep(c0: Connections, t0: Tables, c1: Connections, t1: Tables,
                     c2: Connections, t2: Tables, held: Table, targets: map<string, HostEntity>,
                     left: set<string>, succeeded: set<string>, addr: string, ok: bool)
    requires Progress(c0, t0, c1, t1, held, targets, left, succeeded)
    requires addr in left && succeeded !! left && targets.Keys <= held.Keys
    requires Elsewhere(addr, c1, t1, c2, t2)
    requires GroupMoved(LinkIn(c1, addr), TableAt(t1, addr), TableAt(t2, addr), held - AtAddresses(targets, succeeded),
                        AtAddresses(targets, {addr}), ok)
    ensures Progress(c0, t0, c2, t2, held, targets, left - {addr}, if ok then succeeded + {addr} else succeeded)
  {
    GroupIsHere(targets, held, succeeded, addr);
    MovedFromHeld(LinkIn(c1, addr), TableAt(t1, addr), TableAt(t2, addr), held, AtAddresses(targets, succeeded),
                  AtAddresses(targets, {addr}), ok);
    hide AtAddresses, TableAt, LinkIn, OnlyFrom, Kept, Address;
  }

  /** What was removed before does not matter to a group that was not. */
  lemma MovedFromHeld(link: Link, before: Table, after: Table, held: Table, gone: set<string>, keys: set<string>,
                      ok: bool)
    requires keys <= (held - gone).Keys && GroupMoved(link, before, after, held - gone, keys, ok)
    ensures GroupMoved(link, before, after, held, keys, ok)
  {
    assert forall k :: k in keys ==> (held - gone)[k] == held[k];
    hide Trusted;
  }

  lemma GroupsAreClean(c: Connections, targets: map<string, HostEntity>, groups: map<string, Action>)
    requires GroupedBy(groups, targets) && CleanTargets(c, targets)
    ensures forall a :: a in groups ==> Clean(LinkIn(c, a))
  {
    hide LinkIn, Address, Clean;
    forall a | a in groups ensures Clean(LinkIn(c, a)) {
      var k := GroupHasKey(groups, targets, a);
    }
  }

  lemma RemovedIsTransferred(c0: Connections, t0: Tables, c: Connections, t: Tables, held: Table,
                             targets: map<string, HostEntity>, succeeded: set<string>, k: string)
    requires Progress(c0, t0, c, t, held, targets, {}, succeeded)
    requires k in held && k !in held - AtAddresses(targets, succeeded)
    ensures k in targets && TransferredTo(c0, t0, t, Address(targets[k]), k, held[k])
  {
    RemovedIsAt(held, targets, succeeded, k);
    var a := Address(targets[k]);
    assert Kept(LinkIn(c0, a), TableAt(t0, a), TableAt(t, a), held, AtAddresses(targets, {a}));
    hide TableAt, LinkIn, Address, Trusted, AtAddresses;
  }

  lemma OnlyMeantArrive(c0: Connections, t0: Tables, c: Connections, t: Tables, held: Table,
                        targets: map<string, HostEntity>, left: set<string>, succeeded: set<string>)
    requires Progress(c0, t0, c, t, held, targets, left, succeeded)
    ensures OnlyMeant(t0, t, held, targets)
  {
    hide OnlyFrom, AtAddresses, TableAt;
  }

  lemma RemovedAreTransferred(c0: Connections, t0: Tables, c: Connections, t: Tables, held: Table,
                              targets: map<string, HostEntity>, succeeded: set<string>)
    requires Progress(c0, t0, c, t, held, targets, {}, succeeded)
    ensures AllTransferred(c0, t0, t, held, held - AtAddresses(targets, succeeded), targets)
  {
    hide Progress, AtAddresses, TransferredTo, Address;
    forall k | k in held && k !in held - AtAddresses(targets, succeeded)
      ensures k in targets && TransferredTo(c0, t0, t, Address(targets[k]), k, held[k])
    {
      RemovedIsTransferred(c0, t0, c, t, held, targets, succeeded, k);
    }
  }

  /** What the migration leaves, said key by key. */
  lemma Done(c0: Connections, t0: Tables, c: Connections, t: Tables, held: Table, targets: map<string, HostEntity>,
             groups: map<string, Action>, succeeded: set<string>, migrated: nat)
    requires Progress(c0, t0, c, t, held, targets, {}, succeeded)
    requires targets.Keys <= held.Keys && GroupedBy(groups, targets)
    requires (forall a :: a in groups ==> Clean(LinkIn(c0, a))) ==> migrated == |AtAddresses(targets, succeeded) - {""}|
    ensures Moved(c0, t0, t, held, held - AtAddresses(targets, succeeded), targets, migrated)
  {
    hide LinkIn, Clean, AtAddresses, Progress, GroupedBy, CleanTargets, AllTransferred, OnlyMeant;
    Removed(held, targets, succeeded);
    OnlyMeantArrive(c0, t0, c, t, held, targets, {}, succeeded);
    RemovedAreTransferred(c0, t0, c, t, held, targets, succeeded);
    if CleanTargets(c0, targets) {
      GroupsAreClean(c0, targets, groups);
    }
  }

  lemma NothingMoved(c: Connections, t: Tables, held: Table, targets: map<string, HostEntity>,
                     weather: string -> string -> Weather)
    ensures Moved(c, t, t, held, held, targets, 0)
    ensures targets == map[] ==> Stayed(c, t, t, held, held, targets, 0, weather)
  {
    assert OnlyMeant(t, t, held, targets) by {
      hide TableAt, AtAddresses;
    }
    assert AllTransferred(c, t, t, held, held, targets);
    hide OnlyMeant, AllTransferred, CleanTargets, Stayed;
    assert held.Keys - held.Keys - {""} == {};
    if targets == map[] {
      NoneStayed(c, t, held, weather);
    }
  }

  lemma NoneStayed(c: Connections, t: Tables, held: Table, weather: string -> string -> Weather)
    ensures Stayed(c, t, t, held, held, map[], 0, weather)
  {
    hide TableAt, AtAddresses, LinkIn, Address, CleanTargets, MetError, Calm;
    var none: map<string, HostEntity> := map[];
    assert held - none.Keys == held && none.Keys - {""} == {};
  }

  /** A stray that stays belongs to a group that met an error. */
  lemma StillFailed(c0: Connections, t0: Tables, held: Table, targets: map<string, HostEntity>,
                    groups: map<string, Action>, succeeded: set<string>, weather: string -> string -> Weather)
    requires AllFailed(c0, t0, held, targets, groups.Keys - succeeded, weather)
    requires targets.Keys <= held.Keys && GroupedBy(groups, targets)
    ensures StillFailing(c0, t0, held, held - AtAddresses(targets, succeeded), targets, weather)
  {
    forall k | k in targets && k in held - AtAddresses(targets, succeeded)
      ensures Address(targets[k]) in groups.Keys - succeeded
    {
    }
    hide MetError, AtAddresses, Address, LinkIn, TableAt;
  }

  /** Over a calm network every stray leaves. */
  lemma AllLeft(c0: Connections, t0: Tables, held: Table, targets: map<string, HostEntity>, groups: map<string, Action>,
                succeeded: set<string>, weather: string -> string -> Weather)
    requires AllFailed(c0, t0, held, targets, groups.Keys - succeeded, weather)
    requires targets.Keys <= held.Keys && GroupedBy(groups, targets) && forall a :: Calm(weather(a))
    ensures held - AtAddresses(targets, succeeded) == held - targets.Keys
  {
    StillFailed(c0, t0, held, targets, groups, succeeded, weather);
    forall k | k in targets ensures k !in held - AtAddresses(targets, succeeded) {
      var a := Address(targets[k]);
      CalmMeetsNone(LinkIn(c0, a), TableAt(t0, a), held, AtAddresses(targets, {a}), weather(a));
    }
    hide MetError, Address, LinkIn, TableAt, AllFailed, Calm;
  }

  /** What left over clean connections arrived, when everything left. */
  lemma AllArrived(c0: Connections, t0: Tables, t: Tables, held: Table, targets: map<string, HostEntity>, migrated: nat)
    requires Moved(c0, t0, t, held, held - targets.Keys, targets, migrated)
    requires targets.Keys <= held.Keys && CleanTargets(c0, targets)
    ensures EveryOneArrived(t, held, targets, migrated)
  {
    hide OnlyMeant, Address, TableAt, LinkIn, Clean;
    assert held.Keys - (held - targets.Keys).Keys == targets.Keys;
  }

  lemma StillHere(c0: Connections, t0: Tables, c: Connections, t: Tables, held: Table, targets: map<string, HostEntity>,
                  groups: map<string, Action>, succeeded: set<string>, migrated: nat,
                  weather: string -> string -> Weather)
    requires AllFailed(c0, t0, held, targets, groups.Keys - succeeded, weather)
    requires targets.Keys <= held.Keys && GroupedBy(groups, targets)
    requires Moved(c0, t0, t, held, held - AtAddresses(targets, succeeded), targets, migrated)
    ensures Stayed(c0, t0, t, held, held - AtAddresses(targets, succeeded), targets, migrated, weather)
  {
    hide MetError, AtAddresses, LinkIn, TableAt, AllFailed, Calm, GroupedBy, Moved, CleanTargets;
    hide StillFailing, EveryOneArrived;
    StillFailed(c0, t0, held, targets, groups, succeeded, weather);
    if forall a :: Calm(weather(a)) {
      AllLeft(c0, t0, held, targets, groups, succeeded, weather);
      if CleanTargets(c0, targets) {
        AllArrived(c0, t0, t, held, targets, migrated);
      }
    }
  }

  lemma StraysAreHeld(keys: set<string>, self: HostEntity, alive: seq<HostEntity>)
    ensures Strays(keys, self, alive).Keys <= keys
  {
    hide Resolve;
  }

  lemma CountMore(s: set<string>, t: set<string>)
    requires s !! t
    ensures |s + t - {""}| == |s - {""}| + |t - {""}|
  {
    assert s + t - {""} == (s - {""}) + (t - {""});
  }

  lemma GroupHasKey(groups: map<string, Action>, targets: map<string, HostEntity>, a: string) returns (k: string)
    requires GroupedBy(groups, targets) && a in groups
    ensures k in targets && a == Address(targets[k])
  {
    hide Address;
    k := groups[a].keys[0];
    assert k in groups[a].keys;
  }

  lemma Removed(held: Table, targets: map<string, HostEntity>, addrs: set<string>)
    requires targets.Keys <= held.Keys
    ensures held.Keys - (held - AtAddresses(targets, addrs)).Keys == AtAddresses(targets, addrs)
  {
    hide Address;
  }

  lemma RemovedIsAt(held: Table, targets: map<string, HostEntity>, addrs: set<string>, k: string)
    requires k in held && k !in held - AtAddresses(targets, addrs)
    ensures k in targets && Address(targets[k]) in addrs && k in AtAddresses(targets, {Address(targets[k])})
  {
    hide Address;
  }

  lemma NoneAtNone(m: Table, targets: map<string, HostEntity>)
    ensures AtAddresses(targets, {}) == {} && m - {} == m
  {
  }

  /**
   Strays are exactly the keys whose owner is another node. So once they have moved there are none left; and a node
   that holds only what it owns has none.
   */
  lemma StraysExactly(keys: set<string>, self: HostEntity, alive: seq<HostEntity>, k: string)
    requires alive != []
    ensures k in Strays(keys, self, alive) <==> k in keys && Owner(k, alive) != self
    ensures k in Strays(keys, self, alive) ==> Strays(keys, self, alive)[k] == Owner(k, alive)
    ensures Strays(keys - Strays(keys, self, alive).Keys, self, alive) == map[]
    ensures Strays(keys, self, alive) == map[] <==> forall j :: j in keys ==> Owner(j, alive) == self
  {
    var strays := Strays(keys, self, alive);
    forall j ensures j in strays <==> j in keys && Owner(j, alive) != self {
    }
    assert forall j :: j in Strays(keys - strays.Keys, self, alive) ==> j in keys && j !in strays;
  }

  /** The alive list of a node never contains the node, so with any other member alive every key it holds is a stray. */
  lemma EverythingIsStray(keys: set<string>, self: HostEntity, alive: seq<HostEntity>)
    requires self !in alive
    ensures Strays(keys, self, alive).Keys == if alive == [] then {} else keys
  {
    forall k | k in keys && alive != [] ensures k in Strays(keys, self, alive) {
      OwnerIsMember(k, alive);
    }
  }
}
