/**
 Rebalancing a cluster: every node plans which of its keys change owner, sends
 them to their new owners and removes them, all nodes at once and in any order,
 over pooled connections that may be out of step with their requests.
 */
module Rebalance {
  import opened Common
  import opened LogFormat
  import opened Host
  import opened Client
  import opened Worker
  import opened Proxy
  import opened Handover

  /** The owner of a key under a member list. */
  function Owner(key: string, members: seq<HostEntity>): HostEntity
    requires members != []
  {
    Resolve(key, members).value
  }

  /** Whether a node has to move a key it holds: its owner changes, to a node other than this one. */
  predicate Moves(key: string, self: HostEntity, old': seq<HostEntity>, new': seq<HostEntity>) {
    Resolve(key, old') != Resolve(key, new') && Resolve(key, new').Some? && Resolve(key, new') != Some(self)
  }

  function MovingKeys(m: Table, self: HostEntity, old': seq<HostEntity>, new': seq<HostEntity>): set<string> {
    set k | k in m && Moves(k, self, old', new')
  }

  /**
   The tables of the nodes, the plan of each node that has one, the keys each node has sent and had answered, and the
   pooled connections, by the node that has them and the one they lead to.
   */
  datatype System = System(
    stores: map<HostEntity, Table>,
    plans: map<HostEntity, set<string>>,
    sent: map<HostEntity, set<string>>,
    links: map<(HostEntity, HostEntity), Link>)

  /** The fixed surroundings: both member lists and the table the cluster held at the start. */
  datatype Change = Change(old': seq<HostEntity>, new': seq<HostEntity>, held: Table)

  /** A node plans, sends a key in some weather, removes a key, or closes a pooled connection. */
  datatype Step =
    | MakePlan(node: HostEntity)
    | SendKey(node: HostEntity, key: string, weather: Weather)
    | DropKey(node: HostEntity, key: string)
    | CloseLink(node: HostEntity, target: HostEntity)

  ghost predicate ValidChange(c: Change) {
    c.old' != [] && c.new' != []
  }

  function From(c: Change, k: string): HostEntity
    requires c.old' != []
  {
    Owner(k, c.old')
  }

  function To(c: Change, k: string): HostEntity
    requires c.new' != []
  {
    Owner(k, c.new')
  }

  function LinkBetween(s: System, n: HostEntity, t: HostEntity): Link {
    if (n, t) in s.links then s.links[(n, t)] else Down
  }

  /** The keys of the plan's action with this target. */
  function Group(c: Change, s: System, n: HostEntity, t: HostEntity): set<string>
    requires c.new' != [] && n in s.plans
  {
    set k | k in s.plans[n] && To(c, k) == t
  }

  /** Every key of the action with this target was answered, so that its keys may be removed. */
  ghost predicate ActionSent(c: Change, s: System, n: HostEntity, t: HostEntity)
    requires ValidChange(c) && n in s.plans && n in s.sent
  {
    Group(c, s, n, t) <= s.sent[n]
  }

  ghost predicate CanSend(c: Change, s: System, n: HostEntity, k: string)
    requires ValidChange(c)
  {
    && n in s.stores && n in s.plans && n in s.sent && To(c, k) in s.stores
    && k in s.plans[n] && k in s.stores[n] && k !in s.sent[n]
  }

  ghost predicate Enabled(c: Change, s: System, step: Step)
    requires ValidChange(c)
  {
    match step
    case MakePlan(n) => n in s.stores && n !in s.plans
    case SendKey(n, k, _) => CanSend(c, s, n, k)
    case DropKey(n, k) =>
      && n in s.stores && n in s.plans && n in s.sent
      && k in s.plans[n] && k in s.stores[n] && ActionSent(c, s, n, To(c, k))
    case CloseLink(_, _) => true
  }

  /** The INSERT a send makes, over the pooled connection to the new owner. */
  function SendOutcome(c: Change, s: System, n: HostEntity, k: string, weather: Weather): Outcome
    requires c.new' != [] && n in s.stores && To(c, k) in s.stores && k in s.stores[n]
  {
    RoundTrip(LinkBetween(s, n, To(c, k)), s.stores[To(c, k)], InsertOf(k, s.stores[n][k]), weather)
  }

  /** Any answer counts the key as sent; an error ends the action, which starts from nothing when it is tried again. */
  function SentAfter(c: Change, s: System, n: HostEntity, k: string, answered: bool): set<string>
    requires c.new' != [] && n in s.plans && n in s.sent
  {
    if answered then s.sent[n] + {k} else s.sent[n] - Group(c, s, n, To(c, k))
  }

  ghost function Next(c: Change, s: System, step: Step): System
    requires ValidChange(c) && Enabled(c, s, step)
  {
    match step
    case MakePlan(n) =>
      s.(plans := s.plans[n := MovingKeys(s.stores[n], n, c.old', c.new')], sent := s.sent[n := {}])
    case SendKey(n, k, weather) =>
      var t, o := To(c, k), SendOutcome(c, s, n, k, weather);
      s.(stores := s.stores[t := o.table], links := s.links[(n, t) := o.link],
         sent := s.sent[n := SentAfter(c, s, n, k, o.result.Ok?)])
    case DropKey(n, k) => s.(stores := s.stores[n := s.stores[n] - {k}])
    case CloseLink(n, t) => s.(links := s.links[(n, t) := Down])
  }

  /**
   At the start every key sits at its owner under the old list, alone, and no node has planned; connections are as they
   may be.
   */
  ghost predicate Initial(c: Change, s: System) {
    && ValidChange(c)
    && s.plans == map[] && s.sent == map[]
    && (forall h :: h in c.old' || h in c.new' ==> h in s.stores)
    && (forall n, k :: n in s.stores && k in s.stores[n] ==>
      k in c.held && s.stores[n][k] == c.held[k] && From(c, k) == n)
    && (forall k :: k in c.held ==> k in s.stores[From(c, k)])
  }

  /** At the end every key sits at its owner under the new list, alone, with the value it had. */
  ghost predicate Placed(c: Change, s: System)
    requires ValidChange(c)
  {
    forall n, k :: n in s.stores ==>
      (k in s.stores[n] <==> k in c.held && To(c, k) == n) && (k in s.stores[n] ==> s.stores[n][k] == c.held[k])
  }

  predicate IsSent(c: Change, s: System, k: string)
    requires c.old' != []
  {
    From(c, k) in s.sent && k in s.sent[From(c, k)]
  }

  // ---------- what every step keeps ----------

  /** Nothing is anywhere it should not be, and every copy has the right value. */
  ghost predicate OnlyCopies(c: Change, s: System)
    requires ValidChange(c)
  {
    && (forall k :: k in c.held ==> From(c, k) in s.stores && To(c, k) in s.stores)
    && forall n, k :: n in s.stores && k in s.stores[n] ==>
         k in c.held && s.stores[n][k] == c.held[k] && (n == From(c, k) || n == To(c, k))
  }

  /** Plans hold exactly the moving keys of their node that it held, and only planned keys are sent. */
  ghost predicate PlansAreRight(c: Change, s: System)
    requires ValidChange(c)
  {
    && s.plans.Keys == s.sent.Keys && s.plans.Keys <= s.stores.Keys
    && (forall n, k :: n in s.plans && k in s.plans[n] ==> k in c.held && From(c, k) == n && To(c, k) != n)
    && (forall n, k :: n in s.plans && k in s.stores[n] && To(c, k) != n ==> k in s.plans[n])
    && (forall n, k :: n in s.sent && k in s.sent[n] ==> k in s.plans[n])
  }

  /** A planned key is removed only when its whole action was answered. */
  ghost predicate DroppedAreDone(c: Change, s: System)
    requires ValidChange(c) && PlansAreRight(c, s)
  {
    forall n, k :: n in s.plans && k in s.plans[n] && k !in s.stores[n] ==> ActionSent(c, s, n, To(c, k))
  }

  ghost predicate Tame(c: Change, s: System) {
    ValidChange(c) && OnlyCopies(c, s) && PlansAreRight(c, s) && DroppedAreDone(c, s)
  }

  /** Every key is still at its old owner or was answered, and what was answered is at its new owner. */
  ghost predicate NothingLost(c: Change, s: System)
    requires ValidChange(c) && OnlyCopies(c, s)
  {
    forall k :: k in c.held ==>
      (k in s.stores[From(c, k)] || IsSent(c, s, k)) && (IsSent(c, s, k) ==> k in s.stores[To(c, k)])
  }

  ghost predicate Invariant(c: Change, s: System) {
    Tame(c, s) && NothingLost(c, s)
  }

  lemma OwnerIsMember(key: string, members: seq<HostEntity>)
    requires members != []
    ensures Owner(key, members) in members
  {
  }

  lemma InitialInvariant(c: Change, s: System)
    requires Initial(c, s)
    ensures Invariant(c, s)
  {
    forall k | k in c.held ensures From(c, k) in s.stores && To(c, k) in s.stores {
      OwnerIsMember(k, c.old');
      OwnerIsMember(k, c.new');
    }
  }

  lemma MovesMeans(c: Change, n: HostEntity, k: string)
    requires ValidChange(c)
    ensures Moves(k, n, c.old', c.new') <==> From(c, k) != To(c, k) && To(c, k) != n
  {
  }

  ghost predicate PlanMade(c: Change, s: System, s': System, n: HostEntity) {
    && s'.stores == s.stores && n in s.stores && n !in s.plans
    && s'.plans == s.plans[n := MovingKeys(s.stores[n], n, c.old', c.new')] && s'.sent == s.sent[n := {}]
  }

  lemma PlanIsRight(c: Change, s: System, n: HostEntity)
    requires ValidChange(c) && OnlyCopies(c, s) && n in s.stores
    ensures forall k :: k in MovingKeys(s.stores[n], n, c.old', c.new') <==> k in s.stores[n] && To(c, k) != n
    ensures forall k :: k in MovingKeys(s.stores[n], n, c.old', c.new') ==> k in c.held && From(c, k) == n
  {
    forall k {
      MovesMeans(c, n, k);
    }
    hide Resolve, Owner, Moves;
  }

  lemma PlanKeepsPlans(c: Change, s: System, s': System, n: HostEntity)
    requires Tame(c, s) && PlanMade(c, s, s', n)
    ensures PlansAreRight(c, s')
  {
    PlanIsRight(c, s, n);
    hide Resolve, Owner, MovingKeys, OnlyCopies, DroppedAreDone;
    forall m, k | m in s'.plans && k in s'.plans[m] ensures k in c.held && From(c, k) == m && To(c, k) != m {
      assert m != n ==> m in s.plans && k in s.plans[m];
    }
    forall m, k | m in s'.plans && k in s'.stores[m] && To(c, k) != m ensures k in s'.plans[m] {
      assert m != n ==> m in s.plans && k in s.plans[m];
    }
    forall m, k | m in s'.sent && k in s'.sent[m] ensures k in s'.plans[m] {
      assert m != n && k in s.sent[m];
    }
    hide From, To;
  }

  lemma PlanKeepsDone(c: Change, s: System, s': System, n: HostEntity)
    requires Tame(c, s) && PlanMade(c, s, s', n) && PlansAreRight(c, s')
    ensures DroppedAreDone(c, s')
  {
    hide Resolve, Owner, Moves, OnlyCopies;
    forall m, k | m in s'.plans && k in s'.plans[m] && k !in s'.stores[m] ensures ActionSent(c, s', m, To(c, k)) {
      assert m != n;
      assert ActionSent(c, s, m, To(c, k));
      assert Group(c, s', m, To(c, k)) == Group(c, s, m, To(c, k));
    }
  }

  lemma PlanSendsNothing(c: Change, s: System, s': System, n: HostEntity)
    requires Tame(c, s) && PlanMade(c, s, s', n)
    ensures forall k :: IsSent(c, s', k) == IsSent(c, s, k)
  {
    hide Resolve, Owner, Moves, OnlyCopies, DroppedAreDone;
  }

  lemma PlanKeepsInvariant(c: Change, s: System, s': System, n: HostEntity)
    requires Tame(c, s) && PlanMade(c, s, s', n)
    ensures Tame(c, s')
    ensures NothingLost(c, s) ==> NothingLost(c, s')
  {
    PlanKeepsPlans(c, s, s', n);
    PlanKeepsDone(c, s, s', n);
    PlanSendsNothing(c, s, s', n);
    hide Resolve, Owner, PlansAreRight, DroppedAreDone, IsSent;
  }

  // ---------- sending ----------

  /** The send can lose nothing: the new owner holds the key, or the connection is clean and the key is not empty. */
  ghost predicate SafeSend(c: Change, s: System, n: HostEntity, k: string)
    requires ValidChange(c) && CanSend(c, s, n, k)
  {
    Trusted(LinkBetween(s, n, To(c, k)), s.stores[To(c, k)], k, s.stores[n][k])
  }

  lemma SendFacts(c: Change, s: System, n: HostEntity, k: string, w: Weather)
    requires ValidChange(c) && CanSend(c, s, n, k)
    ensures var t, o := To(c, k), SendOutcome(c, s, n, k, w);
            && (o.table == s.stores[t] || o.table == s.stores[t][k := s.stores[n][k]])
            && (o.result.Ok? && SafeSend(c, s, n, k) ==> Holds(o.table, k, s.stores[n][k]))
  {
    var t := To(c, k);
    hide RoundTrip, Owner;
    InsertOutcome(LinkBetween(s, n, t), s.stores[t], k, s.stores[n][k], w);
    if SafeSend(c, s, n, k) {
      TrustedIsRemovable(LinkBetween(s, n, t), s.stores[t], k, s.stores[n][k], w);
    }
  }

  /** What a send changes: the key arrives or nothing does, and the answer decides what counts as sent. */
  ghost predicate KeySent(c: Change, s: System, s': System, n: HostEntity, k: string, answered: bool)
    requires ValidChange(c) && CanSend(c, s, n, k)
  {
    && s'.plans == s.plans && s'.sent == s.sent[n := SentAfter(c, s, n, k, answered)]
    && (s'.stores == s.stores || s'.stores == Arrived(c, s, n, k))
  }

  /** The stores once a node's copy of a key has arrived at the key's new owner. */
  ghost function Arrived(c: Change, s: System, n: HostEntity, k: string): map<HostEntity, Table>
    requires ValidChange(c) && CanSend(c, s, n, k)
  {
    var t := To(c, k);
    s.stores[t := s.stores[t][k := s.stores[n][k]]]
  }

  lemma SendIsKeySent(c: Change, s: System, n: HostEntity, k: string, w: Weather)
    requires ValidChange(c) && CanSend(c, s, n, k)
    ensures var s' := Next(c, s, SendKey(n, k, w));
            && KeySent(c, s, s', n, k, SendOutcome(c, s, n, k, w).result.Ok?)
            && (SendOutcome(c, s, n, k, w).result.Ok? && SafeSend(c, s, n, k) ==> k in s'.stores[To(c, k)])
  {
    SendFacts(c, s, n, k, w);
    hide Owner, SendOutcome, SafeSend;
    var t := To(c, k);
    assert s.stores[t := s.stores[t]] == s.stores;
  }

  /** Nothing of an action that is still being sent was removed. */
  lemma UnsentIsHere(c: Change, s: System, n: HostEntity, k: string, j: string)
    requires Tame(c, s) && CanSend(c, s, n, k)
    requires j in Group(c, s, n, To(c, k))
    ensures From(c, k) == n && To(c, k) != n && From(c, j) == n && j in s.stores[n]
  {
    hide Resolve, Owner, OnlyCopies;
    assert k in Group(c, s, n, To(c, k));
  }

  lemma SendKeepsCopies(c: Change, s: System, s': System, n: HostEntity, k: string, answered: bool)
    requires Tame(c, s) && CanSend(c, s, n, k) && KeySent(c, s, s', n, k, answered)
    ensures OnlyCopies(c, s')
  {
    hide Resolve, Owner, PlansAreRight, DroppedAreDone, SentAfter;
  }

  lemma SendKeepsPlans(c: Change, s: System, s': System, n: HostEntity, k: string, answered: bool)
    requires Tame(c, s) && CanSend(c, s, n, k) && KeySent(c, s, s', n, k, answered)
    ensures PlansAreRight(c, s')
  {
    hide Resolve, Owner, OnlyCopies, DroppedAreDone, Group;
    assert s'.sent[n] <= s.sent[n] + {k};
    hide SentAfter;
  }

  lemma SendKeepsDone(c: Change, s: System, s': System, n: HostEntity, k: string, answered: bool)
    requires Tame(c, s) && CanSend(c, s, n, k) && KeySent(c, s, s', n, k, answered)
    requires PlansAreRight(c, s')
    ensures DroppedAreDone(c, s')
  {
    hide Resolve, Owner, OnlyCopies;
    forall m, j | m in s'.plans && j in s'.plans[m] && j !in s'.stores[m] ensures ActionSent(c, s', m, To(c, j)) {
      assert j !in s.stores[m] && ActionSent(c, s, m, To(c, j));
      assert Group(c, s', m, To(c, j)) == Group(c, s, m, To(c, j));
      if m == n && To(c, j) == To(c, k) {
        UnsentIsHere(c, s, n, k, j);
        assert false;
      }
    }
  }

  lemma SendKeepsTame(c: Change, s: System, s': System, n: HostEntity, k: string, answered: bool)
    requires Tame(c, s) && CanSend(c, s, n, k) && KeySent(c, s, s', n, k, answered)
    ensures Tame(c, s')
  {
    hide CanSend, KeySent, OnlyCopies, PlansAreRight, DroppedAreDone;
    SendKeepsCopies(c, s, s', n, k, answered);
    SendKeepsPlans(c, s, s', n, k, answered);
    SendKeepsDone(c, s, s', n, k, answered);
  }

  lemma SentAfterSend(c: Change, s: System, s': System, n: HostEntity, k: string, answered: bool, j: string)
    requires Tame(c, s) && CanSend(c, s, n, k) && KeySent(c, s, s', n, k, answered)
    ensures From(c, k) == n && To(c, k) != n
    ensures if answered then IsSent(c, s', j) <==> IsSent(c, s, j) || j == k
            else IsSent(c, s', j) <==> IsSent(c, s, j) && j !in Group(c, s, n, To(c, k))
  {
    hide Resolve, Owner, OnlyCopies, DroppedAreDone;
  }

  lemma SendKeepsAll(c: Change, s: System, s': System, n: HostEntity, k: string, answered: bool)
    requires Invariant(c, s) && CanSend(c, s, n, k) && KeySent(c, s, s', n, k, answered)
    requires OnlyCopies(c, s') && (answered ==> k in s'.stores[To(c, k)])
    ensures NothingLost(c, s')
  {
    hide Resolve, Owner, PlansAreRight, DroppedAreDone, SentAfter, IsSent, Group;
    assert forall h :: h in s.stores ==> h in s'.stores && s.stores[h].Keys <= s'.stores[h].Keys;
    forall j | j in c.held
      ensures (j in s'.stores[From(c, j)] || IsSent(c, s', j)) && (IsSent(c, s', j) ==> j in s'.stores[To(c, j)])
    {
      SentAfterSend(c, s, s', n, k, answered, j);
      if j in Group(c, s, n, To(c, k)) {
        UnsentIsHere(c, s, n, k, j);
      }
    }
  }

  lemma SendKeepsInvariant(c: Change, s: System, n: HostEntity, k: string, w: Weather)
    requires Tame(c, s) && CanSend(c, s, n, k)
    ensures var s' := Next(c, s, SendKey(n, k, w));
            Tame(c, s') && (NothingLost(c, s) && SafeSend(c, s, n, k) ==> NothingLost(c, s'))
  {
    SendIsKeySent(c, s, n, k, w);
    var s', answered := Next(c, s, SendKey(n, k, w)), SendOutcome(c, s, n, k, w).result.Ok?;
    hide Next, CanSend, KeySent, OnlyCopies, NothingLost, PlansAreRight, DroppedAreDone, SafeSend, SendOutcome;
    SendKeepsTame(c, s, s', n, k, answered);
    if NothingLost(c, s) && SafeSend(c, s, n, k) {
      SendKeepsAll(c, s, s', n, k, answered);
    }
  }

  /** An unsafe send that the network misleads: the key counts as sent and is not at its new owner. */
  lemma UnsafeSendLoses(c: Change, s: System, n: HostEntity, k: string)
    requires Invariant(c, s) && CanSend(c, s, n, k) && !SafeSend(c, s, n, k)
    ensures var s' := Next(c, s, SendKey(n, k, Misleading(LinkBetween(s, n, To(c, k)))));
            To(c, k) in s'.stores && IsSent(c, s', k) && k !in s'.stores[To(c, k)] && k in c.held
  {
    var t := To(c, k);
    var w := Misleading(LinkBetween(s, n, t));
    hide Resolve, Owner, RoundTrip, Misleading;
    UntrustedOutcome(LinkBetween(s, n, t), s.stores[t], k, s.stores[n][k]);
    assert SendOutcome(c, s, n, k, w).table == s.stores[t] && SendOutcome(c, s, n, k, w).result.Ok?;
    hide SendOutcome;
    SendIsKeySent(c, s, n, k, w);
    SentAfterSend(c, s, Next(c, s, SendKey(n, k, w)), n, k, true, k);
  }

  /**
   The next send keeps the invariant, whatever the network does, exactly when its connection is clean and its key not
   empty, or its new owner holds the key already.
   */
  lemma SendIsSafeExactly(c: Change, s: System, n: HostEntity, k: string)
    requires Invariant(c, s) && CanSend(c, s, n, k)
    ensures (forall w: Weather :: Invariant(c, Next(c, s, SendKey(n, k, w)))) <==> SafeSend(c, s, n, k)
  {
    if SafeSend(c, s, n, k) {
      forall w: Weather ensures Invariant(c, Next(c, s, SendKey(n, k, w))) {
        SendKeepsInvariant(c, s, n, k, w);
      }
    } else {
      var w := Misleading(LinkBetween(s, n, To(c, k)));
      UnsafeSendLoses(c, s, n, k);
      hide Resolve, Owner, Next;
      assert !Invariant(c, Next(c, s, SendKey(n, k, w)));
    }
  }

  /** Only a send that fails leaves responses waiting on a clean connection. */
  lemma OnlyErrorsSoil(c: Change, s: System, step: Step, a: HostEntity, b: HostEntity)
    requires ValidChange(c) && Enabled(c, s, step)
    requires Clean(LinkBetween(s, a, b)) && !Clean(LinkBetween(Next(c, s, step), a, b))
    ensures Fails(c, s, step) && step.node == a && To(c, step.key) == b
  {
    hide RoundTrip, Owner;
    if step.SendKey? {
      var n, k := step.node, step.key;
      InsertOutcome(LinkBetween(s, n, To(c, k)), s.stores[To(c, k)], k, s.stores[n][k], step.weather);
    }
  }

  ghost predicate Fails(c: Change, s: System, step: Step)
    requires ValidChange(c) && Enabled(c, s, step)
  {
    step.SendKey? && SendOutcome(c, s, step.node, step.key, step.weather).result.Err?
  }

  // ---------- removing ----------

  ghost predicate KeyDropped(c: Change, s: System, s': System, n: HostEntity, k: string)
    requires ValidChange(c)
  {
    && Enabled(c, s, DropKey(n, k))
    && s'.plans == s.plans && s'.sent == s.sent && s'.stores == s.stores[n := s.stores[n] - {k}]
  }

  lemma DropFacts(c: Change, s: System, s': System, n: HostEntity, k: string)
    requires Tame(c, s) && KeyDropped(c, s, s', n, k)
    ensures forall j :: IsSent(c, s', j) <==> IsSent(c, s, j)
    ensures IsSent(c, s, k) && From(c, k) == n && To(c, k) != n
  {
    hide Resolve, Owner, OnlyCopies, DroppedAreDone;
    assert k in Group(c, s, n, To(c, k));
  }

  lemma DropKeepsCopies(c: Change, s: System, s': System, n: HostEntity, k: string)
    requires Tame(c, s) && KeyDropped(c, s, s', n, k)
    ensures OnlyCopies(c, s')
  {
    hide Resolve, Owner, PlansAreRight, DroppedAreDone, ActionSent;
  }

  lemma DropKeepsPlans(c: Change, s: System, s': System, n: HostEntity, k: string)
    requires Tame(c, s) && KeyDropped(c, s, s', n, k)
    ensures PlansAreRight(c, s')
  {
    hide Resolve, Owner, OnlyCopies, DroppedAreDone, ActionSent;
  }

  lemma DropKeepsDone(c: Change, s: System, s': System, n: HostEntity, k: string)
    requires Tame(c, s) && KeyDropped(c, s, s', n, k)
    requires PlansAreRight(c, s')
    ensures DroppedAreDone(c, s')
  {
    hide Resolve, Owner, OnlyCopies;
    forall m, j | m in s'.plans && j in s'.plans[m] && j !in s'.stores[m] ensures ActionSent(c, s', m, To(c, j)) {
      assert Group(c, s', m, To(c, j)) == Group(c, s, m, To(c, j));
      assert (m == n && j == k) || j !in s.stores[m];
    }
  }

  lemma DropKeepsAll(c: Change, s: System, s': System, n: HostEntity, k: string)
    requires Invariant(c, s) && KeyDropped(c, s, s', n, k)
    requires OnlyCopies(c, s')
    ensures NothingLost(c, s')
  {
    DropFacts(c, s, s', n, k);
    assert n in s.stores;
    hide Resolve, Owner, PlansAreRight, DroppedAreDone, IsSent, Enabled;
    forall j | j in c.held
      ensures (j in s'.stores[From(c, j)] || IsSent(c, s', j)) && (IsSent(c, s', j) ==> j in s'.stores[To(c, j)])
    {
    }
  }

  lemma DropKeepsInvariant(c: Change, s: System, s': System, n: HostEntity, k: string)
    requires Tame(c, s) && KeyDropped(c, s, s', n, k)
    ensures Tame(c, s') && (NothingLost(c, s) ==> NothingLost(c, s'))
  {
    hide KeyDropped, OnlyCopies, NothingLost, PlansAreRight, DroppedAreDone;
    DropKeepsCopies(c, s, s', n, k);
    DropKeepsPlans(c, s, s', n, k);
    DropKeepsDone(c, s, s', n, k);
    if NothingLost(c, s) {
      DropKeepsAll(c, s, s', n, k);
    }
  }

  // ---------- runs ----------

  ghost predicate LinkClosed(s: System, s': System) {
    s'.stores == s.stores && s'.plans == s.plans && s'.sent == s.sent
  }

  lemma CloseKeeps(c: Change, s: System, s': System)
    requires Tame(c, s) && LinkClosed(s, s')
    ensures Tame(c, s') && (NothingLost(c, s) ==> NothingLost(c, s'))
  {
    hide Resolve, Owner;
    assert forall j :: IsSent(c, s', j) == IsSent(c, s, j);
    forall m, j | m in s'.plans && j in s'.plans[m] && j !in s'.stores[m] ensures ActionSent(c, s', m, To(c, j)) {
      assert Group(c, s', m, To(c, j)) == Group(c, s, m, To(c, j));
    }
  }

  /** The step is no send, or one that can lose nothing. */
  ghost predicate Safe(c: Change, s: System, step: Step)
    requires ValidChange(c) && Enabled(c, s, step)
  {
    step.SendKey? ==> SafeSend(c, s, step.node, step.key)
  }

  /** What each step does. */
  ghost predicate Effect(c: Change, s: System, step: Step, s': System)
    requires ValidChange(c)
  {
    match step
    case MakePlan(n) => PlanMade(c, s, s', n)
    case SendKey(n, k, w) => CanSend(c, s, n, k)
    case DropKey(n, k) => KeyDropped(c, s, s', n, k)
    case CloseLink(_, _) => LinkClosed(s, s')
  }

  lemma StepHasEffect(c: Change, s: System, step: Step)
    requires ValidChange(c) && Enabled(c, s, step)
    ensures Effect(c, s, step, Next(c, s, step))
  {
    hide CanSend, ActionSent, SendOutcome, SentAfter, Owner, MovingKeys;
  }

  /** A step from a tame state leads to one; a safe step from one where nothing is lost leads to another such. */
  lemma StepKeepsInvariant(c: Change, s: System, step: Step)
    requires Tame(c, s) && Enabled(c, s, step)
    ensures Tame(c, Next(c, s, step))
    ensures NothingLost(c, s) && Safe(c, s, step) ==> NothingLost(c, Next(c, s, step))
  {
    assert ValidChange(c);
    StepHasEffect(c, s, step);
    hide Tame, NothingLost, SafeSend, PlanMade, KeyDropped, LinkClosed, Next, Enabled, CanSend;
    var s' := Next(c, s, step);
    match step
    case MakePlan(n) => PlanKeepsInvariant(c, s, s', n);
    case SendKey(n, k, w) => SendKeepsInvariant(c, s, n, k, w);
    case DropKey(n, k) => DropKeepsInvariant(c, s, s', n, k);
    case CloseLink(n, t) => CloseKeeps(c, s, s');
  }

  /** Steps taken one after the other. */
  ghost predicate Path(c: Change, states: seq<System>, steps: seq<Step>) {
    && ValidChange(c)
    && |states| == |steps| + 1
    && forall i :: 0 <= i < |steps| ==> Enabled(c, states[i], steps[i]) && states[i + 1] == Next(c, states[i], steps[i])
  }

  ghost predicate Run(c: Change, states: seq<System>, steps: seq<Step>) {
    Path(c, states, steps) && Initial(c, states[0])
  }

  /** Every send was safe when it was made. */
  ghost predicate Careful(c: Change, states: seq<System>, steps: seq<Step>)
    requires Path(c, states, steps)
  {
    forall i :: 0 <= i < |steps| ==> Safe(c, states[i], steps[i])
  }

  /** In every run, careful or not, copies are where they may be, with the right values, and plans are right. */
  lemma {:induction false} RunIsTame(c: Change, states: seq<System>, steps: seq<Step>, i: nat)
    requires Run(c, states, steps) && i < |states|
    ensures Tame(c, states[i])
  {
    hide Enabled, Next, Initial;
    if i == 0 {
      InitialInvariant(c, states[0]);
    } else {
      RunIsTame(c, states, steps, i - 1);
      hide Tame;
      StepKeepsInvariant(c, states[i - 1], steps[i - 1]);
    }
  }

  lemma {:induction false} InvariantHolds(c: Change, states: seq<System>, steps: seq<Step>, i: nat)
    requires Run(c, states, steps) && Careful(c, states, steps) && i < |states|
    ensures Invariant(c, states[i])
  {
    hide Tame, NothingLost, Enabled, Next, Initial, Safe;
    if i == 0 {
      InitialInvariant(c, states[0]);
    } else {
      InvariantHolds(c, states, steps, i - 1);
      StepKeepsInvariant(c, states[i - 1], steps[i - 1]);
    }
  }

  /** A send never overwrites an entry with a different value. */
  lemma SendOverwritesNothing(c: Change, states: seq<System>, steps: seq<Step>, i: nat, n: HostEntity, k: string)
    requires Run(c, states, steps) && i < |states| && CanSend(c, states[i], n, k)
    ensures k in states[i].stores[To(c, k)] ==> states[i].stores[To(c, k)][k] == states[i].stores[n][k]
  {
    RunIsTame(c, states, steps, i);
    hide Resolve, Owner, Run, PlansAreRight, DroppedAreDone;
  }

  /**
   At every moment of a run whose sends were safe, every key is held with its value by its old owner or its new one;
   and in any run, by no other node.
   */
  lemma NeverLost(c: Change, states: seq<System>, steps: seq<Step>, i: nat, k: string)
    requires Run(c, states, steps) && i < |states| && k in c.held
    ensures var s := states[i];
            && (Careful(c, states, steps) ==>
                  || Holds(StoreAt(s.stores, From(c, k)), k, c.held[k])
                  || Holds(StoreAt(s.stores, To(c, k)), k, c.held[k]))
            && forall n :: n in s.stores && k in s.stores[n] ==>
                 s.stores[n][k] == c.held[k] && (n == From(c, k) || n == To(c, k))
  {
    RunIsTame(c, states, steps, i);
    if Careful(c, states, steps) {
      InvariantHolds(c, states, steps, i);
    }
    hide Resolve, Owner, Run, Careful, PlansAreRight, DroppedAreDone;
  }

  // ---------- when everything is in its place ----------

  /** No step is left but closing connections: every node has planned, sent and removed. */
  ghost predicate Finished(c: Change, s: System)
    requires ValidChange(c)
  {
    forall step :: Enabled(c, s, step) ==> step.CloseLink?
  }

  /**
   In a run whose sends were safe, once every node has planned, nothing is left to do exactly when every key is at its
   new owner alone.
   */
  lemma FinishedIsPlaced(c: Change, states: seq<System>, steps: seq<Step>, i: nat)
    requires Run(c, states, steps) && Careful(c, states, steps) && i < |states|
    requires forall n :: n in states[i].stores ==> n in states[i].plans
    ensures Finished(c, states[i]) <==> Placed(c, states[i])
  {
    assert ValidChange(c);
    InvariantHolds(c, states, steps, i);
    hide Run, Careful, Finished, Placed, Invariant;
    var s := states[i];
    if Finished(c, s) {
      FinishedMeansPlaced(c, s);
    }
    if Placed(c, s) {
      PlacedMeansFinished(c, s);
    }
  }

  lemma AllSent(c: Change, s: System)
    requires Invariant(c, s) && Finished(c, s)
    ensures forall n, k :: n in s.plans && k in s.plans[n] ==> k in s.sent[n]
  {
    hide Resolve, Owner, DroppedAreDone;
    forall n, k | n in s.plans && k in s.plans[n] ensures k in s.sent[n] {
      assert !Enabled(c, s, SendKey(n, k, Reconnect()));
      assert k in s.stores[n] || IsSent(c, s, k);
    }
  }

  lemma AllDropped(c: Change, s: System)
    requires Invariant(c, s) && Finished(c, s)
    ensures forall n, k :: n in s.plans && k in s.plans[n] ==> k !in s.stores[n]
  {
    AllSent(c, s);
    hide Resolve, Owner, OnlyCopies, NothingLost, DroppedAreDone;
    forall n, k | n in s.plans && k in s.plans[n] ensures k !in s.stores[n] {
      assert !Enabled(c, s, DropKey(n, k));
      assert ActionSent(c, s, n, To(c, k));
    }
  }

  lemma FinishedMeansPlaced(c: Change, s: System)
    requires Invariant(c, s) && Finished(c, s)
    ensures Placed(c, s)
  {
    AllDropped(c, s);
    hide Resolve, Owner, DroppedAreDone;
    forall n | n in s.stores ensures n in s.plans {
      assert !Enabled(c, s, MakePlan(n));
    }
    hide Finished;
  }

  lemma PlacedMeansFinished(c: Change, s: System)
    requires Invariant(c, s) && Placed(c, s)
    requires forall n :: n in s.stores ==> n in s.plans
    ensures Finished(c, s)
  {
    hide Resolve, Owner;
  }

  // ---------- progress ----------

  ghost function Unsent(c: Change, s: System): set<string>
    requires ValidChange(c)
  {
    set k | k in c.held && !IsSent(c, s, k)
  }

  ghost function AtOldOwner(c: Change, s: System): set<string>
    requires ValidChange(c)
  {
    set k | k in c.held && From(c, k) in s.stores && k in s.stores[From(c, k)]
  }

  /** What is left to do: nodes without a plan, keys not sent, keys still at their old owner. */
  ghost function Left(c: Change, s: System): nat
    requires ValidChange(c)
  {
    |s.stores.Keys - s.plans.Keys| + |Unsent(c, s)| + |AtOldOwner(c, s)|
  }

  /** A step that gets nothing done: a failed send, which gives up its action, or closing a connection. */
  ghost predicate Idle(c: Change, s: System, step: Step)
    requires ValidChange(c) && Enabled(c, s, step)
  {
    step.CloseLink? || Fails(c, s, step)
  }

  /** Every other step leaves one thing less to do, and no step adds more than there are keys. */
  lemma StepProgresses(c: Change, s: System, step: Step)
    requires Tame(c, s) && Enabled(c, s, step)
    ensures if Idle(c, s, step) then Left(c, Next(c, s, step)) <= Left(c, s) + |c.held|
            else Left(c, Next(c, s, step)) == Left(c, s) - 1
  {
    assert ValidChange(c);
    StepHasEffect(c, s, step);
    hide Tame, Left, PlanMade, KeyDropped, LinkClosed, Next, Enabled, CanSend, SendOutcome;
    var s' := Next(c, s, step);
    match step
    case MakePlan(n) => PlanProgresses(c, s, s', n);
    case SendKey(n, k, w) => SendStepProgresses(c, s, n, k, w);
    case DropKey(n, k) => DropProgresses(c, s, s', n, k);
    case CloseLink(n, t) => CloseLeaves(c, s, s');
  }

  lemma SendStepProgresses(c: Change, s: System, n: HostEntity, k: string, w: Weather)
    requires Tame(c, s) && CanSend(c, s, n, k)
    ensures var s' := Next(c, s, SendKey(n, k, w));
            if SendOutcome(c, s, n, k, w).result.Ok? then Left(c, s') == Left(c, s) - 1
            else Left(c, s') <= Left(c, s) + |c.held|
  {
    SendIsKeySent(c, s, n, k, w);
    var s', answered := Next(c, s, SendKey(n, k, w)), SendOutcome(c, s, n, k, w).result.Ok?;
    hide Next, CanSend, KeySent, SafeSend, SendOutcome, Left, Tame;
    SendProgresses(c, s, s', n, k, answered);
  }

  lemma PlanProgresses(c: Change, s: System, s': System, n: HostEntity)
    requires Tame(c, s) && PlanMade(c, s, s', n)
    ensures Left(c, s') == Left(c, s) - 1
  {
    PlanSendsNothing(c, s, s', n);
    hide Resolve, Owner, Tame, MovingKeys, IsSent;
    assert s'.stores.Keys - s'.plans.Keys == (s.stores.Keys - s.plans.Keys) - {n};
    SameUnsent(c, s, s');
    assert AtOldOwner(c, s') == AtOldOwner(c, s);
  }

  lemma SendLeavesOthers(c: Change, s: System, s': System, n: HostEntity, k: string, answered: bool)
    requires Tame(c, s) && CanSend(c, s, n, k) && KeySent(c, s, s', n, k, answered)
    ensures s'.stores.Keys == s.stores.Keys && s'.plans == s.plans && AtOldOwner(c, s') == AtOldOwner(c, s)
  {
    hide Resolve, Owner, OnlyCopies, DroppedAreDone, SentAfter;
    assert From(c, k) == n && To(c, k) != n;
    assert s'.stores.Keys == s.stores.Keys;
    assert AtOldOwner(c, s') == AtOldOwner(c, s);
  }

  lemma SendProgresses(c: Change, s: System, s': System, n: HostEntity, k: string, answered: bool)
    requires Tame(c, s) && CanSend(c, s, n, k) && KeySent(c, s, s', n, k, answered)
    ensures if answered then Left(c, s') == Left(c, s) - 1 else Left(c, s') <= Left(c, s) + |c.held|
  {
    SendLeavesOthers(c, s, s', n, k, answered);
    if answered {
      AnsweredIsSent(c, s, s', n, k);
    } else {
      UnsentIsSmall(c, s');
    }
    hide Tame, CanSend, KeySent, Unsent, AtOldOwner;
  }

  lemma AnsweredIsSent(c: Change, s: System, s': System, n: HostEntity, k: string)
    requires Tame(c, s) && CanSend(c, s, n, k) && KeySent(c, s, s', n, k, true)
    ensures k in Unsent(c, s) && Unsent(c, s') == Unsent(c, s) - {k}
  {
    UnsentIsUnsent(c, s, n, k);
    forall j {
      SentAfterSend(c, s, s', n, k, true, j);
    }
    hide Resolve, Owner, Tame, IsSent, KeySent, CanSend;
  }

  lemma UnsentIsSmall(c: Change, s: System)
    requires ValidChange(c)
    ensures |Unsent(c, s)| <= |c.held|
  {
    hide IsSent, Owner;
    SubsetSize(Unsent(c, s), c.held.Keys);
    assert |c.held.Keys| == |c.held|;
  }

  lemma {:induction false} SubsetSize<T>(a: set<T>, b: set<T>)
    requires a <= b
    ensures |a| <= |b|
  {
    if a != {} {
      var x :| x in a;
      SubsetSize(a - {x}, b - {x});
    }
  }

  lemma UnsentIsUnsent(c: Change, s: System, n: HostEntity, k: string)
    requires Tame(c, s) && CanSend(c, s, n, k)
    ensures k in Unsent(c, s)
  {
    hide Resolve, Owner, OnlyCopies, DroppedAreDone;
  }

  lemma SameUnsent(c: Change, s: System, s': System)
    requires ValidChange(c) && forall k :: IsSent(c, s', k) == IsSent(c, s, k)
    ensures Unsent(c, s') == Unsent(c, s)
  {
    hide IsSent, Owner;
  }

  lemma DropLeaves(c: Change, s: System, s': System, n: HostEntity, k: string)
    requires Tame(c, s) && KeyDropped(c, s, s', n, k)
    ensures k in AtOldOwner(c, s) && AtOldOwner(c, s') == AtOldOwner(c, s) - {k}
    ensures s'.stores.Keys == s.stores.Keys && s'.plans == s.plans
  {
    DropFacts(c, s, s', n, k);
    assert k in s.stores[n] && k in c.held by {
      hide Resolve, Owner, DroppedAreDone;
    }
    assert n in s.stores && s'.stores == s.stores[n := s.stores[n] - {k}] && s'.plans == s.plans;
    hide Resolve, Owner, Tame, IsSent, KeyDropped, Enabled;
    assert s'.stores.Keys == s.stores.Keys;
    forall j ensures j in AtOldOwner(c, s') <==> j in AtOldOwner(c, s) && j != k {
      assert From(c, j) != n && From(c, j) in s.stores ==> s'.stores[From(c, j)] == s.stores[From(c, j)];
    }
  }

  lemma DropProgresses(c: Change, s: System, s': System, n: HostEntity, k: string)
    requires Tame(c, s) && KeyDropped(c, s, s', n, k)
    ensures Left(c, s') == Left(c, s) - 1
  {
    DropFacts(c, s, s', n, k);
    DropLeaves(c, s, s', n, k);
    hide Tame, KeyDropped, Unsent, AtOldOwner, IsSent, Owner;
    SameUnsent(c, s, s');
  }

  lemma CloseLeaves(c: Change, s: System, s': System)
    requires ValidChange(c) && LinkClosed(s, s')
    ensures Left(c, s') == Left(c, s)
  {
    hide Resolve, Owner;
    assert AtOldOwner(c, s') == AtOldOwner(c, s);
    assert forall k :: IsSent(c, s', k) == IsSent(c, s, k);
    hide IsSent, AtOldOwner, Unsent;
    SameUnsent(c, s, s');
  }

  /** The idle steps of a run up to a moment. */
  ghost function IdleSteps(c: Change, states: seq<System>, steps: seq<Step>, i: nat): nat
    requires Path(c, states, steps) && i < |states|
  {
    if i == 0 then 0 else
      IdleSteps(c, states, steps, i - 1) + if Idle(c, states[i - 1], steps[i - 1]) then 1 else 0
  }

  /** No run goes on without failed sends: its length is bounded by what was left to do and by how often sends fail. */
  lemma {:induction false} RunsAreShort(c: Change, states: seq<System>, steps: seq<Step>, i: nat)
    requires Run(c, states, steps) && i < |states|
    ensures i + Left(c, states[i]) <= Left(c, states[0]) + IdleSteps(c, states, steps, i) * (1 + |c.held|)
  {
    hide Left, Tame, Enabled, Next, Initial, Idle;
    if i > 0 {
      RunsAreShort(c, states, steps, i - 1);
      RunIsTame(c, states, steps, i - 1);
      StepProgresses(c, states[i - 1], steps[i - 1]);
      OneMore(IdleSteps(c, states, steps, i - 1), 1 + |c.held|);
    }
  }

  lemma OneMore(x: nat, y: nat)
    ensures (x + 1) * y == x * y + y
  {
  }

  // ---------- starting and finishing ----------

  /** The cluster that holds a table, every key at its old owner, over connections yet to be made. */
  function Start(c: Change): System
    requires c.old' != []
  {
    System(map h | h in c.old' + c.new' :: map k | k in c.held && From(c, k) == h :: c.held[k], map[], map[], map[])
  }

  /** Whatever the table and the member lists, there is a cluster to start from. */
  lemma StartIsInitial(c: Change)
    requires ValidChange(c)
    ensures Initial(c, Start(c))
  {
    hide Owner;
    forall k | k in c.held ensures From(c, k) in c.old' + c.new' {
      OwnerIsMember(k, c.old');
    }
  }

  /** The empty key, which no node accepts, is not among the keys that change owner. */
  ghost predicate NoEmptyKeyMoves(c: Change)
    requires ValidChange(c)
  {
    "" in c.held ==> From(c, "") == To(c, "")
  }

  /** The empty key never arrives anywhere, in any run. */
  lemma {:induction false} EmptyKeyStays(c: Change, states: seq<System>, steps: seq<Step>, i: nat, n: HostEntity)
    requires Run(c, states, steps) && i < |states|
    requires n in states[i].stores && "" in states[i].stores[n]
    ensures n == From(c, "")
  {
    hide Owner, RoundTrip;
    if i > 0 {
      var s, step := states[i - 1], steps[i - 1];
      if step.SendKey? {
        var t, k := To(c, step.key), step.key;
        InsertOutcome(LinkBetween(s, step.node, t), s.stores[t], k, s.stores[step.node][k], step.weather);
      }
      EmptyKeyStays(c, states, steps, i - 1, n);
    }
  }

  lemma Onward(c: Change, s: System) returns (step: Step)
    requires ValidChange(c) && !Finished(c, s)
    ensures Enabled(c, s, step)
    ensures if step.SendKey? then CanSend(c, s, step.node, step.key) else Safe(c, s, step) && !Idle(c, s, step)
  {
    step :| Enabled(c, s, step) && !step.CloseLink?;
    hide ActionSent, MovingKeys, Owner;
  }

  /** Over a connection made anew, a send is safe and answered. */
  lemma FreshSend(c: Change, s: System, n: HostEntity, k: string)
    requires Tame(c, s) && CanSend(c, s, n, k) && NoEmptyKeyMoves(c) && LinkBetween(s, n, To(c, k)) == Down
    ensures SafeSend(c, s, n, k) && SendOutcome(c, s, n, k, Reconnect()).result.Ok?
  {
    hide Resolve, Owner, RoundTrip, OnlyCopies, DroppedAreDone;
    ReconnectOutcome(Down, s.stores[To(c, k)], InsertOf(k, s.stores[n][k]));
  }

  /** A safe step before a careful path. */
  lemma Prepend(c: Change, s: System, step: Step, states: seq<System>, steps: seq<Step>)
    requires Path(c, states, steps) && Careful(c, states, steps)
    requires Enabled(c, s, step) && Safe(c, s, step) && states[0] == Next(c, s, step)
    ensures Path(c, [s] + states, [step] + steps) && Careful(c, [s] + states, [step] + steps)
  {
    hide Enabled, Next, Safe;
    assert forall i :: 1 <= i <= |steps| ==> ([step] + steps)[i] == steps[i - 1] && ([s] + states)[i] == states[i - 1];
  }

  /** A safe step that is not idle keeps everything and leaves less to do. */
  lemma GetsOneDone(c: Change, s: System, step: Step)
    requires ValidChange(c) && Invariant(c, s) && Enabled(c, s, step) && Safe(c, s, step) && !Idle(c, s, step)
    ensures Invariant(c, Next(c, s, step)) && Left(c, Next(c, s, step)) == Left(c, s) - 1
  {
    hide Left, NothingLost, Safe, Idle, Enabled, Next, Tame;
    StepKeepsInvariant(c, s, step);
    StepProgresses(c, s, step);
  }

  /** After closing its connection, a key can be sent over one made anew, and nothing else has changed. */
  lemma CloseFirst(c: Change, s: System, n: HostEntity, k: string)
    requires ValidChange(c) && Invariant(c, s) && CanSend(c, s, n, k)
    ensures var close := CloseLink(n, To(c, k));
            var s' := Next(c, s, close);
            && Enabled(c, s, close) && Safe(c, s, close)
            && Invariant(c, s') && Left(c, s') == Left(c, s)
            && CanSend(c, s', n, k) && LinkBetween(s', n, To(c, k)) == Down
  {
    var s' := Next(c, s, CloseLink(n, To(c, k)));
    CloseKeeps(c, s, s');
    CloseLeaves(c, s, s');
    hide Tame, NothingLost, Left, Owner;
  }

  lemma FreshSendDone(c: Change, s: System, n: HostEntity, k: string)
    requires ValidChange(c) && Invariant(c, s) && CanSend(c, s, n, k) && NoEmptyKeyMoves(c)
    requires LinkBetween(s, n, To(c, k)) == Down
    ensures var send := SendKey(n, k, Reconnect());
            && Enabled(c, s, send) && Safe(c, s, send)
            && Invariant(c, Next(c, s, send)) && Left(c, Next(c, s, send)) == Left(c, s) - 1
  {
    FreshSend(c, s, n, k);
    hide Tame, NothingLost, Left, Owner, SafeSend, SendOutcome, CanSend, Next;
    GetsOneDone(c, s, SendKey(n, k, Reconnect()));
  }

  /**
   Whatever has happened so far in a run whose sends were safe, it can be finished with care, and then every key is at
   its new owner alone; unless the empty key has to move.
   */
  lemma {:induction false} CanFinish(c: Change, s: System) returns (states: seq<System>, steps: seq<Step>)
    requires ValidChange(c) && Invariant(c, s) && NoEmptyKeyMoves(c)
    ensures Path(c, states, steps) && Careful(c, states, steps) && states[0] == s && Placed(c, states[|steps|])
    decreases Left(c, s)
  {
    if Finished(c, s) {
      FinishedMeansPlaced(c, s);
      return [s], [];
    }
    hide Left, Invariant, Finished, Placed, Enabled, Next, Safe, Idle, Path, Careful, CanSend, NoEmptyKeyMoves;
    var step := Onward(c, s);
    if step.SendKey? {
      var n, k := step.node, step.key;
      var close, send := CloseLink(n, To(c, k)), SendKey(n, k, Reconnect());
      CloseFirst(c, s, n, k);
      var s1 := Next(c, s, close);
      FreshSendDone(c, s1, n, k);
      states, steps := CanFinish(c, Next(c, s1, send));
      states, steps := FinishAfter(c, s1, send, states, steps);
      states, steps := FinishAfter(c, s, close, states, steps);
    } else {
      GetsOneDone(c, s, step);
      states, steps := CanFinish(c, Next(c, s, step));
      states, steps := FinishAfter(c, s, step, states, steps);
    }
  }

  lemma FinishAfter(c: Change, s: System, step: Step, states: seq<System>, steps: seq<Step>)
    returns (states': seq<System>, steps': seq<Step>)
    requires Path(c, states, steps) && Careful(c, states, steps) && Placed(c, states[|steps|])
    requires Enabled(c, s, step) && Safe(c, s, step) && states[0] == Next(c, s, step)
    ensures Path(c, states', steps') && Careful(c, states', steps') && states'[0] == s && Placed(c, states'[|steps'|])
  {
    hide Enabled, Next, Safe, Placed, Careful;
    Prepend(c, s, step, states, steps);
    states', steps' := [s] + states, [step] + steps;
  }

  /** A cluster can be rebalanced with care exactly when the empty key does not have to move. */
  lemma FinishesExactly(c: Change)
    requires ValidChange(c)
    ensures (exists states, steps :: Run(c, states, steps) && Careful(c, states, steps) && Placed(c, states[|steps|]))
            <==> NoEmptyKeyMoves(c)
  {
    if NoEmptyKeyMoves(c) {
      StartIsInitial(c);
      InitialInvariant(c, Start(c));
      var states, steps := CanFinish(c, Start(c));
      assert Run(c, states, steps) && Careful(c, states, steps) && Placed(c, states[|steps|]);
    } else {
      forall states, steps | Run(c, states, steps) ensures !Placed(c, states[|steps|]) {
        RunIsTame(c, states, steps, |steps|);
        if Placed(c, states[|steps|]) {
          EmptyKeyStays(c, states, steps, |steps|, To(c, ""));
        }
      }
    }
  }

  // ---------- a careless run ----------

  lemma OneMember(k: string, h: HostEntity)
    ensures Owner(k, [h]) == h
  {
  }

  lemma LateOutcome(m: Table, r: ZPack)
    ensures RoundTrip(Down, m, r, Always(Attempt(true, true, TimedOut)))
            == Outcome(Up([Handle(m, r).1]), Handle(m, r).0, Err(Timeout), 1)
  {
    hide Handle;
    assert [] + [Handle(m, r).1] == [Handle(m, r).1];
  }

  lemma ShiftedOutcome(u: ZPack, m: Table, r: ZPack)
    ensures RoundTrip(Up([u]), m, r, Always(Attempt(true, true, Received)))
            == Outcome(Up([Handle(m, r).1]), Handle(m, r).0, Ok(u), 1)
  {
    hide Handle;
    assert ([u] + [Handle(m, r).1])[0] == u && ([u] + [Handle(m, r).1])[1..] == [Handle(m, r).1];
  }

  /**
   An INSERT that times out, is sent again and given its late answer, and the next request given the answer to the
   second.
   */
  lemma LateCalls(key: string, value: string, next: ZPack) returns (r: ZPack)
    requires key != ""
    ensures var m, i := map[key := value], InsertOf(key, value);
            && RoundTrip(Down, map[], i, Always(Attempt(true, true, TimedOut))) == Outcome(Up([r]), m, Err(Timeout), 1)
            && RoundTrip(Up([r]), m, i, Always(Attempt(true, true, Received))) == Outcome(Up([r]), m, Ok(r), 1)
            && RoundTrip(Up([r]), m, next, Always(Attempt(true, false, Received))) == Outcome(Up([]), m, Ok(r), 0)
  {
    var m, i := map[key := value], InsertOf(key, value);
    r := Handle(map[], i).1;
    assert m[key := value] == m;
    assert Handle(map[], i).0 == m && Handle(m, i) == (m, r);
    LateOutcome(map[], i);
    ShiftedOutcome(r, m, i);
    StaleOutcome(Up([r]), m, next);
    assert [r][1..] == [];
  }

  /** Two nodes, one of which has planned to move all it holds to the other. */
  function Pair(a: HostEntity, b: HostEntity, here: Table, there: Table, plan: set<string>, sent: set<string>,
                link: Link): System {
    System(map[a := here, b := there], map[a := plan], map[a := sent], map[(a, b) := link])
  }

  lemma PairSend(a: HostEntity, b: HostEntity, held: Table, s: System, there: Table, sent: set<string>, link: Link,
                 k: string, w: Weather)
    requires a != b && s == Pair(a, b, held, there, held.Keys, sent, link) && k in held && k !in sent
    ensures var c, o := Change([a], [b], held), RoundTrip(link, there, InsertOf(k, held[k]), w);
            && Enabled(c, s, SendKey(a, k, w))
            && Next(c, s, SendKey(a, k, w))
               == Pair(a, b, held, o.table, held.Keys, if o.result.Ok? then sent + {k} else sent - held.Keys, o.link)
  {
    hide RoundTrip, Owner;
    var c := Change([a], [b], held);
    forall j {
      OneMember(j, b);
    }
    assert Group(c, s, a, b) == held.Keys;
    var s', o := Next(c, s, SendKey(a, k, w)), RoundTrip(link, there, InsertOf(k, held[k]), w);
    assert s'.stores == map[a := held, b := o.table];
    assert s'.links == map[(a, b) := o.link];
  }

  lemma PairPlan(a: HostEntity, b: HostEntity, held: Table)
    requires a != b
    ensures var c := Change([a], [b], held);
            var s := System(map[a := held, b := map[]], map[], map[], map[(a, b) := Down]);
            && Initial(c, s) && Enabled(c, s, MakePlan(a))
            && Next(c, s, MakePlan(a)) == Pair(a, b, held, map[], held.Keys, {}, Down)
  {
    var c := Change([a], [b], held);
    forall k ensures Owner(k, [a]) == a && Owner(k, [b]) == b && Moves(k, a, [a], [b]) {
      OneMember(k, a);
      OneMember(k, b);
      MovesMeans(c, a, k);
    }
    hide Resolve, Owner, Moves;
    assert MovingKeys(held, a, [a], [b]) == held.Keys;
  }

  lemma PairDrop(a: HostEntity, b: HostEntity, held: Table, here: Table, there: Table, k: string)
    requires a != b && k in here && here.Keys <= held.Keys
    ensures var c, s := Change([a], [b], held), Pair(a, b, here, there, held.Keys, held.Keys, Up([]));
            && Enabled(c, s, DropKey(a, k))
            && Next(c, s, DropKey(a, k)) == Pair(a, b, here - {k}, there, held.Keys, held.Keys, Up([]))
  {
    hide Owner;
  }

  ghost predicate Leads(c: Change, s: System, step: Step, s': System)
    requires ValidChange(c)
  {
    Enabled(c, s, step) && s' == Next(c, s, step)
  }

  /** The states of the run in which the answer to the first key is late. */
  function LateStates(a: HostEntity, b: HostEntity, k1: string, v1: string, k2: string, v2: string,
                      r: ZPack): seq<System>
    requires k1 != k2
  {
    var held, there := map[k1 := v1, k2 := v2], map[k1 := v1];
    [System(map[a := held, b := map[]], map[], map[], map[(a, b) := Down]),
     Pair(a, b, held, map[], held.Keys, {}, Down),
     Pair(a, b, held, there, held.Keys, {}, Up([r])),
     Pair(a, b, held, there, held.Keys, {k1}, Up([r])),
     Pair(a, b, held, there, held.Keys, held.Keys, Up([])),
     Pair(a, b, held - {k1}, there, held.Keys, held.Keys, Up([])),
     Pair(a, b, held - {k1} - {k2}, there, held.Keys, held.Keys, Up([]))]
  }

  function LateSteps(a: HostEntity, k1: string, k2: string): seq<Step> {
    [MakePlan(a),
     SendKey(a, k1, Always(Attempt(true, true, TimedOut))),
     SendKey(a, k1, Always(Attempt(true, true, Received))),
     SendKey(a, k2, Always(Attempt(true, false, Received))),
     DropKey(a, k1),
     DropKey(a, k2)]
  }

  /** One send of the run, from a state of the pair to another. */
  lemma LateSend(a: HostEntity, b: HostEntity, held: Table, there: Table, sent: set<string>, link: Link, k: string,
                 at: Attempt, o: Outcome, sent': set<string>)
    requires a != b && k in held && k !in sent
    requires o == RoundTrip(link, there, InsertOf(k, held[k]), Always(at))
    requires sent' == if o.result.Ok? then sent + {k} else sent - held.Keys
    ensures Leads(Change([a], [b], held), Pair(a, b, held, there, held.Keys, sent, link), SendKey(a, k, Always(at)),
                  Pair(a, b, held, o.table, held.Keys, sent', o.link))
  {
    hide RoundTrip, Enabled, Next, Owner, Pair, Always;
    PairSend(a, b, held, Pair(a, b, held, there, held.Keys, sent, link), there, sent, link, k, Always(at));
  }

  lemma LateSends(a: HostEntity, b: HostEntity, k1: string, v1: string, k2: string, v2: string) returns (r: ZPack)
    requires a != b && k1 != k2 && k1 != ""
    ensures var c := Change([a], [b], map[k1 := v1, k2 := v2]);
            var states, steps := LateStates(a, b, k1, v1, k2, v2, r), LateSteps(a, k1, k2);
            && Leads(c, states[1], steps[1], states[2])
            && Leads(c, states[2], steps[2], states[3])
            && Leads(c, states[3], steps[3], states[4])
  {
    var held, there := map[k1 := v1, k2 := v2], map[k1 := v1];
    r := LateCalls(k1, v1, InsertOf(k2, v2));
    hide RoundTrip, Leads, Pair, Always;
    assert {} - held.Keys == {} && {} + {k1} == {k1} && {k1} + {k2} == held.Keys;
    LateSend(a, b, held, map[], {}, Down, k1, Attempt(true, true, TimedOut),
             Outcome(Up([r]), there, Err(Timeout), 1), {});
    LateSend(a, b, held, there, {}, Up([r]), k1, Attempt(true, true, Received),
             Outcome(Up([r]), there, Ok(r), 1), {k1});
    LateSend(a, b, held, there, {k1}, Up([r]), k2, Attempt(true, false, Received),
             Outcome(Up([]), there, Ok(r), 0), held.Keys);
  }

  lemma LateDrops(a: HostEntity, b: HostEntity, k1: string, v1: string, k2: string, v2: string, r: ZPack)
    requires a != b && k1 != k2
    ensures var c := Change([a], [b], map[k1 := v1, k2 := v2]);
            var states, steps := LateStates(a, b, k1, v1, k2, v2, r), LateSteps(a, k1, k2);
            && Initial(c, states[0])
            && Leads(c, states[0], steps[0], states[1])
            && Leads(c, states[4], steps[4], states[5])
            && Leads(c, states[5], steps[5], states[6])
  {
    var held, there := map[k1 := v1, k2 := v2], map[k1 := v1];
    hide Enabled, Next, Owner, Pair, Initial;
    PairPlan(a, b, held);
    PairDrop(a, b, held, held, there, k1);
    PairDrop(a, b, held, held - {k1}, there, k2);
  }

  /**
   How a key is lost: the first key arrives, but its answer is late and the action fails; tried again, the first key is
   given the late answer and the second key, which never arrives, the answer to the first; both are removed.
   */
  lemma LateAnswerLosesKey(a: HostEntity, b: HostEntity, k1: string, v1: string, k2: string, v2: string)
    returns (c: Change, states: seq<System>, steps: seq<Step>)
    requires a != b && k1 != k2 && k1 != ""
    ensures c == Change([a], [b], map[k1 := v1, k2 := v2])
    ensures Run(c, states, steps) && LinkBetween(states[0], a, b) == Down
    ensures forall h :: h in states[|steps|].stores ==> k2 !in states[|steps|].stores[h]
  {
    c := Change([a], [b], map[k1 := v1, k2 := v2]);
    var r := LateSends(a, b, k1, v1, k2, v2);
    LateDrops(a, b, k1, v1, k2, v2, r);
    states, steps := LateStates(a, b, k1, v1, k2, v2, r), LateSteps(a, k1, k2);
    LateEnds(a, b, k1, v1, k2, v2, r);
    forall i | 0 <= i < 6 ensures Leads(c, states[i], steps[i], states[i + 1]) {
      hide Leads, LateStates, LateSteps;
      assert i == 0 || i == 1 || i == 2 || i == 3 || i == 4 || i == 5;
    }
    hide Enabled, Next, Initial, LateStates, LateSteps, LinkBetween;
  }

  lemma LateEnds(a: HostEntity, b: HostEntity, k1: string, v1: string, k2: string, v2: string, r: ZPack)
    requires a != b && k1 != k2
    ensures var states := LateStates(a, b, k1, v1, k2, v2, r);
            && |states| == 7 && |LateSteps(a, k1, k2)| == 6
            && LinkBetween(states[0], a, b) == Down
            && forall h :: h in states[6].stores ==> k2 !in states[6].stores[h]
  {
    hide Always;
  }

  // ---------- staying careful ----------

  /** Connections may be unclean only from this node to this target. */
  ghost predicate CleanBut(s: System, a: HostEntity, b: HostEntity) {
    forall n, t :: (n, t) != (a, b) ==> Clean(LinkBetween(s, n, t))
  }

  ghost predicate AllClean(s: System) {
    forall n, t :: Clean(LinkBetween(s, n, t))
  }

  /** Every send that fails is followed by closing its connection. */
  ghost predicate Tidy(c: Change, states: seq<System>, steps: seq<Step>)
    requires Path(c, states, steps)
  {
    forall i :: 0 <= i < |steps| - 1 && Fails(c, states[i], steps[i]) ==>
      steps[i + 1].CloseLink? && steps[i + 1].node == steps[i].node && steps[i + 1].target == To(c, steps[i].key)
  }

  lemma StepStaysClean(c: Change, s: System, step: Step)
    requires ValidChange(c) && Enabled(c, s, step) && AllClean(s)
    ensures var s' := Next(c, s, step);
            if Fails(c, s, step) then CleanBut(s', step.node, To(c, step.key)) else AllClean(s')
  {
    forall n, t | !Clean(LinkBetween(Next(c, s, step), n, t))
      ensures Fails(c, s, step) && n == step.node && t == To(c, step.key)
    {
      OnlyErrorsSoil(c, s, step, n, t);
    }
  }

  lemma {:induction false} TidyIsClean(c: Change, states: seq<System>, steps: seq<Step>, i: nat)
    requires Path(c, states, steps) && Tidy(c, states, steps) && AllClean(states[0]) && i < |states|
    ensures if i > 0 && Fails(c, states[i - 1], steps[i - 1])
            then CleanBut(states[i], steps[i - 1].node, To(c, steps[i - 1].key)) else AllClean(states[i])
  {
    hide Enabled, Next, Fails, AllClean, CleanBut, Owner;
    if i > 0 {
      TidyIsClean(c, states, steps, i - 1);
      if i > 1 && Fails(c, states[i - 2], steps[i - 2]) {
        CloseCleans(c, states[i - 1], steps[i - 1].node, steps[i - 1].target);
        assert steps[i - 1] == CloseLink(steps[i - 1].node, steps[i - 1].target);
      } else {
        StepStaysClean(c, states[i - 1], steps[i - 1]);
      }
    }
  }

  lemma CloseCleans(c: Change, s: System, n: HostEntity, t: HostEntity)
    requires ValidChange(c) && CleanBut(s, n, t)
    ensures AllClean(Next(c, s, CloseLink(n, t))) && !Fails(c, s, CloseLink(n, t))
  {
  }

  lemma CleanSendIsSafe(c: Change, s: System, n: HostEntity, k: string)
    requires Tame(c, s) && CanSend(c, s, n, k) && NoEmptyKeyMoves(c) && AllClean(s)
    ensures SafeSend(c, s, n, k)
  {
    hide Resolve, Owner, OnlyCopies, DroppedAreDone;
  }

  /** Starting from clean connections, and closing a connection after every failure on it, is all the care it takes. */
  lemma TidyIsCareful(c: Change, states: seq<System>, steps: seq<Step>)
    requires Run(c, states, steps) && Tidy(c, states, steps) && AllClean(states[0]) && NoEmptyKeyMoves(c)
    ensures Careful(c, states, steps)
  {
    forall i | 0 <= i < |steps| ensures Safe(c, states[i], steps[i]) {
      if steps[i].SendKey? {
        hide Next, Initial, Tame, AllClean, CleanBut, Fails, SafeSend, Owner, NoEmptyKeyMoves;
        RunIsTame(c, states, steps, i);
        TidyIsClean(c, states, steps, i);
        CleanSendIsSafe(c, states[i], steps[i].node, steps[i].key);
      }
    }
  }

  // ---------- a group's sends are steps ----------

  /** Where sending some keys of a group over one connection leads. */
  ghost predicate GroupSent(s: System, e: System, n: HostEntity, t: HostEntity, order: seq<string>, g: Sending)
    requires n in s.sent
  {
    && e.stores == s.stores[t := g.table] && LinkBetween(e, n, t) == g.link && e.plans == s.plans
    && (g.result.Ok? ==> e.sent == s.sent[n := s.sent[n] + AsSet(order)])
  }

  ghost predicate Sendable(c: Change, s: System, n: HostEntity, t: HostEntity, order: seq<string>)
    requires ValidChange(c)
  {
    && n in s.stores && n in s.plans && n in s.sent && t in s.stores && t != n
    && NoRepeats(order) && forall k :: k in order ==> k in Group(c, s, n, t) && k in s.stores[n] && k !in s.sent[n]
  }

  lemma GroupStep(c: Change, s: System, e: System, n: HostEntity, t: HostEntity, order: seq<string>, g: Sending,
                  w: Weather)
    requires ValidChange(c) && Sendable(c, s, n, t, order) && order != []
    requires GroupSent(s, e, n, t, order[..|order| - 1], g) && g.result.Ok?
    ensures var k := order[|order| - 1];
            && CanSend(c, e, n, k)
            && GroupSent(s, Next(c, e, SendKey(n, k, w)), n, t, order, SendNext(g, k, s.stores[n][k], w))
  {
    hide RoundTrip, Owner;
    var front, k := order[..|order| - 1], order[|order| - 1];
    assert k in order && forall j :: j in front ==> j != k;
    assert To(c, k) == t && k !in AsSet(front);
    LastOfSet(order);
    assert e.stores[n] == s.stores[n] && e.stores[t] == g.table;
    var o := RoundTrip(g.link, g.table, InsertOf(k, s.stores[n][k]), w);
    assert SendOutcome(c, e, n, k, w) == o;
    assert s.stores[t := g.table][t := o.table] == s.stores[t := o.table];
    assert s.sent[n] + AsSet(front) + {k} == s.sent[n] + AsSet(order);
    var all := s.sent[n] + AsSet(order);
    assert s.sent[n := s.sent[n] + AsSet(front)][n := all] == s.sent[n := all];
  }

  /** Sending the keys of a group as the migration does, in any order and weather, is a path of this system. */
  lemma {:induction false} GroupIsPath(c: Change, s: System, n: HostEntity, t: HostEntity, order: seq<string>,
                                       weather: string -> Weather)
    returns (states: seq<System>, steps: seq<Step>)
    requires ValidChange(c) && Sendable(c, s, n, t, order)
    ensures Path(c, states, steps) && states[0] == s
    ensures GroupSent(s, states[|steps|], n, t, order,
                      SendAll(LinkBetween(s, n, t), s.stores[t], s.stores[n], order, weather))
  {
    hide RoundTrip, Owner, SendNext;
    if order == [] {
      assert s.sent[n] + AsSet(order) == s.sent[n] && s.sent[n := s.sent[n]] == s.sent;
      assert s.stores[t := s.stores[t]] == s.stores;
      return [s], [];
    }
    var front, k := order[..|order| - 1], order[|order| - 1];
    states, steps := GroupIsPath(c, s, n, t, front, weather);
    var e, g := states[|steps|], SendAll(LinkBetween(s, n, t), s.stores[t], s.stores[n], front, weather);
    if g.result.Ok? {
      hide Next, CanSend;
      GroupStep(c, s, e, n, t, order, g, weather(k));
      states, steps := states + [Next(c, e, SendKey(n, k, weather(k)))], steps + [SendKey(n, k, weather(k))];
    }
  }
}
