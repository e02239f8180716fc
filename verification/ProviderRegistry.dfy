/** The registry of provider pools. */
module ProviderRegistry {
  // `RuntimeCapacity` of `src/core/runtime-capacity.ts`: one capacity pool per provider, created on demand and
  // dropped when idle. The danger is a dropped pool that still has leases out beside a new pool for the same
  // provider; the invariant rules it out.  A pool object is an index into `pools`, which holds its CapacitySpec
  // state; the class in CapacityPool.dfy refines those states. Dropping a pool from `providers` leaves the object,
  // and whatever leases it still has, in place.

  import opened JsMap
  import opened CapacitySpec
  import opened CapacityAccounting
  import opened CapacityCaps
  import opened CapacityFairness
  import opened CapacityPool

  datatype Options = Options(providerTurns: int, providerTurnsPerRoom: int, maxWaiting: int, maxWaitMs: int)

  const MAX_PROVIDERS := 64

  /** Up to two places are kept for nested work, but never the last ordinary one. */
  function PoolLimits(o: Options): Limits {
    Limits(o.providerTurns, o.providerTurnsPerRoom, o.maxWaiting, o.maxWaitMs, Min(2, o.providerTurns - 1))
  }

  predicate ValidOptions(o: Options) {
    && SafeInteger(o.providerTurns) && 1 <= o.providerTurns
    && SafeInteger(o.providerTurnsPerRoom) && 1 <= o.providerTurnsPerRoom
    && SafeInteger(o.maxWaiting) && 1 <= o.maxWaiting
    && SafeInteger(o.maxWaitMs) && 1 <= o.maxWaitMs
  }

  datatype Answer = Answered(verdict: Refusal, pool: nat, ticket: nat) | RegistryClosed | RegistryFull

  predicate Idle(s: Pool) {
    s.active == 0 && s.waiting == 0
  }

  /** Pool `p` serves the requests of its provider. */
  predicate Current(providers: map<string, nat>, owners: seq<string>, p: nat)
    requires p < |owners|
  {
    owners[p] in providers && providers[owners[p]] == p
  }

  /** Every pool is one its provider's limits allow. */
  ghost predicate PoolsInv(c: Limits, pools: seq<Pool>) {
    forall p :: 0 <= p < |pools| ==> Inv(c, pools[p]) && !CanGrant(c, pools[p]) && QueueFits(c, pools[p])
  }

  ghost predicate NamesInv(providers: map<string, nat>, owners: seq<string>, rejections: multiset<nat>) {
    && (forall k :: k in providers ==> providers[k] < |owners| && owners[providers[k]] == k)
    && (forall p :: p in rejections ==> p < |owners|)
    && |providers.Keys| <= MAX_PROVIDERS
  }

  /** Work in flight belongs to the registered pool. */
  ghost predicate FlightInv(providers: map<string, nat>, owners: seq<string>, pools: seq<Pool>) {
    && |owners| == |pools|
    && forall p :: 0 <= p < |pools| && !Current(providers, owners, p) ==> Idle(pools[p])
  }

  /** An idle pool stays registered only until a pending continuation removes it. */
  ghost predicate NoLeak(providers: map<string, nat>, owners: seq<string>, pools: seq<Pool>,
                         rejections: multiset<nat>, except: set<nat>)
  {
    && |owners| == |pools|
    && forall p :: 0 <= p < |pools| && p !in except && Current(providers, owners, p) && Idle(pools[p]) ==> p in rejections
  }

  class RuntimeCapacity {
    const options: Options
    var providers: map<string, nat>
    var closed: bool
    var pools: seq<Pool>             // every pool object ever created
    var owners: seq<string>          // the provider each of them was created for
    var rejections: multiset<nat>    // rejected requests whose `catch` continuation has not run yet

    ghost predicate Valid()
      reads this
    {
      && ValidOptions(options) && |owners| == |pools|
      && PoolsInv(PoolLimits(options), pools)
      && NamesInv(providers, owners, rejections)
      && NoLeak(providers, owners, pools, rejections, {})
      && if closed then providers == map[] else FlightInv(providers, owners, pools)
    }

    constructor (options: Options)
      requires ValidOptions(options)
      ensures Valid() && this.options == options && !closed && providers == map[] && pools == []
    {
      this.options := options;
      providers, closed, rejections, pools, owners := map[], false, multiset{}, [], [];
    }

    /** Looks the provider's pool up, or creates it. */
    method PoolFor(provider: string) returns (p: nat)
      requires Valid() && !closed && (provider in providers || |providers.Keys| < MAX_PROVIDERS)
      modifies this`providers, this`pools, this`owners
      ensures providers == old(providers)[provider := p] && p < |pools|
      ensures if provider in old(providers) then p == old(providers)[provider] && pools == old(pools) && owners == old(owners)
              else p == |old(pools)| && pools == old(pools) + [Empty()] && owners == old(owners) + [provider]
      ensures PoolsInv(PoolLimits(options), pools) && NamesInv(providers, owners, rejections)
      ensures FlightInv(providers, owners, pools) && NoLeak(providers, owners, pools, rejections, {p})
    {
      hide Inv, QueueFits, CanGrant, Empty;
      if provider in providers {
        p := providers[provider];
      } else {
        p := |pools|;
        providers := providers[provider := p];
        pools := pools + [Empty()];
        owners := owners + [provider];
        assert providers.Keys == old(providers.Keys) + {provider};
        EmptyPool(options);
      }
    }

    /** The part of `acquireProvider` that runs before its `await`. */
    method AcquireProvider(provider: string, room: string, aborted: bool, nested: bool) returns (answer: Answer)
      requires Valid()
      modifies this
      ensures Valid() && closed == old(closed)
      ensures answer == RegistryClosed <==> old(closed)
      ensures answer == RegistryFull <==>
                !old(closed) && provider !in old(providers) && |old(providers.Keys)| >= MAX_PROVIDERS
      ensures !answer.Answered? ==> providers == old(providers) && pools == old(pools) && rejections == old(rejections)
      ensures answer.Answered? ==>
                var c, p, known := PoolLimits(options), answer.pool, provider in old(providers);
                var before := if known then old(pools) else old(pools) + [Empty()];
                && p < |before| && p == (if known then old(providers)[provider] else |old(pools)|)
                && providers == old(providers)[provider := p]
                && owners == (if known then old(owners) else old(owners) + [provider])
                && ValidMap(before[p].rooms)
                && pools == before[p := CapacitySpec.Acquire(c, before[p], room, aborted, nested)]
                && answer.verdict == Admission(c, before[p], aborted, nested)
                && answer.ticket == |before[p].issued|
                && rejections == if answer.verdict == Accepted then old(rejections) else old(rejections) + multiset{p}
    {
      hide Inv, QueueFits, CanGrant, Empty, CapacitySpec.Acquire, Admission, ValidLimits, PoolLimits;
      EmptyPool(options);
      if closed {
        return RegistryClosed;
      }
      if provider !in providers && |providers.Keys| >= MAX_PROVIDERS {
        return RegistryFull;
      }
      var p := PoolFor(provider);
      answer := Request(p, room, aborted, nested);
    }

    /** Asks the registered pool `p`; a refusal leaves its continuation pending. */
    method Request(p: nat, room: string, aborted: bool, nested: bool) returns (answer: Answer)
      requires ValidOptions(options) && p < |pools| && |owners| == |pools| && !closed && Current(providers, owners, p)
      requires PoolsInv(PoolLimits(options), pools) && NamesInv(providers, owners, rejections)
      requires FlightInv(providers, owners, pools) && NoLeak(providers, owners, pools, rejections, {p})
      modifies this`pools, this`rejections
      ensures Valid() && ValidMap(old(pools)[p].rooms)
      ensures var c, before := PoolLimits(options), old(pools)[p];
              && pools == old(pools)[p := CapacitySpec.Acquire(c, before, room, aborted, nested)]
              && answer == Answered(Admission(c, before, aborted, nested), p, |before.issued|)
              && rejections == if Admission(c, before, aborted, nested) == Accepted then old(rejections)
                               else old(rejections) + multiset{p}
    {
      hide Inv, QueueFits, CanGrant, CapacitySpec.Acquire, Admission, ValidLimits, PoolLimits;
      EmptyPool(options);
      var before := pools[p];
      AcquireKeeps(PoolLimits(options), before, room, aborted, nested);
      pools := pools[p := CapacitySpec.Acquire(PoolLimits(options), before, room, aborted, nested)];
      var verdict := Admission(PoolLimits(options), before, aborted, nested);
      if verdict != Accepted {
        rejections := rejections + multiset{p};
      }
      answer := Answered(verdict, p, |before.issued|);
    }

    /** Drops the pool if nothing is in it and it is the one registered. */
    method RemoveIdleProvider(provider: string, p: nat)
      requires |owners| == |pools| && p < |pools| && owners[p] == provider && ValidOptions(options)
      requires PoolsInv(PoolLimits(options), pools) && NamesInv(providers, owners, rejections)
      requires NoLeak(providers, owners, pools, rejections, {p})
      requires if closed then providers == map[] else FlightInv(providers, owners, pools)
      modifies this`providers
      ensures Valid()
      ensures providers == if Idle(pools[p]) && Current(old(providers), owners, p)
                           then old(providers) - {provider} else old(providers)
    {
      hide Inv, QueueFits, CanGrant, PoolLimits;
      if pools[p].active == 0 && pools[p].waiting == 0 && provider in providers && providers[provider] == p {
        providers := providers - {provider};
        assert providers.Keys == old(providers.Keys) - {provider};
      }
    }

    /** The lease handed to the caller: release the slot, then drop the pool if nothing is left in it. */
    method Release(provider: string, p: nat, lease: Waiter)
      requires Valid() && p < |pools| && owners[p] == provider
      modifies this`providers, this`pools
      ensures Valid() && ValidMap(old(pools)[p].rooms)
      ensures pools == old(pools)[p := CapacitySpec.Release(PoolLimits(options), old(pools)[p], lease)]
      ensures providers == if Idle(pools[p]) && Current(old(providers), owners, p)
                           then old(providers) - {provider} else old(providers)
    {
      hide Inv, QueueFits, CanGrant, CapacitySpec.Release, ValidLimits, PoolLimits;
      EmptyPool(options);
      ReleaseKeeps(PoolLimits(options), pools[p], lease);
      pools := pools[p := CapacitySpec.Release(PoolLimits(options), pools[p], lease)];
      RemoveIdleProvider(provider, p);
    }

    /** Deadline or abort of a waiter; its continuation is left pending. */
    method Cancel(p: nat, id: nat)
      requires Valid() && p < |pools|
      modifies this`rejections, this`pools
      ensures Valid() && ValidMap(old(pools)[p].rooms)
      ensures pools == old(pools)[p := CapacitySpec.Cancel(PoolLimits(options), old(pools)[p], id)]
      ensures rejections == if IsQueued(old(pools)[p], id) then old(rejections) + multiset{p} else old(rejections)
    {
      hide Inv, QueueFits, CanGrant, CapacitySpec.Cancel, IsQueued, ValidLimits, PoolLimits;
      EmptyPool(options);
      CancelKeeps(PoolLimits(options), pools[p], id);
      ghost var cancelled := CapacitySpec.Cancel(PoolLimits(options), pools[p], id);
      CancelledRegistry(PoolLimits(options), providers, owners, pools, rejections, p, cancelled, IsQueued(pools[p], id));
      hide PoolsInv, NamesInv, NoLeak, FlightInv;
      if IsQueued(pools[p], id) {
        rejections := rejections + multiset{p};
      }
      pools := pools[p := CapacitySpec.Cancel(PoolLimits(options), pools[p], id)];
    }

    /** The continuation of a rejected request. */
    method Reject(provider: string, p: nat)
      requires Valid() && p in rejections && owners[p] == provider
      modifies this`providers, this`rejections
      ensures Valid() && rejections == old(rejections) - multiset{p}
      ensures providers == if Idle(pools[p]) && Current(old(providers), owners, p)
                           then old(providers) - {provider} else old(providers)
    {
      hide Inv, QueueFits, CanGrant;
      rejections := rejections - multiset{p};
      RemoveIdleProvider(provider, p);
    }

    /** Shutdown: every registered pool rejects its waiters, and the registry is emptied. */
    method Close()
      requires Valid()
      modifies this
      ensures Valid() && closed && providers == map[] && owners == old(owners) && |pools| == |old(pools)|
      ensures ShutOutside(old(pools), pools, old(providers), owners, {})
    {
      hide Inv, QueueFits, CanGrant, ValidLimits, PoolLimits, ShutOutside;
      closed := true;
      var open := providers.Keys;
      NoneShut(pools, providers, owners);
      while open != {}
        invariant open <= providers.Keys
        invariant providers == old(providers) && owners == old(owners) && rejections == old(rejections) && closed
        invariant |pools| == |owners| && PoolsInv(PoolLimits(options), pools)
        invariant ShutOutside(old(pools), pools, providers, owners, open)
        decreases open
      {
        var provider :| provider in open;
        ShutOne(old(pools), pools, providers, owners, open, provider);
        ClosePool(providers[provider]);
        open := open - {provider};
      }
      providers := map[];
    }

    method ClosePool(p: nat)
      requires ValidOptions(options) && p < |pools| && PoolsInv(PoolLimits(options), pools)
      modifies this`pools
      ensures pools == old(pools)[p := Shut(old(pools)[p])] && PoolsInv(PoolLimits(options), pools)
    {
      hide Inv, QueueFits, CanGrant, Shut, ValidLimits, PoolLimits;
      EmptyPool(options);
      ShutRested(PoolLimits(options), pools[p]);
      pools := pools[p := Shut(pools[p])];
    }

    /** However often pools for a provider were dropped and created: its leases and waiters are all in
        the registered pool, so its leases stay within its turns, and no more than 64 pools are kept. */
    lemma OneLivePool(provider: string)
      requires Valid() && !closed
      ensures forall p :: 0 <= p < |pools| && owners[p] == provider && (pools[p].held != {} || pools[p].waiting != 0) ==>
                provider in providers && providers[provider] == p
      ensures |LeasesOf(pools, owners, provider)| <= options.providerTurns
      ensures |providers.Keys| <= MAX_PROVIDERS
    {
      LeasesInOne(PoolLimits(options), providers, owners, pools, provider);
    }

    /** Over all pools a provider ever had, ordinary work holds no more than its share. */
    lemma OrdinaryWithinShare(provider: string)
      requires Valid() && !closed
      ensures |OrdinaryLeasesOf(pools, owners, provider)| <= OrdinaryShare(options)
    {
      OrdinaryInOne(PoolLimits(options), providers, owners, pools, provider);
    }

    /** Which answer the pool gives, from the options alone. */
    lemma ArrivalExactly(p: nat, aborted: bool, nested: bool)
      requires Valid() && p < |pools|
      ensures var full := |PendingIds(pools[p])| >= if nested then options.maxWaiting else OrdinaryWaiting(options);
              Admission(PoolLimits(options), pools[p], aborted, nested)
              == if pools[p].closed then PoolClosed else if aborted then Aborted else if full then QueueFull else Accepted
    {
      hide Inv, CanGrant;
    }

    /**
     * In an open registry, ordinary work that waits beside a free slot finds its share or its room used up; and
     * nested work that waits finds nested work running, as long as providers have two turns and two per room.
     */
    lemma WaitsOnlyWhenFull(p: nat, w: Waiter)
      requires Valid() && p < |pools| && !pools[p].closed && Pending(pools[p], w)
      ensures |pools[p].held| < options.providerTurns && !w.reserved ==>
                || |General(pools[p].held)| == OrdinaryShare(options)
                || |InRoom(pools[p].held, w.room)| == options.providerTurnsPerRoom
                || |InRoom(General(pools[p].held), w.room)| == OrdinaryRoomShare(options)
      ensures w.reserved && options.providerTurns >= 2 && options.providerTurnsPerRoom >= 2 ==>
                && Reserved(pools[p].held) != {}
                && if |InRoom(pools[p].held, w.room)| >= options.providerTurnsPerRoom
                   then exists l :: l in InRoom(pools[p].held, w.room) && l.reserved
                   else |Reserved(pools[p].held)| >= if options.providerTurns == 2 then 1 else 2
    {
      hide Inv, QueueFits, CanGrant;
      PoolWaits(options, pools[p], w);
    }
  }

  // ----- What is kept for nested work -----

  /** The turns of a provider that ordinary work can have at a time: all but two, and always one. */
  function OrdinaryShare(o: Options): int {
    if o.providerTurns >= 3 then o.providerTurns - 2 else 1
  }

  /** And those of one room: all but one, if the provider has more than one turn and the room more than one place. */
  function OrdinaryRoomShare(o: Options): int {
    if o.providerTurns == 1 || o.providerTurnsPerRoom == 1 then o.providerTurnsPerRoom else o.providerTurnsPerRoom - 1
  }

  lemma PoolWaits(o: Options, s: Pool, w: Waiter)
    requires ValidOptions(o) && Inv(PoolLimits(o), s) && !CanGrant(PoolLimits(o), s) && !s.closed && Pending(s, w)
    ensures |s.held| < o.providerTurns && !w.reserved ==>
              || |General(s.held)| == OrdinaryShare(o)
              || |InRoom(s.held, w.room)| == o.providerTurnsPerRoom
              || |InRoom(General(s.held), w.room)| == OrdinaryRoomShare(o)
    ensures w.reserved && o.providerTurns >= 2 && o.providerTurnsPerRoom >= 2 ==>
              && Reserved(s.held) != {}
              && if |InRoom(s.held, w.room)| >= o.providerTurnsPerRoom
                 then exists l :: l in InRoom(s.held, w.room) && l.reserved
                 else |Reserved(s.held)| >= if o.providerTurns == 2 then 1 else 2
  {
    hide Inv, QueueFits, CanGrant;
    RestMeans(PoolLimits(o), s, w);
    if w.reserved && o.providerTurns >= 2 && o.providerTurnsPerRoom >= 2 {
      NestedRests(PoolLimits(o), s);
      PendingWaits(PoolLimits(o), s, w.id);
    }
  }

  /** The waiting places that ordinary work can have: all but as many as turns are kept, and always one. */
  function OrdinaryWaiting(o: Options): int {
    var kept := o.providerTurns - OrdinaryShare(o);
    if o.maxWaiting > kept then o.maxWaiting - kept else 1
  }

  /** Nested work of a provider is safe from its parents exactly when there are two turns, and two in a room. */
  lemma ProviderNeverStarvesExactly(o: Options)
    requires ValidOptions(o)
    ensures (forall ops :: NestedNeverStarves(PoolLimits(o), CapacitySpec.Run(PoolLimits(o), ops)))
       <==> o.providerTurns >= 2 && o.providerTurnsPerRoom >= 2
  {
    hide NestedNeverStarves, CapacitySpec.Run;
    NestedNeverStarvesExactly(PoolLimits(o));
  }

  ghost function OrdinaryLeasesOf(pools: seq<Pool>, owners: seq<string>, provider: string): set<(int, Waiter)>
    requires |owners| == |pools|
  {
    set p, w | 0 <= p < |pools| && owners[p] == provider && w in General(pools[p].held) :: (p, w)
  }

  lemma OrdinaryInOne(c: Limits, providers: map<string, nat>, owners: seq<string>, pools: seq<Pool>, provider: string)
    requires ValidLimits(c) && PoolsInv(c, pools) && FlightInv(providers, owners, pools)
    ensures |OrdinaryLeasesOf(pools, owners, provider)| <= c.limit - c.reserved
  {
    LeasesInOne(c, providers, owners, pools, provider);
    hide Inv, FlightInv, ValidLimits;
    if p :| 0 <= p < |pools| && owners[p] == provider && pools[p].held != {} {
      OrdinaryCount(c, pools[p]);
      PairsCount(p, General(pools[p].held));
      assert OrdinaryLeasesOf(pools, owners, provider) == Pairs(p, General(pools[p].held));
    } else {
      assert OrdinaryLeasesOf(pools, owners, provider) == {};
    }
  }

  lemma OrdinaryCount(c: Limits, s: Pool)
    requires Inv(c, s)
    ensures |General(s.held)| <= c.limit - c.reserved
  {
    hide QueuesInv, PromisesInv;
  }

  // ----- Shutting down -----

  /** Exactly the registered pools of providers outside `open` have been shut. */
  ghost predicate ShutOutside(before: seq<Pool>, pools: seq<Pool>, providers: map<string, nat>, owners: seq<string>,
                              open: set<string>)
  {
    && |before| == |pools| == |owners|
    && forall p :: 0 <= p < |pools| ==>
         pools[p] == if Current(providers, owners, p) && owners[p] !in open then Shut(before[p]) else before[p]
  }

  lemma NoneShut(pools: seq<Pool>, providers: map<string, nat>, owners: seq<string>)
    requires |pools| == |owners|
    ensures ShutOutside(pools, pools, providers, owners, providers.Keys)
  {
    hide Shut;
  }

  lemma ShutOne(before: seq<Pool>, pools: seq<Pool>, providers: map<string, nat>, owners: seq<string>,
                open: set<string>, provider: string)
    requires ShutOutside(before, pools, providers, owners, open) && provider in open && provider in providers
    requires forall k :: k in providers ==> providers[k] < |owners| && owners[providers[k]] == k
    ensures var p := providers[provider];
            ShutOutside(before, pools[p := Shut(pools[p])], providers, owners, open - {provider})
  {
    hide Shut;
  }

  // ----- Leases of a provider across all its pools -----

  ghost function LeasesOf(pools: seq<Pool>, owners: seq<string>, provider: string): set<(int, Waiter)>
    requires |owners| == |pools|
  {
    set p, w | 0 <= p < |pools| && owners[p] == provider && w in pools[p].held :: (p, w)
  }

  lemma LeasesInOne(c: Limits, providers: map<string, nat>, owners: seq<string>, pools: seq<Pool>, provider: string)
    requires ValidLimits(c) && PoolsInv(c, pools) && FlightInv(providers, owners, pools)
    ensures |LeasesOf(pools, owners, provider)| <= c.limit
    ensures forall p :: 0 <= p < |pools| && owners[p] == provider && (pools[p].held != {} || pools[p].waiting != 0) ==>
              provider in providers && providers[provider] == p
  {
    hide Inv;
    forall p | 0 <= p < |pools| ensures |pools[p].held| == pools[p].active <= c.limit {
      HeldCount(c, pools[p]);
    }
    if p :| 0 <= p < |pools| && owners[p] == provider && pools[p].held != {} {
      PairsCount(p, pools[p].held);
      assert LeasesOf(pools, owners, provider) == Pairs(p, pools[p].held);
    } else {
      assert LeasesOf(pools, owners, provider) == {};
    }
  }

  lemma InvIsValid(c: Limits, s: Pool)
    requires Inv(c, s)
    ensures ValidMap(s.rooms)
  {
  }

  lemma HeldCount(c: Limits, s: Pool)
    requires Inv(c, s)
    ensures |s.held| == s.active <= c.limit
  {
  }

  ghost function Pairs(a: int, ws: set<Waiter>): set<(int, Waiter)> {
    set w | w in ws :: (a, w)
  }

  lemma {:induction false} PairsCount(a: int, ws: set<Waiter>)
    ensures |Pairs(a, ws)| == |ws|
  {
    if w :| w in ws {
      PairsCount(a, ws - {w});
      assert Pairs(a, ws) == Pairs(a, ws - {w}) + {(a, w)};
    }
  }

  // ----- One pool's part in each operation -----

  lemma EmptyPool(o: Options)
    requires ValidOptions(o)
    ensures ValidLimits(PoolLimits(o)) && Inv(PoolLimits(o), Empty()) && !CanGrant(PoolLimits(o), Empty())
    ensures QueueFits(PoolLimits(o), Empty())
  {
    RunInv(PoolLimits(o), []);
    NoneFits(PoolLimits(o));
  }

  lemma AcquireKeeps(c: Limits, s: Pool, room: string, aborted: bool, reserved: bool)
    requires ValidLimits(c) && Inv(c, s) && !CanGrant(c, s) && QueueFits(c, s)
    ensures ValidMap(s.rooms)
    ensures var s' := CapacitySpec.Acquire(c, s, room, aborted, reserved);
            && Inv(c, s') && !CanGrant(c, s') && QueueFits(c, s')
            && if Admission(c, s, aborted, reserved) == Accepted then !Idle(s') else s' == s
  {
    hide QueueFits;
    ApplyKeeps(c, s, OpAcquire(room, aborted, reserved));
    ApplyFits(c, s, OpAcquire(room, aborted, reserved));
    if Admission(c, s, aborted, reserved) == Accepted {
      AcquiredBusy(c, s, room, reserved);
    }
  }

  lemma ReleaseKeeps(c: Limits, s: Pool, lease: Waiter)
    requires ValidLimits(c) && Inv(c, s) && !CanGrant(c, s) && QueueFits(c, s)
    ensures ValidMap(s.rooms)
    ensures var s' := CapacitySpec.Release(c, s, lease);
            Inv(c, s') && !CanGrant(c, s') && QueueFits(c, s') && (Idle(s) ==> s' == s)
  {
    hide Inv, CanGrant, ValidLimits, QueueFits;
    InvIsValid(c, s);
    ApplyFits(c, s, OpRelease(lease));
    ApplyKeeps(c, s, OpRelease(lease));
    if Idle(s) {
      HeldCount(c, s);
    }
  }

  lemma CancelKeeps(c: Limits, s: Pool, id: nat)
    requires ValidLimits(c) && Inv(c, s) && !CanGrant(c, s) && QueueFits(c, s)
    ensures ValidMap(s.rooms)
    ensures var s' := CapacitySpec.Cancel(c, s, id);
            && Inv(c, s') && !CanGrant(c, s') && QueueFits(c, s')
            && if IsQueued(s, id) then !Idle(s) else s' == s
  {
    hide Inv, CanGrant, ValidLimits, QueueFits;
    InvIsValid(c, s);
    ApplyFits(c, s, OpCancel(id));
    ApplyKeeps(c, s, OpCancel(id));
    if IsQueued(s, id) {
      QueuedIsBusy(c, s, id);
    }
  }

  /** A pool that lost a waiter was busy, and its rejected request is on record; any other is unchanged. */
  lemma CancelledRegistry(c: Limits, providers: map<string, nat>, owners: seq<string>, pools: seq<Pool>,
                          rejections: multiset<nat>, p: nat, s': Pool, queued: bool)
    requires PoolsInv(c, pools) && NamesInv(providers, owners, rejections) && p < |pools|
    requires NoLeak(providers, owners, pools, rejections, {}) && Inv(c, s') && !CanGrant(c, s')
    requires QueueFits(c, s')
    requires if queued then !Idle(pools[p]) else s' == pools[p]
    ensures var pools', rejections' := pools[p := s'], if queued then rejections + multiset{p} else rejections;
            && PoolsInv(c, pools') && NamesInv(providers, owners, rejections')
            && NoLeak(providers, owners, pools', rejections', {})
            && (FlightInv(providers, owners, pools) ==> FlightInv(providers, owners, pools'))
  {
    hide Inv, QueueFits, CanGrant;
  }

  lemma ShutRested(c: Limits, s: Pool)
    requires ValidLimits(c) && Inv(c, s)
    ensures Inv(c, Shut(s)) && !CanGrant(c, Shut(s)) && QueueFits(c, Shut(s))
  {
    ShutKeeps(c, s);
    ShutFits(c, s);
    hide QueueFits;
  }
}
