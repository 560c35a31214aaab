/**
 Delegated vesting shares and powering down. An account cannot promise the same share twice:
 what it has delegated, what is on its way back to it, and what it is still powering down
 never exceed its vesting shares.
 */
module Delegation {
  import opened Common
  import opened Sums

  const WITHDRAW_INTERVALS: int := 13

  /** The account fields that powering down and delegating work on; `active` until the power-down ends. */
  datatype Holder = Holder(vests: int, delegated: int, received: int, rate: int, active: bool, toWithdraw: int,
                           withdrawn: int)

  type Holders = map<Name, Holder>
  type Live = map<(Name, Name), int>

  datatype Returning = Returning(delegator: Name, shares: int, expires: nat)

  function Min(a: int, b: int): int
  {
    if a <= b then a else b
  }

  // ----- powering down -----

  function Remaining(h: Holder): int
  {
    if h.active then h.toWithdraw - h.withdrawn else 0
  }

  ghost predicate HolderOk(h: Holder)
  {
    && h.vests >= 0 && h.delegated >= 0 && h.received >= 0
    && h.delegated + Remaining(h) <= h.vests
    && (h.active ==> h.rate >= 1 && 0 <= h.withdrawn < h.toWithdraw && h.withdrawn % h.rate == 0)
  }

  function WithdrawRate(total: int): int
  {
    if total / WITHDRAW_INTERVALS == 0 then 1 else total / WITHDRAW_INTERVALS
  }

  /** `withdraw_vesting` for a positive amount. */
  function Started(h: Holder, total: int): Holder
  {
    h.(rate := WithdrawRate(total), active := true, toWithdraw := total, withdrawn := 0)
  }

  function Stopped(h: Holder): Holder
  {
    h.(rate := 0, active := false, toWithdraw := 0, withdrawn := 0)
  }

  /** What the next interval withdraws. */
  function Due(h: Holder): int
    requires h.rate >= 1
  {
    if h.toWithdraw - h.withdrawn < h.rate then Min(h.vests, h.toWithdraw % h.rate) else Min(h.vests, h.rate)
  }

  function AfterInterval(h: Holder): Holder
    requires h.rate >= 1
  {
    var x := Due(h);
    var g := h.(vests := h.vests - x, withdrawn := h.withdrawn + x);
    if g.withdrawn >= g.toWithdraw || g.vests == 0 then g.(rate := 0, active := false) else g
  }

  lemma ModOfRest(total: int, done: int, rate: int)
    requires rate >= 1 && done % rate == 0 && 0 <= total - done < rate
    ensures total % rate == total - done
  {
    var k := done / rate;
    assert done == k * rate;
    assert total == k * rate + (total - done);
    ModUnique(total, k, total - done, rate);
  }

  lemma ModUnique(n: int, k: int, r: int, d: int)
    requires d >= 1 && 0 <= r < d && n == k * d + r
    ensures n % d == r
  {
    var q, m := n / d, n % d;
    assert n == q * d + m;
    assert (q - k) * d == r - m;
    assert (k - q) * d == -((q - k) * d);
    Times(q - k, d);
    Times(k - q, d);
  }

  lemma Times(k: int, d: int)
    requires d >= 0
    ensures k >= 1 ==> k * d >= d
  {
  }

  /** An interval withdraws what it promises, and never more than is left to withdraw. */
  lemma IntervalExact(h: Holder)
    requires HolderOk(h) && h.active
    ensures Due(h) == Min(h.rate, Remaining(h)) && 1 <= Due(h)
    ensures HolderOk(AfterInterval(h))
    ensures AfterInterval(h).active <==> Remaining(h) > h.rate
    ensures Remaining(AfterInterval(h)) == Remaining(h) - Due(h)
    ensures AfterInterval(h).vests == h.vests - Due(h)
    ensures var g := AfterInterval(h);
            && g.withdrawn == h.withdrawn + Due(h) && g.rate == (if g.active then h.rate else 0)
            && g.delegated == h.delegated && g.received == h.received && g.toWithdraw == h.toWithdraw
  {
    var left := h.toWithdraw - h.withdrawn;
    if left < h.rate {
      ModOfRest(h.toWithdraw, h.withdrawn, h.rate);
    } else {
      NextMultiple(h.withdrawn, h.rate);
    }
  }

  lemma NextMultiple(n: int, d: int)
    requires d >= 1 && n % d == 0
    ensures (n + d) % d == 0
  {
    var k := n / d;
    assert n == k * d;
    assert n + d == (k + 1) * d + 0;
    ModUnique(n + d, k + 1, 0, d);
  }

  /** The amounts of an uninterrupted power-down, interval by interval. */
  ghost function Payments(h: Holder): (r: seq<int>)
    requires HolderOk(h)
    decreases Remaining(h)
  {
    if !h.active then []
    else
      IntervalExact(h);
      [Due(h)] + Payments(AfterInterval(h))
  }

  function Total(s: seq<int>): int
  {
    if s == [] then 0 else s[0] + Total(s[1..])
  }

  /** They add up to exactly what is left, the full rate each time but the last. */
  lemma {:induction false} PaysExactly(h: Holder)
    requires HolderOk(h)
    ensures Total(Payments(h)) == Remaining(h)
    ensures h.active ==> |Payments(h)| >= 1 && (|Payments(h)| - 1) * h.rate < Remaining(h) <= |Payments(h)| * h.rate
    ensures forall i :: 0 <= i < |Payments(h)| - 1 ==> Payments(h)[i] == h.rate
    ensures h.active ==> var n := |Payments(h)|; Payments(h)[n - 1] == Remaining(h) - (n - 1) * h.rate
    decreases Remaining(h)
  {
    if h.active {
      IntervalExact(h);
      var next := AfterInterval(h);
      PaysExactly(next);
      assert Payments(h)[1..] == Payments(next);
      if next.active { Longer(|Payments(next)|, h.rate); }
    }
  }

  lemma Longer(n: int, d: int)
    ensures (n + 1) * d == n * d + d && n * d == (n - 1) * d + d
  {
  }

  /**
   A power-down that starts pays exactly the total: one share an interval if there are fewer than 13 shares, and
   otherwise a thirteenth of the total rounded down, which takes 13 to 25 intervals; the last one pays the rest.
   */
  lemma PowerDownPays(h: Holder, total: int)
    requires HolderOk(h) && 1 <= total <= h.vests - h.delegated
    ensures HolderOk(Started(h, total))
    ensures Total(Payments(Started(h, total))) == total
    ensures |Payments(Started(h, total))| <= 25
    ensures var payments, rate := Payments(Started(h, total)), Started(h, total).rate;
            && (if total < WITHDRAW_INTERVALS then rate == 1 && |payments| == total
                else && WITHDRAW_INTERVALS * rate <= total < WITHDRAW_INTERVALS * (rate + 1)
                     && WITHDRAW_INTERVALS <= |payments|)
            && (forall i :: 0 <= i < |payments| - 1 ==> payments[i] == rate)
            && payments[|payments| - 1] == total - (|payments| - 1) * rate > 0
    ensures forall i :: 0 <= i < |Payments(Started(h, total))| ==> Payments(Started(h, total))[i] > 0
  {
    var s := Started(h, total);
    PaysExactly(s);
    var n := |Payments(s)|;
    if n > 25 { Scaled(25, n - 1, s.rate); }
    if n < WITHDRAW_INTERVALS { Scaled(n, WITHDRAW_INTERVALS - 1, s.rate); }
  }

  lemma Scaled(a: int, b: int, d: int)
    requires a <= b && d >= 0
    ensures a * d <= b * d
  {
  }

  // ----- delegations -----

  function FromTerm(live: Live, n: Name, k: (Name, Name)): int
  {
    if k in live && k.0 == n then live[k] else 0
  }

  function ToTerm(live: Live, n: Name, k: (Name, Name)): int
  {
    if k in live && k.1 == n then live[k] else 0
  }

  function BackTerm(returning: map<nat, Returning>, n: Name, id: nat): int
  {
    if id in returning && returning[id].delegator == n then returning[id].shares else 0
  }

  ghost function DelegatedBy(live: Live, n: Name): int
  {
    Sum(live.Keys, k => FromTerm(live, n, k))
  }

  ghost function DelegatedTo(live: Live, n: Name): int
  {
    Sum(live.Keys, k => ToTerm(live, n, k))
  }

  ghost function ComingBack(returning: map<nat, Returning>, n: Name): int
  {
    Sum(returning.Keys, id => BackTerm(returning, n, id))
  }

  lemma LiveSet(live: Live, k: (Name, Name), v: int, n: Name)
    ensures DelegatedBy(live[k := v], n) == DelegatedBy(live, n) + (if k.0 == n then v else 0) - FromTerm(live, n, k)
    ensures DelegatedTo(live[k := v], n) == DelegatedTo(live, n) + (if k.1 == n then v else 0) - ToTerm(live, n, k)
  {
    var after := live[k := v];
    if k in live {
      assert after.Keys == live.Keys;
      SumUpdate(live.Keys, k, x => FromTerm(live, n, x), x => FromTerm(after, n, x));
      SumUpdate(live.Keys, k, x => ToTerm(live, n, x), x => ToTerm(after, n, x));
    } else {
      assert after.Keys == live.Keys + {k};
      SumInsert(live.Keys, k, x => FromTerm(after, n, x));
      SumInsert(live.Keys, k, x => ToTerm(after, n, x));
      SumExt(live.Keys, x => FromTerm(live, n, x), x => FromTerm(after, n, x));
      SumExt(live.Keys, x => ToTerm(live, n, x), x => ToTerm(after, n, x));
    }
  }

  lemma LiveDrop(live: Live, k: (Name, Name), n: Name)
    requires k in live
    ensures DelegatedBy(live - {k}, n) == DelegatedBy(live, n) - FromTerm(live, n, k)
    ensures DelegatedTo(live - {k}, n) == DelegatedTo(live, n) - ToTerm(live, n, k)
  {
    var after := live - {k};
    assert after.Keys == live.Keys - {k};
    SumRemove(live.Keys, k, x => FromTerm(live, n, x));
    SumRemove(live.Keys, k, x => ToTerm(live, n, x));
    SumExt(after.Keys, x => FromTerm(live, n, x), x => FromTerm(after, n, x));
    SumExt(after.Keys, x => ToTerm(live, n, x), x => ToTerm(after, n, x));
  }

  lemma BackAdd(returning: map<nat, Returning>, id: nat, r: Returning, n: Name)
    requires id !in returning
    ensures ComingBack(returning[id := r], n) == ComingBack(returning, n) + if r.delegator == n then r.shares else 0
  {
    var after := returning[id := r];
    assert after.Keys == returning.Keys + {id};
    SumInsert(returning.Keys, id, x => BackTerm(after, n, x));
    SumExt(returning.Keys, x => BackTerm(returning, n, x), x => BackTerm(after, n, x));
  }

  lemma BackDrop(returning: map<nat, Returning>, id: nat, n: Name)
    requires id in returning
    ensures ComingBack(returning - {id}, n) == ComingBack(returning, n) - BackTerm(returning, n, id)
  {
    var after := returning - {id};
    assert after.Keys == returning.Keys - {id};
    SumRemove(returning.Keys, id, x => BackTerm(returning, n, x));
    SumExt(after.Keys, x => BackTerm(returning, n, x), x => BackTerm(after, n, x));
  }

  function ExpiredTerm(returning: map<nat, Returning>, now: nat, n: Name, id: nat): int
  {
    if id in returning && returning[id].expires < now then BackTerm(returning, n, id) else 0
  }

  /** The shares that come back to an account now. */
  ghost function ExpiredOf(returning: map<nat, Returning>, now: nat, n: Name): int
  {
    Sum(returning.Keys, id => ExpiredTerm(returning, now, n, id))
  }

  lemma ExpiredDrop(returning: map<nat, Returning>, now: nat, id: nat, n: Name)
    requires id in returning
    ensures ExpiredOf(returning, now, n) == ExpiredOf(returning - {id}, now, n) + ExpiredTerm(returning, now, n, id)
  {
    var after := returning - {id};
    assert after.Keys == returning.Keys - {id};
    SumRemove(returning.Keys, id, x => ExpiredTerm(returning, now, n, x));
    SumExt(after.Keys, x => ExpiredTerm(returning, now, n, x), x => ExpiredTerm(after, now, n, x));
  }

  lemma NoneExpired(returning: map<nat, Returning>, now: nat, n: Name)
    requires forall id :: id in returning ==> returning[id].expires >= now
    ensures ExpiredOf(returning, now, n) == 0
  {
    SumZero(returning.Keys, x => ExpiredTerm(returning, now, n, x));
  }

  /** The totals of each account agree with the delegation objects. */
  ghost predicate Agree(holders: Holders, live: Live, returning: map<nat, Returning>)
  {
    forall n :: n in holders ==>
                  && holders[n].delegated == DelegatedBy(live, n) + ComingBack(returning, n)
                  && holders[n].received == DelegatedTo(live, n)
  }

  ghost predicate Sound(holders: Holders, live: Live, returning: map<nat, Returning>, nextId: nat)
  {
    && (forall n :: n in holders ==> HolderOk(holders[n]))
    && (forall k :: k in live ==> k.0 in holders && k.1 in holders && k.0 != k.1 && live[k] >= 0)
    && (forall id :: id in returning ==> id < nextId && returning[id].delegator in holders && returning[id].shares >= 0)
  }

  lemma SoundAt(holders: Holders, live: Live, returning: map<nat, Returning>, nextId: nat, k: (Name, Name))
    requires Sound(holders, live, returning, nextId) && k.0 in holders
    ensures HolderOk(holders[k.0]) && (k in live ==> live[k] >= 0)
  {
  }

  lemma SoundBack(holders: Holders, live: Live, returning: map<nat, Returning>, nextId: nat, id: nat)
    requires Sound(holders, live, returning, nextId) && id in returning
    ensures returning[id].delegator in holders
  {
  }

  /** What an account may still delegate, given its voting mana. */
  function Available(h: Holder, mana: int): int
  {
    var next := if h.active then Min(h.rate, h.toWithdraw - h.withdrawn) else 0;
    var effective := h.vests + h.received - h.delegated - next;
    var usable := Min(mana, effective - h.received);
    if h.active && h.toWithdraw - h.withdrawn > h.rate
    then usable + Min(h.rate, h.toWithdraw - h.withdrawn) - (h.toWithdraw - h.withdrawn)
    else usable
  }

  /**
   What may be delegated is the lesser of the shares that are free and of the mana; the mana, which the week's
   withdrawal has already been taken off, without what later intervals withdraw.
   */
  lemma AvailableIsFree(h: Holder, mana: int)
    requires HolderOk(h)
    ensures Available(h, mana) <= h.vests - h.delegated - Remaining(h)
    ensures mana >= h.vests + h.received ==> Available(h, mana) == h.vests - h.delegated - Remaining(h)
    ensures var later := if h.active && Remaining(h) > h.rate then Remaining(h) - h.rate else 0;
            && Available(h, mana) <= mana - later
            && (Available(h, mana) == mana - later || Available(h, mana) == h.vests - h.delegated - Remaining(h))
  {
  }

  // ----- changes of one delegation -----

  function Lend(holders: Holders, from: Name, to: Name, delta: int): (r: Holders)
    requires from in holders && to in holders
  {
    var lent := holders[from := holders[from].(delegated := holders[from].delegated + delta)];
    lent[to := lent[to].(received := lent[to].received + delta)]
  }

  /** A new or a larger delegation. */
  lemma Raised(holders: Holders, live: Live, returning: map<nat, Returning>, nextId: nat, k: (Name, Name), delta: int)
    requires Sound(holders, live, returning, nextId) && Agree(holders, live, returning)
    requires k.0 in holders && k.1 in holders && k.0 != k.1
    requires 0 <= delta <= holders[k.0].vests - holders[k.0].delegated - Remaining(holders[k.0])
    ensures var live' := live[k := FromTerm(live, k.0, k) + delta];
            var holders' := Lend(holders, k.0, k.1, delta);
            Sound(holders', live', returning, nextId) && Agree(holders', live', returning)
  {
    hide DelegatedBy, DelegatedTo, ComingBack;
    forall n { LiveSet(live, k, FromTerm(live, k.0, k) + delta, n); }
  }

  function Recall(holders: Holders, to: Name, delta: int): Holders
    requires to in holders
  {
    holders[to := holders[to].(received := holders[to].received - delta)]
  }

  function Reduced(live: Live, k: (Name, Name), shares: int): Live
  {
    if shares > 0 then live[k := shares] else live - {k}
  }

  /**
   The delegation is of `shares` and all others are as they were. Its receiver has what it grew by, or no longer has
   what it shrank by; its giver has delegated more if it grew, and gets back later what it shrank by.
   */
  ghost predicate Delegates(holders: Holders, live: Live, holders': Holders, live': Live, from: Name, to: Name,
                            shares: int)
  {
    var delta := shares - FromTerm(live, from, (from, to));
    && holders'.Keys == holders.Keys && FromTerm(live', from, (from, to)) == shares
    && (forall k :: k != (from, to) ==> (k in live' <==> k in live) && (k in live' ==> live'[k] == live[k]))
    && forall n :: n in holders ==>
         var h := holders[n];
         holders'[n] == h.(delegated := h.delegated + (if n == from && delta > 0 then delta else 0),
                           received := h.received + if n == to then delta else 0)
  }

  lemma LendDelegates(holders: Holders, live: Live, from: Name, to: Name, shares: int)
    requires from in holders && to in holders && from != to && shares >= FromTerm(live, from, (from, to))
    ensures var delta := shares - FromTerm(live, from, (from, to));
            Delegates(holders, live, Lend(holders, from, to, delta), live[(from, to) := shares], from, to, shares)
  {
  }

  lemma RecallDelegates(holders: Holders, live: Live, from: Name, to: Name, shares: int)
    requires to in holders && (from, to) in live && 0 <= shares < live[(from, to)]
    ensures var delta := live[(from, to)] - shares;
            Delegates(holders, live, Recall(holders, to, delta), Reduced(live, (from, to), shares), from, to, shares)
  {
  }

  lemma {:induction false} ToAtLeast(live: Live, k: (Name, Name))
    requires k in live && forall x :: x in live ==> live[x] >= 0
    ensures live[k] <= DelegatedTo(live, k.1)
  {
    SumAtLeast(live.Keys, k, x => ToTerm(live, k.1, x));
  }

  lemma {:induction false} BackAtLeast(returning: map<nat, Returning>, live: Live, id: nat)
    requires id in returning && forall x :: x in returning ==> returning[x].shares >= 0
    requires forall x :: x in live ==> live[x] >= 0
    ensures var n := returning[id].delegator; returning[id].shares <= DelegatedBy(live, n) + ComingBack(returning, n)
  {
    var n := returning[id].delegator;
    SumAtLeast(returning.Keys, id, x => BackTerm(returning, n, x));
    SumMonotone({}, live.Keys, x => 0, x => FromTerm(live, n, x));
  }

  /** A smaller delegation: the difference is on its way back. */
  lemma Lowered(holders: Holders, live: Live, returning: map<nat, Returning>, nextId: nat, k: (Name, Name), shares: int,
                expires: nat)
    requires Sound(holders, live, returning, nextId) && Agree(holders, live, returning)
    requires k in live && 0 <= shares <= live[k]
    ensures var live' := Reduced(live, k, shares);
            var holders' := Recall(holders, k.1, live[k] - shares);
            var returning' := returning[nextId := Returning(k.0, live[k] - shares, expires)];
            Sound(holders', live', returning', nextId + 1) && Agree(holders', live', returning')
  {
    hide DelegatedBy, DelegatedTo, ComingBack;
    ToAtLeast(live, k);
    var r := Returning(k.0, live[k] - shares, expires);
    var live' := Reduced(live, k, shares);
    var holders' := Recall(holders, k.1, live[k] - shares);
    var returning' := returning[nextId := r];
    forall n | n in holders'
      ensures holders'[n].delegated == DelegatedBy(live', n) + ComingBack(returning', n)
      ensures holders'[n].received == DelegatedTo(live', n)
    {
      if shares > 0 { LiveSet(live, k, shares, n); } else { LiveDrop(live, k, n); }
      BackAdd(returning, nextId, r, n);
    }
  }

  function Restored(holders: Holders, n: Name, shares: int): Holders
    requires n in holders
  {
    holders[n := holders[n].(delegated := holders[n].delegated - shares)]
  }

  lemma Returned(holders: Holders, live: Live, returning: map<nat, Returning>, nextId: nat, id: nat)
    requires Sound(holders, live, returning, nextId) && Agree(holders, live, returning)
    requires id in returning
    ensures var holders' := Restored(holders, returning[id].delegator, returning[id].shares);
            Sound(holders', live, returning - {id}, nextId) && Agree(holders', live, returning - {id})
  {
    hide DelegatedBy, DelegatedTo, ComingBack;
    BackAtLeast(returning, live, id);
    forall n { BackDrop(returning, id, n); }
  }

  /** An account that keeps its delegation totals. */
  lemma Changed(holders: Holders, live: Live, returning: map<nat, Returning>, nextId: nat, n: Name, h: Holder)
    requires Sound(holders, live, returning, nextId) && Agree(holders, live, returning)
    requires n in holders && HolderOk(h) && h.delegated == holders[n].delegated && h.received == holders[n].received
    ensures Sound(holders[n := h], live, returning, nextId) && Agree(holders[n := h], live, returning)
  {
    hide DelegatedBy, DelegatedTo, ComingBack;
  }

  // ----- withdraw routes -----

  const HUNDRED_PERCENT: int := 10000
  const MAX_ROUTES: int := 10
  const TWO16: int := 0x1_0000

  datatype RouteTo = RouteTo(percent: int, autoVest: bool)

  type Routes = map<(Name, Name), RouteTo>

  function PercentTerm(routes: Routes, from: Name, k: (Name, Name)): int
  {
    if k in routes && k.0 == from then routes[k].percent else 0
  }

  ghost function PercentSum(routes: Routes, from: Name): int
  {
    Sum(routes.Keys, k => PercentTerm(routes, from, k))
  }

  function RoutesOf(routes: Routes, from: Name): (r: set<(Name, Name)>)
  {
    set k | k in routes && k.0 == from
  }

  ghost predicate RoutesOk(routes: Routes)
  {
    && (forall k :: k in routes ==> 0 < routes[k].percent <= HUNDRED_PERCENT)
    && (forall from :: PercentSum(routes, from) <= HUNDRED_PERCENT)
  }

  lemma PercentSet(routes: Routes, k: (Name, Name), r: RouteTo, from: Name)
    ensures PercentSum(routes[k := r], from)
         == PercentSum(routes, from) + (if k.0 == from then r.percent else 0) - PercentTerm(routes, from, k)
  {
    var after := routes[k := r];
    if k in routes {
      assert after.Keys == routes.Keys;
      SumUpdate(routes.Keys, k, x => PercentTerm(routes, from, x), x => PercentTerm(after, from, x));
    } else {
      assert after.Keys == routes.Keys + {k};
      SumInsert(routes.Keys, k, x => PercentTerm(after, from, x));
      SumExt(routes.Keys, x => PercentTerm(routes, from, x), x => PercentTerm(after, from, x));
    }
  }

  lemma PercentDrop(routes: Routes, k: (Name, Name), from: Name)
    requires k in routes
    ensures PercentSum(routes - {k}, from) == PercentSum(routes, from) - PercentTerm(routes, from, k)
  {
    var after := routes - {k};
    assert after.Keys == routes.Keys - {k};
    SumRemove(routes.Keys, k, x => PercentTerm(routes, from, x));
    SumExt(after.Keys, x => PercentTerm(routes, from, x), x => PercentTerm(after, from, x));
  }

  /** The sum over an account's own routes is the sum over all routes. */
  lemma PercentOwn(routes: Routes, from: Name)
    ensures Sum(RoutesOf(routes, from), k => PercentTerm(routes, from, k)) == PercentSum(routes, from)
  {
    var f := k => PercentTerm(routes, from, k);
    SplitSum(routes.Keys, RoutesOf(routes, from), f);
  }

  lemma {:induction false} SplitSum(all: set<(Name, Name)>, own: set<(Name, Name)>, f: ((Name, Name)) -> int)
    requires own <= all && forall k :: k in all && k !in own ==> f(k) == 0
    ensures Sum(own, f) == Sum(all, f)
    decreases all - own
  {
    if all - own != {} {
      var k :| k in all - own;
      SumInsert(own, k, f);
      SplitSum(all, own + {k}, f);
    } else {
      assert own == all;
    }
  }

  lemma Shorter(returning: map<nat, Returning>, id: nat)
    requires id in returning
    ensures |returning - {id}| < |returning|
  {
    assert returning.Keys == (returning - {id}).Keys + {id};
  }

  const NEW_HOLDER: Holder := Holder(0, 0, 0, 0, false, 0, 0)

  /** An account that nobody has delegated to or from. */
  lemma Joined(holders: Holders, live: Live, returning: map<nat, Returning>, nextId: nat, n: Name)
    requires Sound(holders, live, returning, nextId) && Agree(holders, live, returning) && n !in holders
    ensures Sound(holders[n := NEW_HOLDER], live, returning, nextId)
    ensures Agree(holders[n := NEW_HOLDER], live, returning)
  {
    hide DelegatedBy, DelegatedTo, ComingBack;
    assert forall k :: k in live ==> k.0 != n && k.1 != n;
    assert forall id :: id in returning ==> returning[id].delegator != n;
    Untouched(live, returning, n);
  }

  lemma Untouched(live: Live, returning: map<nat, Returning>, n: Name)
    requires forall k :: k in live ==> k.0 != n && k.1 != n
    requires forall id :: id in returning ==> returning[id].delegator != n
    ensures DelegatedBy(live, n) == DelegatedTo(live, n) == ComingBack(returning, n) == 0
  {
    SumZero(live.Keys, k => FromTerm(live, n, k));
    SumZero(live.Keys, k => ToTerm(live, n, k));
    SumZero(returning.Keys, id => BackTerm(returning, n, id));
  }

  /** Every account has got back what has left the table, and what is left is still owed. */
  ghost predicate CreditedBack(before: Holders, holders: Holders, all: map<nat, Returning>, left: map<nat, Returning>,
                               now: nat)
  {
    && holders.Keys == before.Keys
    && forall n :: n in before ==>
         holders[n] == before[n].(delegated := before[n].delegated - ExpiredOf(all, now, n) + ExpiredOf(left, now, n))
  }

  lemma CreditedNone(holders: Holders, all: map<nat, Returning>, now: nat)
    ensures CreditedBack(holders, holders, all, all, now)
  {
  }

  lemma CreditedNext(before: Holders, holders: Holders, all: map<nat, Returning>, left: map<nat, Returning>, now: nat,
                     id: nat)
    requires CreditedBack(before, holders, all, left, now)
    requires id in left && left[id].expires < now && left[id].delegator in holders
    ensures CreditedBack(before, Restored(holders, left[id].delegator, left[id].shares), all, left - {id}, now)
  {
    hide ExpiredOf;
    forall n | n in before { ExpiredDrop(left, now, id, n); }
  }

  lemma CreditedAll(before: Holders, holders: Holders, all: map<nat, Returning>, left: map<nat, Returning>, now: nat)
    requires CreditedBack(before, holders, all, left, now) && forall id :: id in left ==> left[id].expires >= now
    ensures holders.Keys == before.Keys
    ensures forall n :: n in holders ==>
              holders[n] == before[n].(delegated := before[n].delegated - ExpiredOf(all, now, n))
  {
    hide ExpiredOf;
    forall n | n in before { NoneExpired(left, now, n); }
  }

  class Vesting {
    var holders: Holders
    var live: Live
    var returning: map<nat, Returning>
    var nextId: nat
    var routes: Routes

    ghost predicate Valid()
      reads this
    {
      Sound(holders, live, returning, nextId) && Agree(holders, live, returning) && RoutesOk(routes)
    }

    constructor ()
      ensures Valid() && holders == map[]
    {
      holders, live, returning, nextId, routes := map[], map[], map[], 0, map[];
      new;
      forall from ensures PercentSum(routes, from) == 0 { assert routes.Keys == {}; }
    }

    /** A new account holds no shares. */
    method AddAccount(name: Name) returns (ok: bool)
      requires Valid()
      modifies this`holders
      ensures Valid() && (ok <==> name !in old(holders))
      ensures holders == if ok then old(holders)[name := NEW_HOLDER] else old(holders)
    {
      hide Sound, Agree, RoutesOk;
      if name in holders { return false; }
      Joined(holders, live, returning, nextId, name);
      holders := holders[name := NEW_HOLDER];
      return true;
    }

    /** `delegate_vesting_shares`; mana and the two minimums are inputs. */
    method Delegate(from: Name, to: Name, shares: int, mana: int, minDelegation: int, minUpdate: int, expires: nat)
      returns (ok: bool)
      requires Valid()
      modifies this`holders, this`live, this`returning, this`nextId
      ensures Valid()
      ensures !ok ==> holders == old(holders) && live == old(live) && returning == old(returning)
      ensures ok <==> && from in old(holders) && to in old(holders) && from != to && shares >= 0
                      && if (from, to) !in old(live) then minDelegation <= shares <= Available(old(holders)[from], mana)
                         else if shares >= old(live)[(from, to)] then
                           minUpdate <= shares - old(live)[(from, to)] <= Available(old(holders)[from], mana)
                         else shares == 0 || (old(live)[(from, to)] - shares >= minUpdate && shares >= minDelegation)
      ensures ok && ((from, to) !in old(live) || shares >= old(live)[(from, to)]) ==>
                var delta := shares - FromTerm(old(live), from, (from, to));
                && holders == Lend(old(holders), from, to, delta) && live == old(live)[(from, to) := shares]
                && returning == old(returning)
      ensures ok && (from, to) in old(live) && shares < old(live)[(from, to)] ==>
                var delta := old(live)[(from, to)] - shares;
                && holders == Recall(old(holders), to, delta) && live == Reduced(old(live), (from, to), shares)
                && returning == old(returning)[old(nextId) := Returning(from, delta, expires)]
      ensures ok ==> Delegates(old(holders), old(live), holders, live, from, to, shares)
    {
      hide Sound, Agree, RoutesOk, HolderOk, Available, Delegates;
      ghost var before := holders;
      if shares < 0 || from == to || from !in holders || to !in holders { return false; }
      var k := (from, to);
      SoundAt(holders, live, returning, nextId, k);
      var available := Available(holders[from], mana);
      AvailableIsFree(holders[from], mana);
      if k !in live {
        if available < shares || shares < minDelegation { return false; }
        LendDelegates(before, live, from, to, shares);
        Raised(holders, live, returning, nextId, k, shares);
        holders := Lend(holders, from, to, shares);
        live := live[k := shares];
      } else if shares >= live[k] {
        var delta := shares - live[k];
        if delta < minUpdate || available < delta { return false; }
        LendDelegates(before, live, from, to, shares);
        Raised(holders, live, returning, nextId, k, delta);
        holders := Lend(holders, from, to, delta);
        live := live[k := shares];
      } else {
        var delta := live[k] - shares;
        if shares > 0 && (delta < minUpdate || shares < minDelegation) { return false; }
        Lowered(holders, live, returning, nextId, k, shares, expires);
        RecallDelegates(before, live, from, to, shares);
        returning := returning[nextId := Returning(from, delta, expires)];
        nextId := nextId + 1;
        holders := Recall(holders, to, delta);
        live := Reduced(live, k, shares);
      }
      return true;
    }

    /** `clear_expired_delegations` */
    method ClearExpired(now: nat)
      requires Valid()
      modifies this`holders, this`returning
      ensures Valid()
      ensures returning == map id | id in old(returning) && old(returning)[id].expires >= now :: old(returning)[id]
      ensures holders.Keys == old(holders).Keys
      ensures forall n :: n in holders ==>
                var h := old(holders)[n]; holders[n] == h.(delegated := h.delegated - ExpiredOf(old(returning), now, n))
    {
      hide Sound, Agree, RoutesOk, ExpiredOf, CreditedBack, Restored;
      CreditedNone(holders, returning, now);
      while exists id :: id in returning && returning[id].expires < now
        invariant Valid()
        invariant returning.Keys <= old(returning).Keys
        invariant forall id :: id in returning ==> returning[id] == old(returning)[id]
        invariant forall id :: id in old(returning) && old(returning)[id].expires >= now ==> id in returning
        invariant CreditedBack(old(holders), holders, old(returning), returning, now)
        decreases |returning|
      {
        var id :| id in returning && returning[id].expires < now;
        SoundBack(holders, live, returning, nextId, id);
        Returned(holders, live, returning, nextId, id);
        CreditedNext(old(holders), holders, old(returning), returning, now, id);
        Shorter(returning, id);
        holders := Restored(holders, returning[id].delegator, returning[id].shares);
        returning := returning - {id};
      }
      CreditedAll(old(holders), holders, old(returning), returning, now);
    }

    /** `withdraw_vesting` */
    method WithdrawVesting(name: Name, shares: int) returns (ok: bool)
      requires Valid()
      modifies this`holders
      ensures Valid()
      ensures ok <==> && name in old(holders) && 0 <= shares <= old(holders)[name].vests - old(holders)[name].delegated
                      && old(holders)[name].rate != if shares == 0 then 0 else WithdrawRate(shares)
      ensures ok ==> var h := old(holders)[name];
                     holders == old(holders)[name := if shares == 0 then Stopped(h) else Started(h, shares)]
      ensures !ok ==> holders == old(holders)
    {
      hide Agree, RoutesOk;
      if name !in holders || shares < 0 || holders[name].vests - holders[name].delegated < shares { return false; }
      if shares == 0 {
        if holders[name].rate == 0 { return false; }
        Changed(holders, live, returning, nextId, name, Stopped(holders[name]));
        holders := holders[name := Stopped(holders[name])];
      } else {
        var rate := shares / WITHDRAW_INTERVALS;
        if rate == 0 { rate := 1; }
        if holders[name].rate == rate { return false; }
        Changed(holders, live, returning, nextId, name, Started(holders[name], shares));
        holders := holders[name := holders[name].(rate := rate, active := true, toWithdraw := shares, withdrawn := 0)];
      }
      return true;
    }

    /** One account's interval in `process_vesting_withdrawals`. */
    method Interval(name: Name) returns (withdrawn: int)
      requires Valid() && name in holders && holders[name].active
      modifies this`holders
      ensures Valid() && holders == old(holders)[name := AfterInterval(old(holders)[name])]
      ensures withdrawn == Min(old(holders)[name].rate, Remaining(old(holders)[name]))
    {
      hide Agree, RoutesOk;
      var h := holders[name];
      IntervalExact(h);
      Changed(holders, live, returning, nextId, name, AfterInterval(h));
      if h.toWithdraw - h.withdrawn < h.rate {
        withdrawn := Min(h.vests, h.toWithdraw % h.rate);
      } else {
        withdrawn := Min(h.vests, h.rate);
      }
      h := h.(vests := h.vests - withdrawn, withdrawn := h.withdrawn + withdrawn);
      if h.withdrawn >= h.toWithdraw || h.vests == 0 { h := h.(rate := 0, active := false); }
      holders := holders[name := h];
    }

    /** New vesting shares, whatever they come from. */
    method Deposit(name: Name, shares: nat) returns (ok: bool)
      requires Valid()
      modifies this`holders
      ensures Valid() && (ok <==> name in old(holders))
      ensures ok ==> var h := old(holders)[name]; holders == old(holders)[name := h.(vests := h.vests + shares)]
      ensures !ok ==> holders == old(holders)
    {
      hide Agree, RoutesOk;
      if name !in holders { return false; }
      Changed(holders, live, returning, nextId, name, holders[name].(vests := holders[name].vests + shares));
      holders := holders[name := holders[name].(vests := holders[name].vests + shares)];
      return true;
    }

    /** The total of an account's routes, in a 16-bit counter. */
    method TotalPercent(from: Name) returns (total: int)
      requires forall k :: k in routes ==> 0 <= routes[k].percent
      ensures total == PercentSum(routes, from) % TWO16
    {
      total := 0;
      var todo := RoutesOf(routes, from);
      var all := routes;
      ghost var f := k => PercentTerm(all, from, k);
      ghost var sum := 0;
      PercentOwn(routes, from);
      while todo != {}
        invariant todo <= RoutesOf(routes, from) && all == routes
        invariant sum + Sum(todo, f) == Sum(RoutesOf(routes, from), f) && total == sum % TWO16
        decreases todo
      {
        var k :| k in todo;
        SumRemove(todo, k, f);
        sum := sum + routes[k].percent;
        total := (total + routes[k].percent) % TWO16;
        todo := todo - {k};
      }
    }

    /** `set_withdraw_vesting_route` */
    method SetRoute(from: Name, to: Name, percent: int, autoVest: bool) returns (ok: bool)
      requires Valid() && 0 <= percent < TWO16
      modifies this`routes
      ensures Valid()
      ensures ok && percent == 0 ==> routes == old(routes) - {(from, to)}
      ensures ok && percent > 0 ==> routes == old(routes)[(from, to) := RouteTo(percent, autoVest)]
      ensures ok <==> && percent <= HUNDRED_PERCENT && from in holders && to in holders
                      && ((from, to) !in old(routes) ==> percent != 0 && |RoutesOf(old(routes), from)| < MAX_ROUTES)
                      && var others := PercentSum(old(routes), from) - PercentTerm(old(routes), from, (from, to));
                         others + percent <= HUNDRED_PERCENT
      ensures !ok ==> routes == old(routes)
    {
      hide Sound, Agree, PercentSum;
      if percent > HUNDRED_PERCENT || from !in holders || to !in holders { return false; }
      var k, saved := (from, to), routes;
      forall x { PercentSet(routes, k, RouteTo(percent, autoVest), x); }
      if k !in routes {
        if percent == 0 || |RoutesOf(routes, from)| >= MAX_ROUTES { return false; }
        routes := routes[k := RouteTo(percent, autoVest)];
      } else if percent == 0 {
        forall x { PercentDrop(routes, k, x); }
        routes := routes - {k};
      } else {
        routes := routes[k := RouteTo(percent, autoVest)];
      }
      NonNegativeSum(routes, from);
      var total := TotalPercent(from);
      ok := total <= HUNDRED_PERCENT;
      if !ok {
        routes := saved;
        return;
      }
      forall x ensures PercentSum(routes, x) <= HUNDRED_PERCENT { assert PercentSum(saved, x) <= HUNDRED_PERCENT; }
    }
  }

  // ----- whole runs -----

  datatype Operation =
    | AddAccount(name: Name)
    | Deposit(name: Name, shares: nat)
    | Delegate(name: Name, to: Name, amount: int, mana: int, minDelegation: int, minUpdate: int, expires: nat)
    | ClearExpired(now: nat)
    | WithdrawVesting(name: Name, amount: int)
    | Interval(name: Name)
    | SetRoute(name: Name, to: Name, percent: nat, autoVest: bool)

  method Apply(v: Vesting, op: Operation)
    requires v.Valid()
    modifies v
    ensures v.Valid()
  {
    hide Sound, Agree, RoutesOk, ExpiredOf, PercentSum;
    match op
    case AddAccount(name) => var _ := v.AddAccount(name);
    case Deposit(name, shares) => var _ := v.Deposit(name, shares);
    case Delegate(name, to, amount, mana, minDelegation, minUpdate, expires) =>
      var _ := v.Delegate(name, to, amount, mana, minDelegation, minUpdate, expires);
    case ClearExpired(now) => v.ClearExpired(now);
    case WithdrawVesting(name, amount) => var _ := v.WithdrawVesting(name, amount);
    case Interval(name) => if name in v.holders && v.holders[name].active { var _ := v.Interval(name); }
    case SetRoute(name, to, percent, autoVest) =>
      if percent < TWO16 { var _ := v.SetRoute(name, to, percent, autoVest); }
  }

  /**
   After every run from empty tables, no account has promised a share twice, its delegation totals are
   those of the delegation objects, and its routes are at most 100% together.
   */
  method RunFromEmpty(ops: seq<Operation>) returns (v: Vesting)
    ensures fresh(v) && v.Valid()
    ensures forall n :: n in v.holders ==>
              && v.holders[n].delegated == DelegatedBy(v.live, n) + ComingBack(v.returning, n)
              && v.holders[n].received == DelegatedTo(v.live, n)
              && 0 <= v.holders[n].delegated && v.holders[n].delegated + Remaining(v.holders[n]) <= v.holders[n].vests
              && PercentSum(v.routes, n) <= HUNDRED_PERCENT
  {
    hide DelegatedBy, DelegatedTo, ComingBack, PercentSum;
    v := new Vesting();
    for i := 0 to |ops|
      invariant fresh(v) && v.Valid()
    {
      Apply(v, ops[i]);
    }
  }

  lemma NonNegativeSum(routes: Routes, from: Name)
    requires forall k :: k in routes ==> 0 <= routes[k].percent
    ensures PercentSum(routes, from) >= 0
  {
    SumMonotone({}, routes.Keys, k => 0, k => PercentTerm(routes, from, k));
  }
}
