/**
 What accounts, escrows and pending requests hold, and the totals that the global properties
 record. `Gap` is the difference between the two, one number per law; the laws hold when
 every gap is zero.
 */
module Holdings {
  import opened Common
  import opened Sums
  import opened OrderMath
  import opened Orders

  const HUNDRED_PERCENT: int := 10000
  const SECONDS_PER_YEAR: int := 60 * 60 * 24 * 365
  const INTEREST_INTERVAL: int := 60 * 60 * 24 * 30

  /** A DBD balance, which earns interest on the time it is held. */
  datatype DbdPot = DbdPot(amount: int, seconds: int, updated: int, paid: int)

  /** An account object's balances. */
  datatype Purse = Purse(
    delta: int, savings: int, rewardDelta: int,
    dbd: DbdPot, savingsDbd: DbdPot, rewardDbd: int,
    vests: int, rewardVests: int, rewardVestingDelta: int)

  datatype Escrow = Escrow(
    to: Name, agent: Name, delta: int, dbd: int, fee: int, feeSymbol: Symbol,
    toApproved: bool, agentApproved: bool, disputed: bool, ratifyBy: nat, expires: nat)

  datatype Conversion = Conversion(amount: int, due: nat)

  datatype Withdrawal = Withdrawal(to: Name, symbol: Symbol, amount: int, due: nat)

  datatype Fund = Fund(balance: int, percent: nat)

  datatype Globals = Globals(
    supply: int, dbdSupply: int, vestingFund: int, rewardFund: int,
    totalVests: int, pendingShares: int, pendingDelta: int)

  /**
   One number for each law: the two liquid tokens, vesting shares, and the backing of
   vesting shares that are not claimed yet.
   */
  datatype Amounts = Amounts(delta: int, dbd: int, vests: int, pending: int)

  const NOTHING: Amounts := Amounts(0, 0, 0, 0)

  function More(a: Amounts, b: Amounts): Amounts
  {
    Amounts(a.delta + b.delta, a.dbd + b.dbd, a.vests + b.vests, a.pending + b.pending)
  }

  function Less(a: Amounts, b: Amounts): Amounts
  {
    Amounts(a.delta - b.delta, a.dbd - b.dbd, a.vests - b.vests, a.pending - b.pending)
  }

  function One(s: Symbol, x: int): Amounts
  {
    if s == Delta then Amounts(x, 0, 0, 0) else Amounts(0, x, 0, 0)
  }

  datatype Law = DeltaLaw | DbdLaw | VestsLaw | PendingLaw

  function Pick(a: Amounts, law: Law): int
  {
    match law
    case DeltaLaw => a.delta
    case DbdLaw => a.dbd
    case VestsLaw => a.vests
    case PendingLaw => a.pending
  }

  // ----- holdings -----

  function OfPurse(p: Purse): Amounts
  {
    Amounts(p.delta + p.savings + p.rewardDelta, p.dbd.amount + p.savingsDbd.amount + p.rewardDbd,
            p.vests + p.rewardVests, p.rewardVestingDelta)
  }

  function OfEscrow(e: Escrow): Amounts
  {
    More(Amounts(e.delta, e.dbd, 0, 0), One(e.feeSymbol, e.fee))
  }

  function OfConversion(c: Conversion): Amounts
  {
    One(Dbd, c.amount)
  }

  function OfWithdrawal(w: Withdrawal): Amounts
  {
    One(w.symbol, w.amount)
  }

  function OfFund(f: Fund): Amounts
  {
    One(Delta, f.balance)
  }

  function OfOrder(o: Order): Amounts
  {
    One(o.sells, o.forSale)
  }

  function InPurse(law: Law): Purse -> int
  {
    (p: Purse) => Pick(OfPurse(p), law)
  }

  function InEscrow(law: Law): Escrow -> int
  {
    (e: Escrow) => Pick(OfEscrow(e), law)
  }

  function InConversion(law: Law): Conversion -> int
  {
    (c: Conversion) => Pick(OfConversion(c), law)
  }

  function InWithdrawal(law: Law): Withdrawal -> int
  {
    (w: Withdrawal) => Pick(OfWithdrawal(w), law)
  }

  function InFund(law: Law): Fund -> int
  {
    (f: Fund) => Pick(OfFund(f), law)
  }

  function InOrder(law: Law): Order -> int
  {
    (o: Order) => Pick(OfOrder(o), law)
  }

  ghost function Total<K(!new), V(!new)>(m: map<K, V>, f: V -> int): int
  {
    Sum(m.Keys, k => Term(m, f, k))
  }

  ghost function Term<K(!new), V(!new)>(m: map<K, V>, f: V -> int, k: K): int
  {
    if k in m then f(m[k]) else 0
  }

  lemma TotalSet<K(!new), V(!new)>(m: map<K, V>, f: V -> int, k: K, v: V)
    ensures Total(m[k := v], f) == Total(m, f) + f(v) - Term(m, f, k)
  {
    var after := m[k := v];
    if k in m {
      assert after.Keys == m.Keys;
      SumUpdate(m.Keys, k, x => Term(m, f, x), x => Term(after, f, x));
    } else {
      assert after.Keys == m.Keys + {k};
      SumInsert(m.Keys, k, x => Term(after, f, x));
      SumExt(m.Keys, x => Term(m, f, x), x => Term(after, f, x));
    }
  }

  lemma TotalNone<K(!new), V(!new)>(m: map<K, V>, f: V -> int)
    requires m == map[]
    ensures Total(m, f) == 0
  {
    assert m.Keys == {};
  }

  lemma TotalDrop<K(!new), V(!new)>(m: map<K, V>, f: V -> int, k: K)
    requires k in m
    ensures Total(m - {k}, f) == Total(m, f) - f(m[k])
  {
    var after := m - {k};
    assert after.Keys == m.Keys - {k};
    SumRemove(m.Keys, k, x => Term(m, f, x));
    SumExt(after.Keys, x => Term(m, f, x), x => Term(after, f, x));
  }

  /** What the entries of a table owe, where `f` says what each owes. */
  ghost function Owing<K(!new), V(!new)>(m: map<K, V>, f: (K, V) -> int): int
  {
    Sum(m.Keys, k => Owed(m, f, k))
  }

  ghost function Owed<K(!new), V(!new)>(m: map<K, V>, f: (K, V) -> int, k: K): int
  {
    if k in m then f(k, m[k]) else 0
  }

  lemma OwingDrop<K(!new), V(!new)>(m: map<K, V>, f: (K, V) -> int, k: K)
    requires k in m
    ensures Owing(m - {k}, f) == Owing(m, f) - f(k, m[k])
  {
    var after := m - {k};
    assert after.Keys == m.Keys - {k};
    SumRemove(m.Keys, k, x => Owed(m, f, x));
    SumExt(after.Keys, x => Owed(m, f, x), x => Owed(after, f, x));
  }

  lemma OwingNothing<K(!new), V(!new)>(m: map<K, V>, f: (K, V) -> int)
    requires forall k :: k in m ==> f(k, m[k]) == 0
    ensures Owing(m, f) == 0
  {
    SumZero(m.Keys, x => Owed(m, f, x));
  }

  /** What the global properties say is held, outside of the global funds. */
  function Recorded(g: Globals): Amounts
  {
    Amounts(g.supply - g.vestingFund - g.rewardFund - g.pendingDelta, g.dbdSupply, g.totalVests + g.pendingShares,
            g.pendingDelta)
  }

  // ----- balances -----

  predicate PurseOk(p: Purse)
  {
    && p.delta >= 0 && p.savings >= 0 && p.rewardDelta >= 0
    && p.dbd.amount >= 0 && p.savingsDbd.amount >= 0 && p.rewardDbd >= 0
    && p.vests >= 0 && p.rewardVests >= 0 && p.rewardVestingDelta >= 0
  }

  /** A DBD balance after the interest due at `now`, with the interest. */
  function Accrued(p: DbdPot, now: int, rate: int): (DbdPot, int)
  {
    if p.updated == now then (p, 0)
    else
      var held := p.seconds + p.amount * (now - p.updated);
      if held > 0 && now - p.paid > INTEREST_INTERVAL then
        var interest := held / SECONDS_PER_YEAR * rate / HUNDRED_PERCENT;
        (DbdPot(p.amount + interest, 0, now, now), interest)
      else (p.(seconds := held, updated := now), 0)
  }

  /** How many DBD were held for how many seconds, up to a time, since interest was last paid. */
  function HeldUntil(p: DbdPot, time: int): int
  {
    p.seconds + p.amount * (time - p.updated)
  }

  /**
   Interest is due when some DBD were held and the last payment is long enough ago, but not twice at one time.
   It is the rate times the full years that the held seconds make up; and then the count starts again.
   Without interest nothing of the count is lost: it is at any later time what it would have been.
   */
  ghost predicate Accrues(p: DbdPot, pot: DbdPot, interest: int, now: int, rate: int)
  {
    if p.updated != now && HeldUntil(p, now) > 0 && now - p.paid > INTEREST_INTERVAL
    then && (exists years :: && RoundedDown(years, HeldUntil(p, now), 1, SECONDS_PER_YEAR)
                             && RoundedDown(interest, years, rate, HUNDRED_PERCENT))
         && pot == DbdPot(p.amount + interest, 0, now, now)
    else && interest == 0 && pot.amount == p.amount && pot.paid == p.paid && pot.updated == now
         && forall time :: HeldUntil(pot, time) == HeldUntil(p, time)
  }

  lemma AccruedExact(p: DbdPot, now: int, rate: int)
    ensures Accrues(p, Accrued(p, now, rate).0, Accrued(p, now, rate).1, now, rate)
  {
    var (pot, interest) := Accrued(p, now, rate);
    var years := HeldUntil(p, now) / SECONDS_PER_YEAR;
    FloorRounds(HeldUntil(p, now), 1, SECONDS_PER_YEAR);
    FloorRounds(years, rate, HUNDRED_PERCENT);
    if !(p.updated != now && HeldUntil(p, now) > 0 && now - p.paid > INTEREST_INTERVAL) {
      forall time ensures HeldUntil(pot, time) == HeldUntil(p, time) {
        assert p.amount * (time - p.updated) == p.amount * (now - p.updated) + p.amount * (time - now) by {
          Distribute(now - p.updated, time - now, p.amount);
        }
      }
    }
  }

  /** `modify_balance`: the purse after an adjustment, and the interest paid with it. */
  function Adjusted(p: Purse, s: Symbol, x: int, now: int, rate: int): (Purse, int)
  {
    if s == Delta then (p.(delta := p.delta + x), 0)
    else
      var (pot, interest) := Accrued(p.dbd, now, rate);
      (p.(dbd := pot.(amount := pot.amount + x)), interest)
  }

  function AdjustedSavings(p: Purse, s: Symbol, x: int, now: int, rate: int): (Purse, int)
  {
    if s == Delta then (p.(savings := p.savings + x), 0)
    else
      var (pot, interest) := Accrued(p.savingsDbd, now, rate);
      (p.(savingsDbd := pot.(amount := pot.amount + x)), interest)
  }

  function Liquid(p: Purse, s: Symbol): int
  {
    if s == Delta then p.delta else p.dbd.amount
  }

  function Savings(p: Purse, s: Symbol): int
  {
    if s == Delta then p.savings else p.savingsDbd.amount
  }

  /** An adjustment changes one balance, by what is asked and the interest due on it, and nothing else. */
  lemma AdjustedExact(p: Purse, s: Symbol, x: int, now: int, rate: int)
    ensures var (q, interest) := Adjusted(p, s, x, now, rate);
            && Liquid(q, s) == Liquid(p, s) + x + interest
            && (if s == Delta then interest == 0 && q.(delta := p.delta) == p
                else && q.(dbd := p.dbd) == p
                     && Accrues(p.dbd, q.dbd.(amount := q.dbd.amount - x), interest, now, rate))
    ensures var (q, interest) := AdjustedSavings(p, s, x, now, rate);
            && Savings(q, s) == Savings(p, s) + x + interest
            && (if s == Delta then interest == 0 && q.(savings := p.savings) == p
                else && q.(savingsDbd := p.savingsDbd) == p
                     && Accrues(p.savingsDbd, q.savingsDbd.(amount := q.savingsDbd.amount - x), interest, now, rate))
  {
    hide Accrues, Accrued;
    AccruedExact(p.dbd, now, rate);
    AccruedExact(p.savingsDbd, now, rate);
    AccruesAdds(p.dbd, Accrued(p.dbd, now, rate).0, Accrued(p.dbd, now, rate).1, now, rate);
    AccruesAdds(p.savingsDbd, Accrued(p.savingsDbd, now, rate).0, Accrued(p.savingsDbd, now, rate).1, now, rate);
  }

  lemma AccruesAdds(p: DbdPot, pot: DbdPot, interest: int, now: int, rate: int)
    requires Accrues(p, pot, interest, now, rate)
    ensures pot.amount == p.amount + interest
  {
  }

  /** Interest is held by the account and recorded in the supply alike. */
  lemma AdjustedHeld(p: Purse, s: Symbol, x: int, now: int, rate: int)
    ensures var (q, interest) := Adjusted(p, s, x, now, rate);
            OfPurse(q) == More(More(OfPurse(p), One(s, x)), One(Dbd, interest))
    ensures var (q, interest) := AdjustedSavings(p, s, x, now, rate);
            OfPurse(q) == More(More(OfPurse(p), One(s, x)), One(Dbd, interest))
  {
  }

  /** Interest never takes anything away. */
  lemma AdjustedOk(p: Purse, s: Symbol, x: int, now: int, rate: nat)
    requires PurseOk(p)
    ensures var q := Adjusted(p, s, x, now, rate).0;
            Liquid(q, s) >= Liquid(p, s) + x && (Liquid(q, s) >= 0 ==> PurseOk(q))
    ensures var q := AdjustedSavings(p, s, x, now, rate).0;
            Savings(q, s) >= Savings(p, s) + x && (Savings(q, s) >= 0 ==> PurseOk(q))
  {
    AccruedMore(p.dbd, now, rate);
    AccruedMore(p.savingsDbd, now, rate);
  }

  lemma AccruedMore(p: DbdPot, now: int, rate: nat)
    ensures Accrued(p, now, rate).0.amount >= p.amount
  {
    var held := p.seconds + p.amount * (now - p.updated);
    if held > 0 { assert held / SECONDS_PER_YEAR * rate >= 0; }
  }

  // ----- conversions between tokens and shares -----

  /** `asset * price` where `times` and `over` are the price's two amounts. */
  function Exchanged(amount: int, times: int, over: int): (r: Outcome<int>)
    ensures r.Ok? ==> r.value >= 0
  {
    if over <= 0 || amount < 0 || times < 0 then Aborted
    else
      FloorSigned(amount, times, over);
      if Floor(amount, times, over) >= TWO63 then Aborted else Ok(Floor(amount, times, over))
  }

  /** Exactly when a conversion fits, and what it gives. */
  lemma ExchangedExact(amount: int, times: int, over: int)
    ensures Exchanged(amount, times, over).Ok? <==>
              over > 0 && amount >= 0 && times >= 0 && amount * times < TWO63 * over
    ensures Exchanged(amount, times, over).Ok? ==>
              RoundedDown(Exchanged(amount, times, over).value, amount, times, over)
  {
    if over > 0 && amount >= 0 && times >= 0 {
      FloorGalois(amount, times, over, TWO63);
      FloorRounds(amount, times, over);
    }
  }

  lemma ExchangedIs(amount: int, times: int, over: int, x: int)
    ensures Exchanged(amount, times, over) == Ok(x) <==>
              over > 0 && amount >= 0 && times >= 0 && x < TWO63 && RoundedDown(x, amount, times, over)
  {
    hide RoundedDown;
    if over > 0 && amount >= 0 && times >= 0 {
      FloorRounds(amount, times, over);
      if RoundedDown(x, amount, times, over) { RoundedOnce(x, Floor(amount, times, over), amount, times, over); }
    }
  }

  /** Changing an amount at a price and back never gains anything, and loses less than a unit's worth. */
  lemma ExchangedBack(amount: int, times: int, over: int)
    requires times > 0 && Exchanged(amount, times, over).Ok?
    ensures var x := Exchanged(amount, times, over).value; Exchanged(x, over, times).Ok? ==>
              var y := Exchanged(x, over, times).value; y <= amount && (amount - y - 1) * times < over
  {
    hide Exchanged;
    ExchangedExact(amount, times, over);
    var x := Exchanged(amount, times, over).value;
    if Exchanged(x, over, times).Ok? {
      ExchangedExact(x, over, times);
      var y := Exchanged(x, over, times).value;
      Cancel(y, amount, times);
      Distribute(x, 1, over);
      Distribute(y, 1, times);
      Distribute(amount, -y - 1, times);
    }
  }

  // ----- the price of vesting shares -----

  /**
   A deposit that takes a fund and its shares from `fund` and `total` to `fund'` and `total'` keeps the price,
   up to less than a share in favour of those who hold shares already. The first deposit buys 1000 shares a
   unit.
   */
  predicate PriceKept(fund: int, total: int, fund': int, total': int)
  {
    if fund == 0 || total == 0 then total' - total == 1000 * (fund' - fund)
    else RatioKept(fund, total, fund', total')
  }

  predicate RatioKept(fund: int, total: int, fund': int, total': int)
  {
    total' * fund <= total * fund' < (total' + 1) * fund
  }

  /** The same for a sale, up to less than a unit; shares of an empty fund sell at 1000 a unit. */
  predicate SaleKept(fund: int, total: int, fund': int, total': int)
  {
    if fund == 0 || total == 0 then RoundedDown(fund - fund', total - total', 1, 1000)
    else (fund' - 1) * total < fund * total' <= fund' * total
  }

  /** Shares bought for `liquid`, by a deposit or as a reward. */
  function SharesFor(g: Globals, liquid: int, toReward: bool): (r: Outcome<int>)
    ensures r.Ok? ==> r.value >= 0
  {
    if toReward then Exchanged(liquid, g.totalVests + g.pendingShares, g.vestingFund + g.pendingDelta)
    else if g.vestingFund == 0 || g.totalVests == 0 then Exchanged(liquid, 1000000, 1000)
    else Exchanged(liquid, g.totalVests, g.vestingFund)
  }

  /** What shares are worth when they are sold. */
  function WorthOf(g: Globals, shares: int): (r: Outcome<int>)
    ensures r.Ok? ==> r.value >= 0
  {
    if g.vestingFund == 0 || g.totalVests == 0 then Exchanged(shares, 1000, 1000000)
    else Exchanged(shares, g.vestingFund, g.totalVests)
  }

  lemma RatioOf(fund: int, total: int, liquid: int, shares: int)
    ensures RatioKept(fund, total, fund + liquid, total + shares) <==> RoundedDown(shares, liquid, total, fund)
  {
    Distribute(total, shares, fund);
    Distribute(total + shares, 1, fund);
    Distribute(shares, 1, fund);
    Distribute(fund, liquid, total);
    assert total * fund == fund * total && total * liquid == liquid * total;
  }

  /** When a deposit or a reward buys shares, and how many. */
  lemma SharesForExact(g: Globals, liquid: int)
    ensures SharesFor(g, liquid, false).Ok? <==>
              && liquid >= 0
              && if g.vestingFund == 0 || g.totalVests == 0 then liquid * 1000 < TWO63
                 else g.vestingFund > 0 && g.totalVests >= 0 && liquid * g.totalVests < TWO63 * g.vestingFund
    ensures SharesFor(g, liquid, false).Ok? ==>
              PriceKept(g.vestingFund, g.totalVests,
                        g.vestingFund + liquid, g.totalVests + SharesFor(g, liquid, false).value)
    ensures var fund, total := g.vestingFund + g.pendingDelta, g.totalVests + g.pendingShares;
            && (SharesFor(g, liquid, true).Ok? <==>
                liquid >= 0 && fund > 0 && total >= 0 && liquid * total < TWO63 * fund)
            && (SharesFor(g, liquid, true).Ok? ==>
                  RatioKept(fund, total, fund + liquid, total + SharesFor(g, liquid, true).value))
  {
    hide Exchanged;
    ExchangedExact(liquid, 1000000, 1000);
    ExchangedExact(liquid, g.totalVests, g.vestingFund);
    ExchangedExact(liquid, g.totalVests + g.pendingShares, g.vestingFund + g.pendingDelta);
    if SharesFor(g, liquid, false).Ok? && g.vestingFund != 0 && g.totalVests != 0 {
      RatioOf(g.vestingFund, g.totalVests, liquid, SharesFor(g, liquid, false).value);
    }
    if SharesFor(g, liquid, true).Ok? {
      RatioOf(g.vestingFund + g.pendingDelta, g.totalVests + g.pendingShares, liquid, SharesFor(g, liquid, true).value);
    }
  }

  /** A deposit buys the number of shares that keeps the price, and no other. */
  lemma DepositIs(g: Globals, liquid: int, shares: int)
    ensures var fund, total := g.vestingFund, g.totalVests;
            SharesFor(g, liquid, false) == Ok(shares) <==>
              && liquid >= 0 && shares < TWO63 && (fund == 0 || total == 0 || (fund > 0 && total > 0))
              && PriceKept(fund, total, fund + liquid, total + shares)
  {
    hide Exchanged, RatioKept;
    ExchangedIs(liquid, 1000000, 1000, shares);
    ExchangedIs(liquid, g.totalVests, g.vestingFund, shares);
    RatioOf(g.vestingFund, g.totalVests, liquid, shares);
  }

  lemma RewardIs(g: Globals, liquid: int, shares: int)
    ensures var fund, total := g.vestingFund + g.pendingDelta, g.totalVests + g.pendingShares;
            SharesFor(g, liquid, true) == Ok(shares) <==>
              && liquid >= 0 && shares < TWO63 && fund > 0 && total >= 0
              && RatioKept(fund, total, fund + liquid, total + shares)
  {
    hide Exchanged, RatioKept;
    ExchangedIs(liquid, g.totalVests + g.pendingShares, g.vestingFund + g.pendingDelta, shares);
    RatioOf(g.vestingFund + g.pendingDelta, g.totalVests + g.pendingShares, liquid, shares);
  }

  lemma SaleOf(fund: int, total: int, shares: int, worth: int)
    requires fund != 0 && total != 0
    ensures SaleKept(fund, total, fund - worth, total - shares) <==> RoundedDown(worth, shares, fund, total)
  {
    Distribute(fund, -worth, total);
    Distribute(fund - worth, -1, total);
    Distribute(worth, 1, total);
    Distribute(total, -shares, fund);
    assert total * fund == fund * total && shares * fund == fund * shares;
  }

  lemma SaleIs(g: Globals, shares: int, worth: int)
    ensures var fund, total := g.vestingFund, g.totalVests;
            WorthOf(g, shares) == Ok(worth) <==>
              && shares >= 0 && worth < TWO63 && (fund == 0 || total == 0 || (fund > 0 && total > 0))
              && SaleKept(fund, total, fund - worth, total - shares)
  {
    hide Exchanged;
    ExchangedIs(shares, 1000, 1000000, worth);
    ExchangedIs(shares, g.vestingFund, g.totalVests, worth);
    if g.vestingFund != 0 && g.totalVests != 0 { SaleOf(g.vestingFund, g.totalVests, shares, worth); }
  }

  /** When shares can be sold, and for how much. */
  lemma WorthOfExact(g: Globals, shares: int)
    ensures WorthOf(g, shares).Ok? <==>
              && shares >= 0
              && if g.vestingFund == 0 || g.totalVests == 0 then shares < TWO63 * 1000
                 else g.totalVests > 0 && g.vestingFund >= 0 && shares * g.vestingFund < TWO63 * g.totalVests
    ensures WorthOf(g, shares).Ok? ==>
              SaleKept(g.vestingFund, g.totalVests, g.vestingFund - WorthOf(g, shares).value, g.totalVests - shares)
  {
    hide Exchanged;
    ExchangedExact(shares, 1000, 1000000);
    ExchangedExact(shares, g.vestingFund, g.totalVests);
    if WorthOf(g, shares).Ok? { SaleIs(g, shares, WorthOf(g, shares).value); }
  }

  /** A percentage of an amount. */
  function Share(amount: int, percent: int): (r: int)
    requires amount >= 0 && percent >= 0
    ensures r >= 0
  {
    FloorSigned(amount, percent, HUNDRED_PERCENT);
    Floor(amount, percent, HUNDRED_PERCENT)
  }

  lemma ShareRounds(amount: int, percent: int)
    requires amount >= 0 && percent >= 0
    ensures RoundedDown(Share(amount, percent), amount, percent, HUNDRED_PERCENT)
  {
    FloorRounds(amount, percent, HUNDRED_PERCENT);
  }

  lemma ShareWithin(amount: int, percent: int)
    requires amount >= 0 && 0 <= percent <= HUNDRED_PERCENT
    ensures 0 <= Share(amount, percent) <= amount
  {
    FloorGalois(amount, percent, HUNDRED_PERCENT, Share(amount, percent));
    assert amount * percent <= amount * HUNDRED_PERCENT;
  }
}
