/**
 What operations with vesting shares and rewards come to, told from the accounts and totals before and after.
 No amount is computed here: each is bounded from both sides by what it was taken from, so that there is only
 one that fits.
 */
module Effects {
  import opened Common
  import opened OrderMath
  import opened Holdings
  import opened Settlement
  import opened Routing
  import opened Rewards

  // ----- buying and selling shares -----

  /** An account buys shares for `liquid`, at the price of the shares that exist. */
  predicate Bought(w: Wallets, v: Wallets, n: Name, liquid: int)
  {
    var fund, total := w.globals.vestingFund, w.globals.totalVests;
    var shares := v.globals.totalVests - total;
    && n in w.accounts && liquid >= 0 && shares < TWO63 && (fund == 0 || total == 0 || (fund > 0 && total > 0))
    && PriceKept(fund, total, v.globals.vestingFund, v.globals.totalVests)
    && v.globals == w.globals.(vestingFund := fund + liquid, totalVests := total + shares)
    && v.accounts == w.accounts[n := w.accounts[n].(vests := w.accounts[n].vests + shares)]
  }

  lemma DepositBuys(w: Wallets, n: Name, liquid: int, shares: int)
    requires n in w.accounts
    ensures var v := Wallets(w.accounts[n := Vested(w.accounts[n], liquid, shares, false)],
                             VestedGlobals(w.globals, liquid, shares, false));
            SharesFor(w.globals, liquid, false) == Ok(shares) <==> Bought(w, v, n, liquid)
  {
    hide SharesFor, PriceKept;
    DepositIs(w.globals, liquid, shares);
  }

  /** An account sells `shares` and is charged `charged` of them. */
  predicate SoldFor(w: Wallets, v: Wallets, n: Name, shares: int, charged: int)
  {
    var fund, total := w.globals.vestingFund, w.globals.totalVests;
    var worth := fund - v.globals.vestingFund;
    && n in w.accounts && shares >= 0 && worth < TWO63 && (fund == 0 || total == 0 || (fund > 0 && total > 0))
    && SaleKept(fund, total, v.globals.vestingFund, v.globals.totalVests)
    && v.globals == w.globals.(vestingFund := fund - worth, totalVests := total - shares)
    && var p := w.accounts[n];
       v.accounts == w.accounts[n := p.(delta := p.delta + worth, vests := p.vests - charged)]
  }

  /** A sale comes to this and to nothing else. */
  lemma SaleSells(w: Wallets, v: Wallets, n: Name, shares: int, charged: int)
    ensures n in w.accounts && Sold(w, n, shares, charged) == Ok(v) <==> SoldFor(w, v, n, shares, charged)
  {
    hide WorthOf, SaleKept;
    if n in w.accounts {
      var worth := w.globals.vestingFund - v.globals.vestingFund;
      SaleIs(w.globals, shares, worth);
      if WorthOf(w.globals, shares).Ok? { SaleIs(w.globals, shares, WorthOf(w.globals, shares).value); }
    }
  }

  // ----- an interval of a power-down -----

  /** A route with its part of the amount: shares are deposited or, in the second round, sold for the receiver. */
  ghost predicate Moves(w: Wallets, v: Wallets, r: Route, part: int, selling: bool)
  {
    if r.autoVest == selling then v == w
    else if part == 0 then v == w && (selling ==> r.to in w.accounts)
    else if selling then SoldFor(w, v, r.to, part, 0)
    else && r.to in w.accounts
         && v == w.(accounts := w.accounts[r.to := w.accounts[r.to].(vests := w.accounts[r.to].vests + part)])
  }

  ghost predicate PartsRounded(parts: seq<int>, amount: int, routes: seq<Route>)
  {
    && |parts| == |routes|
    && forall i :: 0 <= i < |routes| ==> RoundedDown(parts[i], amount, routes[i].percent, HUNDRED_PERCENT)
  }

  ghost predicate MovesInTurn(states: seq<Wallets>, routes: seq<Route>, parts: seq<int>, selling: bool)
  {
    && |states| == |routes| + 1 && |parts| == |routes|
    && forall i :: 0 <= i < |routes| ==> Moves(states[i], states[i + 1], routes[i], parts[i], selling)
  }

  function Added(parts: seq<int>): int
  {
    if parts == [] then 0 else Added(parts[..|parts| - 1]) + parts[|parts| - 1]
  }

  /** First the shares that routes deposit, then those they sell, then the account sells what is left. */
  ghost predicate WithdrawnBy(w: Wallets, v: Wallets, from: Name, amount: int, routes: seq<Route>)
  {
    exists parts, first, second ::
      && PartsRounded(parts, amount, routes)
      && MovesInTurn(first, routes, parts, false) && first[0] == w
      && MovesInTurn(second, routes, parts, true) && second[0] == first[|routes|]
      && Added(parts) <= amount && SoldFor(second[|routes|], v, from, amount - Added(parts), amount)
  }

  /** The parts of the routes. */
  function PartsFor(amount: int, routes: seq<Route>): (parts: seq<int>)
    requires amount >= 0 && forall i :: 0 <= i < |routes| ==> routes[i].percent >= 0
    ensures |parts| == |routes| && forall i :: 0 <= i < |routes| ==> parts[i] == Share(amount, routes[i].percent)
  {
    seq(|routes|, i requires 0 <= i < |routes| => Share(amount, routes[i].percent))
  }

  lemma RouteMoves(w: Wallets, v: Wallets, amount: int, r: Route, selling: bool)
    requires amount >= 0 && r.percent >= 0
    ensures RoutePaid(w, amount, r, selling) == Ok(v) <==> Moves(w, v, r, Share(amount, r.percent), selling)
  {
    hide Sold, SoldFor, Share;
    SaleSells(w, v, r.to, Share(amount, r.percent), 0);
  }

  lemma {:induction false} RoutesMove(w: Wallets, amount: int, routes: seq<Route>, selling: bool)
    returns (states: seq<Wallets>)
    requires amount >= 0 && forall i :: 0 <= i < |routes| ==> routes[i].percent >= 0
    requires RoutesPaid(w, amount, routes, selling).Ok?
    ensures MovesInTurn(states, routes, PartsFor(amount, routes), selling)
    ensures states[0] == w && states[|routes|] == RoutesPaid(w, amount, routes, selling).value
  {
    hide Moves, RoutePaid, Share;
    if routes == [] { return [w]; }
    var init, last := routes[..|routes| - 1], routes[|routes| - 1];
    var before := RoutesMove(w, amount, init, selling);
    var v := RoutesPaid(w, amount, routes, selling).value;
    RouteMoves(before[|init|], v, amount, last, selling);
    states := before + [v];
  }

  lemma {:induction false} MovedRoutes(states: seq<Wallets>, amount: int, routes: seq<Route>, selling: bool)
    requires amount >= 0 && forall i :: 0 <= i < |routes| ==> routes[i].percent >= 0
    requires MovesInTurn(states, routes, PartsFor(amount, routes), selling)
    ensures RoutesPaid(states[0], amount, routes, selling) == Ok(states[|routes|])
  {
    hide Moves, RoutePaid, Share;
    if routes != [] {
      var n := |routes| - 1;
      MovesInit(states, amount, routes, selling);
      MovedRoutes(states[..n + 1], amount, routes[..n], selling);
      assert Moves(states[n], states[n + 1], routes[n], PartsFor(amount, routes)[n], selling);
      RouteMoves(states[n], states[n + 1], amount, routes[n], selling);
    }
  }

  lemma MovesInit(states: seq<Wallets>, amount: int, routes: seq<Route>, selling: bool)
    requires amount >= 0 && forall i :: 0 <= i < |routes| ==> routes[i].percent >= 0
    requires MovesInTurn(states, routes, PartsFor(amount, routes), selling) && routes != []
    ensures var n := |routes| - 1; MovesInTurn(states[..n + 1], routes[..n], PartsFor(amount, routes[..n]), selling)
  {
    hide Moves, Share;
    var n := |routes| - 1;
    forall i | 0 <= i < n
      ensures var part := PartsFor(amount, routes[..n])[i];
              Moves(states[..n + 1][i], states[..n + 1][i + 1], routes[..n][i], part, selling)
    {
      assert Moves(states[i], states[i + 1], routes[i], PartsFor(amount, routes)[i], selling);
    }
  }

  lemma {:induction false} PartsAdded(amount: int, routes: seq<Route>)
    requires amount >= 0 && forall i :: 0 <= i < |routes| ==> routes[i].percent >= 0
    ensures Added(PartsFor(amount, routes)) == Deposits(amount, routes, true) + Deposits(amount, routes, false)
  {
    hide Share;
    if routes != [] {
      var n := |routes| - 1;
      PartsAdded(amount, routes[..n]);
      assert PartsFor(amount, routes)[..n] == PartsFor(amount, routes[..n]);
    }
  }

  lemma PartsOnce(parts: seq<int>, amount: int, routes: seq<Route>)
    requires amount >= 0 && forall i :: 0 <= i < |routes| ==> routes[i].percent >= 0
    ensures PartsRounded(parts, amount, routes) <==> parts == PartsFor(amount, routes)
  {
    hide Share, RoundedDown;
    forall i | 0 <= i < |routes|
      ensures RoundedDown(Share(amount, routes[i].percent), amount, routes[i].percent, HUNDRED_PERCENT)
    {
      ShareRounds(amount, routes[i].percent);
    }
    if PartsRounded(parts, amount, routes) {
      forall i | 0 <= i < |routes| ensures parts[i] == Share(amount, routes[i].percent) {
        RoundedOnce(parts[i], Share(amount, routes[i].percent), amount, routes[i].percent, HUNDRED_PERCENT);
      }
    }
  }

  /** An interval comes to this and to nothing else. */
  lemma IntervalMoves(w: Wallets, v: Wallets, from: Name, amount: int, routes: seq<Route>)
    requires amount >= 0 && forall i :: 0 <= i < |routes| ==> routes[i].percent >= 0
    ensures Interval(w, from, amount, routes) == Ok(v) <==> WithdrawnBy(w, v, from, amount, routes)
  {
    hide RoutesPaid, Sold, SoldFor, Deposits, Added, PartsFor, PartsRounded, MovesInTurn;
    PartsAdded(amount, routes);
    var all := PartsFor(amount, routes);
    if Interval(w, from, amount, routes) == Ok(v) {
      PartsOnce(all, amount, routes);
      var first := RoutesMove(w, amount, routes, false);
      var second := RoutesMove(RoutesPaid(w, amount, routes, false).value, amount, routes, true);
      TurnsMatch(first, routes, all, false);
      TurnsMatch(second, routes, all, true);
      SaleSells(second[|routes|], v, from, amount - Added(all), amount);
      assert PartsRounded(all, amount, routes);
    }
    if WithdrawnBy(w, v, from, amount, routes) {
      MovedInterval(w, v, from, amount, routes);
    }
  }

  lemma TurnsMatch(states: seq<Wallets>, routes: seq<Route>, parts: seq<int>, selling: bool)
    requires MovesInTurn(states, routes, parts, selling)
    ensures |states| == |routes| + 1
  {
  }

  lemma MovedInterval(w: Wallets, v: Wallets, from: Name, amount: int, routes: seq<Route>)
    requires amount >= 0 && forall i :: 0 <= i < |routes| ==> routes[i].percent >= 0
    requires WithdrawnBy(w, v, from, amount, routes)
    ensures Interval(w, from, amount, routes) == Ok(v)
  {
    hide RoutesPaid, Sold, SoldFor, Deposits, Added, PartsFor, PartsRounded, Moves;
    var parts, first, second :|
      && PartsRounded(parts, amount, routes)
      && MovesInTurn(first, routes, parts, false) && first[0] == w
      && MovesInTurn(second, routes, parts, true) && second[0] == first[|routes|]
      && Added(parts) <= amount && SoldFor(second[|routes|], v, from, amount - Added(parts), amount);
    PartsOnce(parts, amount, routes);
    PartsAdded(amount, routes);
    MovedRoutes(first, amount, routes, false);
    MovedRoutes(second, amount, routes, true);
    SaleSells(second[|routes|], v, from, amount - Added(parts), amount);
  }

  // ----- claiming -----

  /** A claim moves unclaimed balances to the account's own, and of the backing its part rounded down, or all of it. */
  ghost predicate ClaimedBy(w: Wallets, v: Wallets, n: Name, delta: int, dbd: int, vests: int, now: int, rate: int)
  {
    && n in w.accounts && n in v.accounts
    && var p, q, g, h := w.accounts[n], v.accounts[n], w.globals, v.globals;
       var moved, interest := g.pendingDelta - h.pendingDelta, h.dbdSupply - g.dbdSupply;
       && (if vests == p.rewardVests then moved == p.rewardVestingDelta
           else RoundedDown(moved, vests, p.rewardVestingDelta, p.rewardVests))
       && v.accounts == w.accounts[n := q]
       && q == p.(delta := p.delta + delta, rewardDelta := p.rewardDelta - delta, rewardDbd := p.rewardDbd - dbd,
                  vests := p.vests + vests, rewardVests := p.rewardVests - vests,
                  rewardVestingDelta := p.rewardVestingDelta - moved, dbd := q.dbd)
       && Accrues(p.dbd, q.dbd.(amount := q.dbd.amount - dbd), interest, now, rate)
       && h == g.(totalVests := g.totalVests + vests, vestingFund := g.vestingFund + moved,
                  pendingShares := g.pendingShares - vests, pendingDelta := g.pendingDelta - moved,
                  dbdSupply := g.dbdSupply + interest)
  }

  lemma ClaimExact(w: Wallets, v: Wallets, n: Name, delta: int, dbd: int, vests: int, now: int, rate: int)
    requires n in w.accounts && 0 <= vests <= w.accounts[n].rewardVests && w.accounts[n].rewardVestingDelta >= 0
    requires var q := Rewarded(Rewarded(w.accounts[n], Delta, -delta), Dbd, -dbd);
             var interest, moved := Accrued(q.dbd, now, rate).1, Moved(w.accounts[n], vests);
             var p := LiquidClaimed(w.accounts[n], delta, dbd, now, rate);
             && v.accounts == w.accounts[n := Claimed(p, vests, moved)]
             && v.globals == ClaimedGlobals(w.globals, vests, moved).(dbdSupply := w.globals.dbdSupply + interest)
    ensures ClaimedBy(w, v, n, delta, dbd, vests, now, rate)
  {
    hide Accrues, Accrued, RoundedDown;
    var p := w.accounts[n];
    AccruedExact(p.dbd, now, rate);
    if vests < p.rewardVests { FloorRounds(vests, p.rewardVestingDelta, p.rewardVests); }
  }

  // ----- one award -----

  /** What an award adds to a purse: liquid and unclaimed tokens, unclaimed shares, and what backs those. */
  datatype Parts = Parts(delta: int, rewardDelta: int, rewardDbd: int, rewardVests: int, backing: int)

  function Plus(p: Purse, x: Parts): Purse
  {
    p.(delta := p.delta + x.delta, rewardDelta := p.rewardDelta + x.rewardDelta, rewardDbd := p.rewardDbd + x.rewardDbd,
       rewardVests := p.rewardVests + x.rewardVests, rewardVestingDelta := p.rewardVestingDelta + x.backing)
  }

  /** The parts of an award, read off the totals: vested, sold for DBD, and the rest. */
  function PartsOf(g: Globals, h: Globals, tokens: int, m: Market): Parts
  {
    var vested, shares := h.pendingDelta - g.pendingDelta, h.pendingShares - g.pendingShares;
    var printed, dbd := g.supply - h.supply, h.dbdSupply - g.dbdSupply;
    var rest, unbacked := tokens - vested - printed, if shares == 0 then vested else 0;
    Parts(if m.median.None? then rest else 0, (if m.median.None? then 0 else rest) + unbacked, dbd,
          shares, vested - unbacked)
  }

  predicate BoughtDbd(printed: int, dbd: int, p: Price)
  {
    p.quote > 0 && p.base >= 0 && printed >= 0 && dbd < TWO63 && RoundedDown(dbd, printed, p.base, p.quote)
  }

  /**
   An award of `tokens`: half of the given percentage of it is not vested; of that the print rate goes into DBD at
   the median price, and the rest stays DELTA. What is vested buys shares at the price of all shares, claimed
   or not, or stays DELTA if it buys none.
   */
  predicate Awarded(w: Wallets, v: Wallets, n: Name, tokens: int, percentDollars: int, m: Market)
  {
    var g, h := w.globals, v.globals;
    var dollars := tokens - (h.pendingDelta - g.pendingDelta);
    var printed, dbd := g.supply - h.supply, h.dbdSupply - g.dbdSupply;
    && n in w.accounts
    && RoundedDown(dollars, tokens, percentDollars, 2 * HUNDRED_PERCENT)
    && (if dollars == 0 || m.median.None? then printed == 0 && dbd == 0
        else && RoundedDown(printed, dollars, m.printRate, HUNDRED_PERCENT)
             && BoughtDbd(printed, dbd, m.median.value) && h.supply >= 0 && h.dbdSupply >= 0)
    && h.pendingDelta >= g.pendingDelta && h.pendingShares < g.pendingShares + TWO63
    && g.vestingFund + g.pendingDelta > 0 && g.totalVests + g.pendingShares >= 0
    && RatioKept(g.vestingFund + g.pendingDelta, g.totalVests + g.pendingShares,
                 h.vestingFund + h.pendingDelta, h.totalVests + h.pendingShares)
    && h == g.(pendingDelta := h.pendingDelta, pendingShares := h.pendingShares, supply := h.supply,
               dbdSupply := h.dbdSupply)
    && v.accounts == w.accounts[n := Plus(w.accounts[n], PartsOf(g, h, tokens, m))]
  }

  /** An award paid in shares alone. */
  lemma VestedAwards(w: Wallets, v: Wallets, n: Name, tokens: int, m: Market)
    ensures VestedTo(w, n, tokens) == Ok(v) <==> Awarded(w, v, n, tokens, 0, m)
  {
    hide SharesFor, RatioKept;
    RewardIs(w.globals, tokens, v.globals.pendingShares - w.globals.pendingShares);
    if SharesFor(w.globals, tokens, true).Ok? {
      RewardIs(w.globals, tokens, SharesFor(w.globals, tokens, true).value);
    }
  }

  lemma DollarsIs(tokens: int, percentDollars: int, x: int)
    ensures RoundedDown(x, tokens, percentDollars, 2 * HUNDRED_PERCENT) <==> x == Dollars(tokens, percentDollars)
  {
    hide RoundedDown;
    FloorRounds(tokens, percentDollars, 2 * HUNDRED_PERCENT);
    if RoundedDown(x, tokens, percentDollars, 2 * HUNDRED_PERCENT) {
      RoundedOnce(x, Dollars(tokens, percentDollars), tokens, percentDollars, 2 * HUNDRED_PERCENT);
    }
  }

  lemma PrintedIs(amount: int, m: Market, x: int)
    requires m.median.Some?
    ensures RoundedDown(x, amount, m.printRate, HUNDRED_PERCENT) <==> x == Printed(amount, m)
  {
    assert m.printRate * amount == amount * m.printRate;
    FloorRounds(amount, m.printRate, HUNDRED_PERCENT);
    if RoundedDown(x, amount, m.printRate, HUNDRED_PERCENT) {
      RoundedOnce(x, Printed(amount, m), amount, m.printRate, HUNDRED_PERCENT);
    }
  }

  /** Tokens paid as unclaimed rewards, of which the print rate is printed as DBD; or as they are without a feed. */
  predicate Issued(w: Wallets, v: Wallets, n: Name, amount: int, m: Market)
  {
    && n in w.accounts
    && if amount == 0 then v == w
       else if m.median.None? then
         v == w.(accounts := w.accounts[n := w.accounts[n].(delta := w.accounts[n].delta + amount)])
       else
         var p, g, h := w.accounts[n], w.globals, v.globals;
         var printed, dbd := g.supply - h.supply, h.dbdSupply - g.dbdSupply;
         && RoundedDown(printed, amount, m.printRate, HUNDRED_PERCENT) && BoughtDbd(printed, dbd, m.median.value)
         && h == g.(supply := h.supply, dbdSupply := h.dbdSupply) && h.supply >= 0 && h.dbdSupply >= 0
         && v.accounts == w.accounts[n := p.(rewardDelta := p.rewardDelta + amount - printed,
                                             rewardDbd := p.rewardDbd + dbd)]
  }

  lemma DbdIssues(w: Wallets, v: Wallets, n: Name, amount: int, m: Market)
    ensures DbdTo(w, n, amount, m) == Ok(v) <==> Issued(w, v, n, amount, m)
  {
    hide Exchanged, RoundedDown, Printed;
    if n in w.accounts && m.median.Some? {
      var printed := Printed(amount, m);
      PrintedIs(amount, m, printed);
      PrintedIs(amount, m, w.globals.supply - v.globals.supply);
      ExchangedIs(printed, m.median.value.base, m.median.value.quote, v.globals.dbdSupply - w.globals.dbdSupply);
      if Exchanged(printed, m.median.value.base, m.median.value.quote).Ok? {
        ExchangedIs(printed, m.median.value.base, m.median.value.quote,
                    Exchanged(printed, m.median.value.base, m.median.value.quote).value);
      }
    }
  }

  lemma SplitAwarded(w: Wallets, n: Name, tokens: int, percentDollars: int, m: Market)
    requires SplitTo(w, n, tokens, percentDollars, m).Ok?
    ensures Awarded(w, SplitTo(w, n, tokens, percentDollars, m).value, n, tokens, percentDollars, m)
  {
    hide SharesFor, RatioKept, Exchanged, RoundedDown, Dollars, Printed;
    var dollars := Dollars(tokens, percentDollars);
    DollarsIs(tokens, percentDollars, dollars);
    var half := DbdTo(w, n, dollars, m).value;
    if m.median.Some? {
      PrintedIs(dollars, m, Printed(dollars, m));
      ExchangedIs(Printed(dollars, m), m.median.value.base, m.median.value.quote,
                  half.globals.dbdSupply - w.globals.dbdSupply);
    }
    RewardIs(half.globals, tokens - dollars, SharesFor(half.globals, tokens - dollars, true).value);
  }

  lemma AwardedSplits(w: Wallets, v: Wallets, n: Name, tokens: int, percentDollars: int, m: Market)
    requires Awarded(w, v, n, tokens, percentDollars, m)
    ensures SplitTo(w, n, tokens, percentDollars, m) == Ok(v)
  {
    hide SharesFor, RatioKept, Exchanged, RoundedDown, Dollars, Printed;
    var g, h := w.globals, v.globals;
    var dollars := tokens - (h.pendingDelta - g.pendingDelta);
    DollarsIs(tokens, percentDollars, dollars);
    if m.median.Some? {
      PrintedIs(dollars, m, g.supply - h.supply);
      ExchangedIs(g.supply - h.supply, m.median.value.base, m.median.value.quote, h.dbdSupply - g.dbdSupply);
    }
    var half := DbdTo(w, n, dollars, m).value;
    RewardIs(half.globals, tokens - dollars, h.pendingShares - g.pendingShares);
    var u := VestedTo(half, n, tokens - dollars).value;
    assert u.globals == h;
    assert u.accounts[n] == v.accounts[n];
    assert u.accounts == v.accounts;
  }

  /** What a split award comes to, and nothing else. */
  lemma SplitAwards(w: Wallets, v: Wallets, n: Name, tokens: int, percentDollars: int, m: Market)
    ensures SplitTo(w, n, tokens, percentDollars, m) == Ok(v) <==> Awarded(w, v, n, tokens, percentDollars, m)
  {
    hide SplitTo, Awarded;
    if SplitTo(w, n, tokens, percentDollars, m).Ok? {
      SplitAwarded(w, n, tokens, percentDollars, m);
    }
    if Awarded(w, v, n, tokens, percentDollars, m) {
      AwardedSplits(w, v, n, tokens, percentDollars, m);
    }
  }

  // ----- the awards of a comment -----

  datatype Award = Award(to: Name, tokens: int, percentDollars: int, curation: bool)

  /** One award after the other; a claim of nothing is not paid. */
  ghost predicate Follows(w: Wallets, v: Wallets, a: Award, m: Market)
  {
    if a.curation && a.tokens == 0 then v == w else Awarded(w, v, a.to, a.tokens, a.percentDollars, m)
  }

  ghost predicate Pays(states: seq<Wallets>, awards: seq<Award>, m: Market)
  {
    |states| == |awards| + 1 && forall i :: 0 <= i < |awards| ==> Follows(states[i], states[i + 1], awards[i], m)
  }

  function Tokens(awards: seq<Award>): int
  {
    if awards == [] then 0 else Tokens(awards[..|awards| - 1]) + awards[|awards| - 1].tokens
  }

  /** Every voter's claim on a pool of `max`. */
  ghost predicate Curating(awards: seq<Award>, votes: seq<(Name, nat)>, total: nat, max: int)
  {
    && |awards| == |votes|
    && forall i :: 0 <= i < |votes| ==>
         && awards[i].to == votes[i].0 && awards[i].curation && awards[i].percentDollars == 0
         && RoundedDown(awards[i].tokens, max, votes[i].1, total)
  }

  /** Every beneficiary's part of the author's tokens. */
  ghost predicate Benefiting(awards: seq<Award>, bs: seq<(Name, int)>, tokens: int, percentDollars: int)
  {
    && |awards| == |bs|
    && forall i :: 0 <= i < |bs| ==>
         && awards[i].to == bs[i].0 && !awards[i].curation && awards[i].percentDollars == percentDollars
         && RoundedDown(awards[i].tokens, tokens, bs[i].1, HUNDRED_PERCENT)
  }

  lemma {:induction false} TokensBoth(a: seq<Award>, b: seq<Award>)
    ensures Tokens(a + b) == Tokens(a) + Tokens(b)
  {
    if b == [] {
      assert a + b == a;
    } else {
      assert (a + b)[..|a + b| - 1] == a + b[..|b| - 1];
      TokensBoth(a, b[..|b| - 1]);
    }
  }

  lemma PaysBoth(s: seq<Wallets>, a: seq<Award>, t: seq<Wallets>, b: seq<Award>, m: Market)
    requires Pays(s, a, m) && Pays(t, b, m) && s[|a|] == t[0]
    ensures Pays(s + t[1..], a + b, m)
  {
    hide Follows;
    var u, c := s + t[1..], a + b;
    forall i | 0 <= i < |c| ensures Follows(u[i], u[i + 1], c[i], m) {
      if i < |a| {
        assert Follows(s[i], s[i + 1], a[i], m);
      } else {
        assert Follows(t[i - |a|], t[i - |a| + 1], b[i - |a|], m);
        assert u[i] == t[i - |a|];
      }
    }
  }

  lemma {:induction false} CuratorsAwarded(w: Wallets, votes: seq<(Name, nat)>, total: nat, max: int, m: Market)
    returns (awards: seq<Award>, states: seq<Wallets>)
    requires total > 0 && max >= 0 && CuratorsPaid(w, votes, total, max).Ok?
    ensures |awards| == |votes| && Curating(awards, votes, total, max) && Pays(states, awards, m)
    ensures states[0] == w && states[|awards|] == CuratorsPaid(w, votes, total, max).value
    ensures Tokens(awards) == Claims(votes, total, max)
  {
    hide VestedTo, Floor, RoundedDown, Awarded;
    if votes == [] { return [], [w]; }
    var init, last := votes[..|votes| - 1], votes[|votes| - 1];
    var before, through := CuratorsAwarded(w, init, total, max, m);
    var claim := Floor(max, last.1, total);
    FloorSigned(max, last.1, total);
    FloorRounds(max, last.1, total);
    var v := CuratorsPaid(w, init, total, max).value;
    if claim > 0 { VestedAwards(v, CuratorsPaid(w, votes, total, max).value, last.0, claim, m); }
    awards := before + [Award(last.0, claim, 0, true)];
    states := through + [CuratorsPaid(w, votes, total, max).value];
  }

  lemma {:induction false} BeneficiariesAwarded(w: Wallets, bs: seq<(Name, int)>, tokens: int, percentDollars: int,
                                                m: Market)
    returns (awards: seq<Award>, states: seq<Wallets>)
    requires tokens >= 0 && (forall i :: 0 <= i < |bs| ==> bs[i].1 >= 0)
    requires BeneficiariesPaid(w, bs, tokens, percentDollars, m).Ok?
    ensures |awards| == |bs| && Benefiting(awards, bs, tokens, percentDollars) && Pays(states, awards, m)
    ensures states[0] == w && states[|awards|] == BeneficiariesPaid(w, bs, tokens, percentDollars, m).value
    ensures Tokens(awards) == Benefits(bs, tokens)
  {
    hide SplitTo, Share, RoundedDown, Awarded;
    if bs == [] { return [], [w]; }
    var init, last := bs[..|bs| - 1], bs[|bs| - 1];
    var before, through := BeneficiariesAwarded(w, init, tokens, percentDollars, m);
    var v := BeneficiariesPaid(w, init, tokens, percentDollars, m).value;
    ShareRounds(tokens, last.1);
    SplitAwarded(v, last.0, Share(tokens, last.1), percentDollars, m);
    awards := before + [Award(last.0, Share(tokens, last.1), percentDollars, false)];
    states := through + [BeneficiariesPaid(w, bs, tokens, percentDollars, m).value];
  }

  /** The awards of a comment: to its voters, its beneficiaries, and its author, who gets what is left. */
  ghost predicate AwardsOf(c: Comment, reward: int, pool: int, awards: seq<Award>)
  {
    var k := if c.allowCuration && c.totalWeight > 0 then |c.votes| else 0;
    && RoundedDown(pool, reward, c.curationPercent, HUNDRED_PERCENT)
    && |awards| == k + |c.beneficiaries| + 1
    && Curating(awards[..k], c.votes[..k], c.totalWeight, pool)
    && Benefiting(awards[k..|awards| - 1], c.beneficiaries, reward - pool, c.percentDollars)
    && awards[|awards| - 1]
    == Award(c.author, reward - pool - Tokens(awards[k..|awards| - 1]), c.percentDollars, false)
  }

  /** A payout makes the awards of the comment one after the other, and charges what they come to. */
  lemma CashoutAwards(w: Wallets, c: Comment, reward: int, m: Market)
    returns (pool: int, awards: seq<Award>, states: seq<Wallets>)
    requires CommentOk(c) && reward > 0 && CashedOut(w, c, reward, m).Ok?
    ensures AwardsOf(c, reward, pool, awards) && Pays(states, awards, m)
    ensures states[0] == w && states[|awards|] == CashedOut(w, c, reward, m).value
    ensures Tokens(awards) == Claimable(c, reward)
  {
    hide CuratorsPaid, BeneficiariesPaid, SplitTo, Share, Benefits, Claims, Tokens, RoundedDown, Follows, Curating,
         Benefiting;
    pool := Share(reward, c.curationPercent);
    ShareRounds(reward, c.curationPercent);
    ShareWithin(reward, c.curationPercent);
    var curated := c.allowCuration && c.totalWeight > 0;
    var first, through := [], [w];
    var k := if curated then |c.votes| else 0;
    assert c.votes[..|c.votes|] == c.votes;
    NoAwards(c, pool);
    if curated { first, through := CuratorsAwarded(w, c.votes, c.totalWeight, pool, m); }
    var v := through[|first|];
    var second, on := BeneficiariesAwarded(v, c.beneficiaries, reward - pool, c.percentDollars, m);
    PaysBoth(through, first, on, second, m);
    TokensBoth(first, second);
    awards, states := AuthorAwarded(c, reward - pool, first, second, through + on[1..], m);
    assert Tokens(awards) == Claimable(c, reward);
  }

  lemma NoAwards(c: Comment, pool: int)
    ensures Curating([], c.votes[..0], c.totalWeight, pool) && Tokens([]) == 0
    ensures Curating([], [], c.totalWeight, pool)
  {
  }

  lemma AuthorAwarded(c: Comment, tokens: int, first: seq<Award>, second: seq<Award>, before: seq<Wallets>, m: Market)
    returns (awards: seq<Award>, states: seq<Wallets>)
    requires Pays(before, first + second, m)
    requires var u := before[|before| - 1]; SplitTo(u, c.author, tokens - Tokens(second), c.percentDollars, m).Ok?
    ensures awards == first + second + [Award(c.author, tokens - Tokens(second), c.percentDollars, false)]
    ensures Pays(states, awards, m) && states[0] == before[0]
    ensures var u := before[|before| - 1];
            states[|awards|] == SplitTo(u, c.author, tokens - Tokens(second), c.percentDollars, m).value
    ensures Tokens(awards) == Tokens(first + second) + tokens - Tokens(second)
    ensures awards[..|first|] == first && awards[|first|..|awards| - 1] == second
  {
    hide SplitTo, Awarded;
    var u := before[|before| - 1];
    var last := Award(c.author, tokens - Tokens(second), c.percentDollars, false);
    SplitAwarded(u, c.author, last.tokens, c.percentDollars, m);
    var v := SplitTo(u, c.author, last.tokens, c.percentDollars, m).value;
    awards, states := first + second + [last], before + [v];
    assert Pays([u, v], [last], m);
    PaysBoth(before, first + second, [u, v], [last], m);
    TokensBoth(first + second, [last]);
    assert states == before + [u, v][1..];
  }

  lemma {:induction false} CuratingPays(states: seq<Wallets>, awards: seq<Award>, votes: seq<(Name, nat)>, total: nat,
                                        max: int, m: Market)
    requires total > 0 && max >= 0 && Curating(awards, votes, total, max) && Pays(states, awards, m)
    ensures CuratorsPaid(states[0], votes, total, max) == Ok(states[|awards|])
    ensures Tokens(awards) == Claims(votes, total, max)
  {
    hide VestedTo, Floor, RoundedDown, Awarded;
    if votes != [] {
      var i := |votes| - 1;
      PaysInit(states, awards, m);
      CuratingPays(states[..|awards|], awards[..i], votes[..i], total, max, m);
      var claim := Floor(max, votes[i].1, total);
      FloorSigned(max, votes[i].1, total);
      FloorRounds(max, votes[i].1, total);
      RoundedOnce(claim, awards[i].tokens, max, votes[i].1, total);
      VestedAwards(states[i], states[i + 1], votes[i].0, claim, m);
      assert Follows(states[i], states[i + 1], awards[i], m);
    }
  }

  lemma {:induction false} BenefitingPays(states: seq<Wallets>, awards: seq<Award>, bs: seq<(Name, int)>, tokens: int,
                                          percentDollars: int, m: Market)
    requires tokens >= 0 && (forall i :: 0 <= i < |bs| ==> bs[i].1 >= 0)
    requires Benefiting(awards, bs, tokens, percentDollars) && Pays(states, awards, m)
    ensures BeneficiariesPaid(states[0], bs, tokens, percentDollars, m) == Ok(states[|awards|])
    ensures Tokens(awards) == Benefits(bs, tokens)
  {
    hide SplitTo, Share, RoundedDown, Awarded;
    if bs != [] {
      var i := |bs| - 1;
      PaysInit(states, awards, m);
      BenefitingPays(states[..|awards|], awards[..i], bs[..i], tokens, percentDollars, m);
      var part := Share(tokens, bs[i].1);
      ShareRounds(tokens, bs[i].1);
      RoundedOnce(part, awards[i].tokens, tokens, bs[i].1, HUNDRED_PERCENT);
      SplitAwards(states[i], states[i + 1], bs[i].0, part, percentDollars, m);
      assert Follows(states[i], states[i + 1], awards[i], m);
    }
  }

  lemma PaysParts(states: seq<Wallets>, awards: seq<Award>, m: Market, k: nat)
    requires Pays(states, awards, m) && k <= |awards|
    ensures |states| == |awards| + 1
    ensures Pays(states[..k + 1], awards[..k], m) && Pays(states[k..], awards[k..], m)
  {
    hide Follows;
    forall i | 0 <= i < k ensures Follows(states[..k + 1][i], states[..k + 1][i + 1], awards[..k][i], m) {
      assert Follows(states[i], states[i + 1], awards[i], m);
    }
    forall i | 0 <= i < |awards| - k ensures Follows(states[k..][i], states[k..][i + 1], awards[k..][i], m) {
      assert Follows(states[k + i], states[k + i + 1], awards[k + i], m);
    }
  }

  lemma AwardsAuthor(c: Comment, tokens: int, m: Market, awards: seq<Award>, states: seq<Wallets>)
    requires CommentOk(c) && tokens >= 0 && awards != [] && Pays(states, awards, m)
    requires var n := |awards| - 1;
             && Benefiting(awards[..n], c.beneficiaries, tokens, c.percentDollars)
             && awards[n] == Award(c.author, tokens - Tokens(awards[..n]), c.percentDollars, false)
    ensures AuthorPaid(states[0], c, tokens, m) == Ok(states[|awards|]) && Tokens(awards) == tokens
  {
    hide BeneficiariesPaid, SplitTo, Benefits, Benefiting, Awarded;
    var n := |awards| - 1;
    PaysInit(states, awards, m);
    BenefitingPays(states[..n + 1], awards[..n], c.beneficiaries, tokens, c.percentDollars, m);
    assert Follows(states[n], states[n + 1], awards[n], m);
    SplitAwards(states[n], states[n + 1], c.author, awards[n].tokens, c.percentDollars, m);
  }

  lemma CashOutInTwo(c: Comment, reward: int, m: Market, pool: int, w: Wallets, v: Wallets, u: Wallets, claims: int)
    requires CommentOk(c) && reward > 0 && RoundedDown(pool, reward, c.curationPercent, HUNDRED_PERCENT)
    requires if c.allowCuration && c.totalWeight > 0
             then && CuratorsPaid(w, c.votes, c.totalWeight, pool) == Ok(v)
                  && claims == Claims(c.votes, c.totalWeight, pool)
             else w == v && claims == 0
    requires pool <= reward && AuthorPaid(v, c, reward - pool, m) == Ok(u)
    ensures CashedOut(w, c, reward, m) == Ok(u) && Claimable(c, reward) == claims + (reward - pool)
  {
    hide CuratorsPaid, AuthorPaid, Share, Claims, RoundedDown;
    ShareRounds(reward, c.curationPercent);
    ShareWithin(reward, c.curationPercent);
    RoundedOnce(pool, Share(reward, c.curationPercent), reward, c.curationPercent, HUNDRED_PERCENT);
  }

  lemma PoolWithin(c: Comment, reward: int, pool: int)
    requires CommentOk(c) && reward > 0 && RoundedDown(pool, reward, c.curationPercent, HUNDRED_PERCENT)
    ensures 0 <= pool <= reward
  {
    hide Share, RoundedDown;
    ShareRounds(reward, c.curationPercent);
    ShareWithin(reward, c.curationPercent);
    RoundedOnce(pool, Share(reward, c.curationPercent), reward, c.curationPercent, HUNDRED_PERCENT);
  }

  /** No other run of awards of a comment is paid than the one a payout makes. */
  lemma AwardsCashOut(c: Comment, reward: int, m: Market, pool: int, awards: seq<Award>, states: seq<Wallets>)
    requires CommentOk(c) && reward > 0 && AwardsOf(c, reward, pool, awards) && Pays(states, awards, m)
    ensures CashedOut(states[0], c, reward, m) == Ok(states[|awards|])
    ensures Tokens(awards) == Claimable(c, reward)
  {
    hide CuratorsPaid, AuthorPaid, CashedOut, Claimable, CommentOk, Claims, Tokens, RoundedDown, Curating, Benefiting,
         Follows, Pays;
    PoolWithin(c, reward, pool);
    var k := if c.allowCuration && c.totalWeight > 0 then |c.votes| else 0;
    PaysParts(states, awards, m, k);
    var first, rest := awards[..k], awards[k..];
    assert first + rest == awards && rest[..|rest| - 1] == awards[k..|awards| - 1];
    NoAwards(c, pool);
    if c.allowCuration && c.totalWeight > 0 {
      assert c.votes[..|c.votes|] == c.votes;
      CuratingPays(states[..k + 1], first, c.votes, c.totalWeight, pool, m);
    }
    AwardsAuthor(c, reward - pool, m, rest, states[k..]);
    TokensBoth(first, rest);
    CashOutInTwo(c, reward, m, pool, states[0], states[k], states[|awards|], Tokens(first));
  }

  // ----- what an account's awards add to it -----

  function PlusParts(a: Parts, b: Parts): Parts
  {
    Parts(a.delta + b.delta, a.rewardDelta + b.rewardDelta, a.rewardDbd + b.rewardDbd, a.rewardVests + b.rewardVests,
          a.backing + b.backing)
  }

  /** All parts of an account's own awards. */
  function PartsTo(states: seq<Wallets>, awards: seq<Award>, m: Market, n: Name): Parts
    requires |states| == |awards| + 1
  {
    if awards == [] then Parts(0, 0, 0, 0, 0)
    else
      var i := |awards| - 1;
      var before := PartsTo(states[..|awards|], awards[..i], m, n);
      if awards[i].to != n then before
      else PlusParts(before, PartsOf(states[i].globals, states[i + 1].globals, awards[i].tokens, m))
  }

  /** Field by field, an account grows by its own awards and by nothing else. */
  lemma {:induction false} AwardsAdd(states: seq<Wallets>, awards: seq<Award>, m: Market, n: Name)
    requires Pays(states, awards, m) && n in states[0].accounts
    ensures states[|awards|].accounts.Keys == states[0].accounts.Keys
    ensures states[|awards|].accounts[n] == Plus(states[0].accounts[n], PartsTo(states, awards, m, n))
  {
    hide RoundedDown, RatioKept;
    if awards != [] {
      var i := |awards| - 1;
      PaysInit(states, awards, m);
      AwardsAdd(states[..|awards|], awards[..i], m, n);
      assert Follows(states[i], states[i + 1], awards[i], m);
    }
  }

  lemma PaysInit(states: seq<Wallets>, awards: seq<Award>, m: Market)
    requires Pays(states, awards, m) && awards != []
    ensures Pays(states[..|awards|], awards[..|awards| - 1], m)
  {
    hide Follows;
    forall i | 0 <= i < |awards| - 1
      ensures Follows(states[..|awards|][i], states[..|awards|][i + 1], awards[..|awards| - 1][i], m)
    {
      assert Follows(states[i], states[i + 1], awards[i], m);
    }
  }

  /** From one state of the accounts to another by awards, with what these add to every account. */
  ghost predicate Leads(w: Wallets, v: Wallets, states: seq<Wallets>, awards: seq<Award>, m: Market)
  {
    && Pays(states, awards, m) && states[0] == w && states[|awards|] == v
    && v.accounts.Keys == w.accounts.Keys
    && forall n :: n in w.accounts ==> v.accounts[n] == Plus(w.accounts[n], PartsTo(states, awards, m, n))
  }

  lemma PaysLeads(states: seq<Wallets>, awards: seq<Award>, m: Market)
    requires Pays(states, awards, m)
    ensures Leads(states[0], states[|awards|], states, awards, m)
  {
    hide Plus, PartsTo;
    KeysStay(states, awards, m);
    forall n | n in states[0].accounts
      ensures states[|awards|].accounts[n] == Plus(states[0].accounts[n], PartsTo(states, awards, m, n))
    {
      AwardsAdd(states, awards, m, n);
    }
  }

  lemma {:induction false} KeysStay(states: seq<Wallets>, awards: seq<Award>, m: Market)
    requires Pays(states, awards, m)
    ensures states[|awards|].accounts.Keys == states[0].accounts.Keys
  {
    hide RoundedDown, RatioKept, PartsOf, Plus;
    if awards != [] {
      PaysInit(states, awards, m);
      KeysStay(states[..|awards|], awards[..|awards| - 1], m);
      assert Follows(states[|awards| - 1], states[|awards|], awards[|awards| - 1], m);
    }
  }

  /** A paid comment: its awards, what they add to every account, and what they come to. */
  ghost predicate PaidOut(w: Wallets, v: Wallets, c: Comment, reward: int, m: Market, claimed: int)
  {
    if reward == 0 then v == w && claimed == 0
    else exists pool, awards, states :: && AwardsOf(c, reward, pool, awards) && Leads(w, v, states, awards, m)
                                        && claimed == Tokens(awards)
  }

  /** A payout ends there exactly. */
  lemma CashoutExact(w: Wallets, v: Wallets, c: Comment, reward: int, m: Market, claimed: int)
    requires CommentOk(c) && reward >= 0
    ensures CashedOut(w, c, reward, m) == Ok(v) && Claimable(c, reward) == claimed <==>
            PaidOut(w, v, c, reward, m, claimed)
  {
    hide Tokens, AwardsOf, Pays, PartsTo, Plus, Claims, Share;
    if reward > 0 {
      if CashedOut(w, c, reward, m) == Ok(v) && Claimable(c, reward) == claimed {
        var pool, awards, states := CashoutAwards(w, c, reward, m);
        PaysLeads(states, awards, m);
        assert AwardsOf(c, reward, pool, awards) && Leads(w, v, states, awards, m);
      }
      if PaidOut(w, v, c, reward, m, claimed) {
        var pool, awards, states :| AwardsOf(c, reward, pool, awards) && Leads(w, v, states, awards, m)
          && claimed == Tokens(awards);
        AwardsCashOut(c, reward, m, pool, awards, states);
      }
    }
  }

  /** The same for the beneficiaries' part. */
  ghost predicate Benefited(w: Wallets, v: Wallets, bs: seq<(Name, int)>, tokens: int, percentDollars: int, m: Market,
                            total: int)
  {
    exists awards, states :: && Benefiting(awards, bs, tokens, percentDollars) && Leads(w, v, states, awards, m)
                             && total == Tokens(awards)
  }

  lemma BenefitsExact(w: Wallets, v: Wallets, bs: seq<(Name, int)>, tokens: int, percentDollars: int, m: Market,
                      total: int)
    requires tokens >= 0 && forall i :: 0 <= i < |bs| ==> bs[i].1 >= 0
    ensures BeneficiariesPaid(w, bs, tokens, percentDollars, m) == Ok(v) && Benefits(bs, tokens) == total <==>
            Benefited(w, v, bs, tokens, percentDollars, m, total)
  {
    hide Tokens, Pays, PartsTo, Plus, Benefiting, BeneficiariesPaid, Benefits;
    if BeneficiariesPaid(w, bs, tokens, percentDollars, m) == Ok(v) && Benefits(bs, tokens) == total {
      var awards, states := BeneficiariesAwarded(w, bs, tokens, percentDollars, m);
      PaysLeads(states, awards, m);
      assert Benefiting(awards, bs, tokens, percentDollars) && Leads(w, v, states, awards, m);
    }
    if Benefited(w, v, bs, tokens, percentDollars, m, total) {
      var awards, states :| Benefiting(awards, bs, tokens, percentDollars) && Leads(w, v, states, awards, m)
        && total == Tokens(awards);
      BenefitingPays(states, awards, bs, tokens, percentDollars, m);
    }
  }

  /** The same for the curators. */
  ghost predicate Curated(w: Wallets, v: Wallets, votes: seq<(Name, nat)>, total: nat, max: int, m: Market,
                          claimed: int)
  {
    exists awards, states :: && Curating(awards, votes, total, max) && Leads(w, v, states, awards, m)
                             && claimed == Tokens(awards)
  }

  lemma CuratorsExact(w: Wallets, v: Wallets, votes: seq<(Name, nat)>, total: nat, max: int, m: Market, claimed: int)
    requires total > 0 && max >= 0
    ensures CuratorsPaid(w, votes, total, max) == Ok(v) && Claims(votes, total, max) == claimed <==>
            Curated(w, v, votes, total, max, m, claimed)
  {
    hide Tokens, Pays, PartsTo, Plus, Curating, CuratorsPaid, Claims;
    if CuratorsPaid(w, votes, total, max) == Ok(v) && Claims(votes, total, max) == claimed {
      var awards, states := CuratorsAwarded(w, votes, total, max, m);
      PaysLeads(states, awards, m);
      assert Curating(awards, votes, total, max) && Leads(w, v, states, awards, m);
    }
    if Curated(w, v, votes, total, max, m, claimed) {
      var awards, states :| Curating(awards, votes, total, max) && Leads(w, v, states, awards, m)
        && claimed == Tokens(awards);
      CuratingPays(states, awards, votes, total, max, m);
    }
  }

  // ----- what each account gets -----

  /** An account's DELTA: liquid, unclaimed, and behind unclaimed shares. */
  function Kept(p: Purse): int
  {
    p.delta + p.rewardDelta + p.rewardVestingDelta
  }

  /** What a reward leaves as DELTA. */
  function NetSplit(tokens: int, percentDollars: int, m: Market): int
  {
    tokens - Printed(Dollars(tokens, percentDollars), m)
  }

  function ClaimsOf(votes: seq<(Name, nat)>, total: nat, max: int, n: Name): int
    requires total > 0
  {
    if votes == [] then 0
    else
      var last := votes[|votes| - 1];
      ClaimsOf(votes[..|votes| - 1], total, max, n) + if last.0 == n then Floor(max, last.1, total) else 0
  }

  function BenefitsOf(bs: seq<(Name, int)>, tokens: int, percentDollars: int, m: Market, n: Name): int
    requires tokens >= 0 && forall i :: 0 <= i < |bs| ==> bs[i].1 >= 0
  {
    if bs == [] then 0
    else
      var last := bs[|bs| - 1];
      BenefitsOf(bs[..|bs| - 1], tokens, percentDollars, m, n)
      + if last.0 == n then NetSplit(Share(tokens, last.1), percentDollars, m) else 0
  }

  /** What a comment's payout is worth to an account, as curator, beneficiary and author. */
  function Earned(c: Comment, reward: int, m: Market, n: Name): int
    requires CommentOk(c) && reward >= 0
  {
    ShareWithin(reward, c.curationPercent);
    var pool := Share(reward, c.curationPercent);
    if reward == 0 then 0
    else
    (if c.allowCuration && c.totalWeight > 0 then ClaimsOf(c.votes, c.totalWeight, pool, n) else 0)
    + BenefitsOf(c.beneficiaries, reward - pool, c.percentDollars, m, n)
    + if c.author != n then 0
      else NetSplit(reward - pool - Benefits(c.beneficiaries, reward - pool), c.percentDollars, m)
  }

  lemma VestedGains(w: Wallets, name: Name, liquid: int, n: Name)
    requires VestedTo(w, name, liquid).Ok? && n in w.accounts
    ensures var v := VestedTo(w, name, liquid).value;
            && v.accounts.Keys == w.accounts.Keys
            && Kept(v.accounts[n]) == Kept(w.accounts[n]) + if n == name then liquid else 0
  {
  }

  lemma DbdGains(w: Wallets, name: Name, amount: int, m: Market, n: Name)
    requires DbdTo(w, name, amount, m).Ok? && n in w.accounts
    ensures var v := DbdTo(w, name, amount, m).value;
            && v.accounts.Keys == w.accounts.Keys
            && Kept(v.accounts[n]) == Kept(w.accounts[n]) + if n == name then amount - Printed(amount, m) else 0
  {
    if amount == 0 { assert m.printRate * amount == 0; }
  }

  lemma SplitGains(w: Wallets, name: Name, tokens: int, percentDollars: int, m: Market, n: Name)
    requires SplitTo(w, name, tokens, percentDollars, m).Ok? && n in w.accounts
    ensures var v := SplitTo(w, name, tokens, percentDollars, m).value;
            && v.accounts.Keys == w.accounts.Keys
            && Kept(v.accounts[n]) == Kept(w.accounts[n]) + if n == name then NetSplit(tokens, percentDollars, m) else 0
  {
    hide DbdTo, VestedTo, Kept, Printed, Dollars;
    var dollars := Dollars(tokens, percentDollars);
    DbdGains(w, name, dollars, m, n);
    VestedGains(DbdTo(w, name, dollars, m).value, name, tokens - dollars, n);
  }

  lemma {:induction false} CuratorsGain(w: Wallets, votes: seq<(Name, nat)>, total: nat, max: int, n: Name)
    requires total > 0 && max >= 0 && CuratorsPaid(w, votes, total, max).Ok? && n in w.accounts
    ensures var v := CuratorsPaid(w, votes, total, max).value;
            && v.accounts.Keys == w.accounts.Keys
            && Kept(v.accounts[n]) == Kept(w.accounts[n]) + ClaimsOf(votes, total, max, n)
  {
    hide VestedTo, Kept, Floor;
    if votes != [] {
      var init, last := votes[..|votes| - 1], votes[|votes| - 1];
      CuratorsGain(w, init, total, max, n);
      FloorSigned(max, last.1, total);
      var claim := Floor(max, last.1, total);
      if claim > 0 { VestedGains(CuratorsPaid(w, init, total, max).value, last.0, claim, n); }
    }
  }

  lemma {:induction false} BeneficiariesGain(w: Wallets, bs: seq<(Name, int)>, tokens: int, percentDollars: int,
                                             m: Market, n: Name)
    requires tokens >= 0 && (forall i :: 0 <= i < |bs| ==> bs[i].1 >= 0) && n in w.accounts
    requires BeneficiariesPaid(w, bs, tokens, percentDollars, m).Ok?
    ensures var v := BeneficiariesPaid(w, bs, tokens, percentDollars, m).value;
            && v.accounts.Keys == w.accounts.Keys
            && Kept(v.accounts[n]) == Kept(w.accounts[n]) + BenefitsOf(bs, tokens, percentDollars, m, n)
            && Benefited(w, v, bs, tokens, percentDollars, m, Benefits(bs, tokens))
  {
    hide Benefited, SplitTo, NetSplit, Kept, Share;
    BenefitsExact(w, BeneficiariesPaid(w, bs, tokens, percentDollars, m).value, bs, tokens, percentDollars, m,
                  Benefits(bs, tokens));
    if bs != [] {
      var init, last := bs[..|bs| - 1], bs[|bs| - 1];
      BeneficiariesGain(w, init, tokens, percentDollars, m, n);
      var v := BeneficiariesPaid(w, init, tokens, percentDollars, m).value;
      SplitGains(v, last.0, Share(tokens, last.1), percentDollars, m, n);
    }
  }

  /** Every account gets what is due to it, whatever the order of payment, and no other account anything. */
  lemma CashoutPays(w: Wallets, c: Comment, reward: int, m: Market, n: Name)
    requires CommentOk(c) && reward >= 0 && CashedOut(w, c, reward, m).Ok? && n in w.accounts
    ensures var v := CashedOut(w, c, reward, m).value;
            v.accounts.Keys == w.accounts.Keys && Kept(v.accounts[n]) == Kept(w.accounts[n]) + Earned(c, reward, m, n)
    ensures PaidOut(w, CashedOut(w, c, reward, m).value, c, reward, m, Claimable(c, reward))
  {
    hide PaidOut, CuratorsPaid, BeneficiariesPaid, SplitTo, NetSplit, Kept, Share, Benefits, ClaimsOf, BenefitsOf;
    CashoutExact(w, CashedOut(w, c, reward, m).value, c, reward, m, Claimable(c, reward));
    if reward == 0 { return; }
    ShareWithin(reward, c.curationPercent);
    var pool := Share(reward, c.curationPercent);
    var v := w;
    if c.allowCuration && c.totalWeight > 0 {
      CuratorsGain(w, c.votes, c.totalWeight, pool, n);
      v := CuratorsPaid(w, c.votes, c.totalWeight, pool).value;
    }
    BeneficiariesGain(v, c.beneficiaries, reward - pool, c.percentDollars, m, n);
    var u := BeneficiariesPaid(v, c.beneficiaries, reward - pool, c.percentDollars, m).value;
    SplitGains(u, c.author, reward - pool - Benefits(c.beneficiaries, reward - pool), c.percentDollars, m, n);
  }
}
