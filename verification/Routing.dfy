/**
 One interval of a power-down: withdraw routes that deposit shares, routes that sell them, and what is left
 for the account itself.
 */
module Routing {
  import opened Common
  import opened OrderMath
  import opened Holdings
  import opened Bookkeeping
  import opened Settlement

  datatype Route = Route(to: Name, percent: int, autoVest: bool)

  /** What the routes of one kind get of an interval. */
  function Deposits(amount: int, routes: seq<Route>, autoVest: bool): (r: int)
    requires amount >= 0 && forall i :: 0 <= i < |routes| ==> routes[i].percent >= 0
  {
    if routes == [] then 0
    else
      var last := routes[|routes| - 1];
      Deposits(amount, routes[..|routes| - 1], autoVest)
      + if last.autoVest == autoVest then Share(amount, last.percent) else 0
  }

  function PercentTotal(routes: seq<Route>): int
  {
    if routes == [] then 0 else PercentTotal(routes[..|routes| - 1]) + routes[|routes| - 1].percent
  }

  lemma {:induction false} DepositsScaled(amount: int, routes: seq<Route>)
    requires amount >= 0 && forall i :: 0 <= i < |routes| ==> routes[i].percent >= 0
    ensures var deposits := Deposits(amount, routes, true) + Deposits(amount, routes, false);
            deposits * HUNDRED_PERCENT <= amount * PercentTotal(routes)
  {
    if routes != [] {
      var init, last := routes[..|routes| - 1], routes[|routes| - 1];
      DepositsScaled(amount, init);
      FloorGalois(amount, last.percent, HUNDRED_PERCENT, Share(amount, last.percent));
      Distribute(Deposits(amount, init, true) + Deposits(amount, init, false), Share(amount, last.percent),
                 HUNDRED_PERCENT);
      Distribute(PercentTotal(init), last.percent, amount);
    }
  }

  /** Routes of at most 100% together never get more than the interval's amount. */
  lemma RoutedWithin(amount: int, routes: seq<Route>)
    requires amount >= 0 && PercentTotal(routes) <= HUNDRED_PERCENT
    requires forall i :: 0 <= i < |routes| ==> routes[i].percent >= 0
    ensures Deposits(amount, routes, true) + Deposits(amount, routes, false) <= amount
  {
    DepositsScaled(amount, routes);
    ScaleRight(amount, PercentTotal(routes), HUNDRED_PERCENT);
  }

  lemma NoDeposits(amount: int, routes: seq<Route>)
    requires amount >= 0 && forall i :: 0 <= i < |routes| ==> routes[i].percent >= 0
    ensures Deposits(amount, routes[..0], true) == Deposits(amount, routes[..0], false) == 0
  {
  }

  lemma NextDeposit(amount: int, routes: seq<Route>, i: nat)
    requires amount >= 0 && i < |routes| && forall j :: 0 <= j < |routes| ==> routes[j].percent >= 0
    ensures Deposits(amount, routes[..i + 1], true)
         == Deposits(amount, routes[..i], true) + if routes[i].autoVest then Share(amount, routes[i].percent) else 0
    ensures Deposits(amount, routes[..i + 1], false)
         == Deposits(amount, routes[..i], false) + if routes[i].autoVest then 0 else Share(amount, routes[i].percent)
  {
    assert routes[..i + 1][..i] == routes[..i];
  }

  function Sold(w: Wallets, to: Name, shares: int, charged: int): Outcome<Wallets>
    requires to in w.accounts
  {
    match WorthOf(w.globals, shares)
    case Aborted => Aborted
    case Ok(worth) =>
      var p := w.accounts[to];
      Ok(Wallets(w.accounts[to := p.(delta := p.delta + worth, vests := p.vests - charged)],
                 w.globals.(vestingFund := w.globals.vestingFund - worth, totalVests := w.globals.totalVests - shares)))
  }

  /** One route in one of the two passes over them: shares are deposited first and sold second. */
  function RoutePaid(w: Wallets, amount: int, r: Route, selling: bool): Outcome<Wallets>
    requires amount >= 0 && r.percent >= 0
  {
    var deposit := Share(amount, r.percent);
    if r.autoVest == selling then Ok(w)
    else if r.to !in w.accounts then if selling || deposit > 0 then Aborted else Ok(w)
    else if deposit == 0 then Ok(w)
    else if selling then Sold(w, r.to, deposit, 0)
    else Ok(w.(accounts := w.accounts[r.to := w.accounts[r.to].(vests := w.accounts[r.to].vests + deposit)]))
  }

  function RoutesPaid(w: Wallets, amount: int, routes: seq<Route>, selling: bool): Outcome<Wallets>
    requires amount >= 0 && forall i :: 0 <= i < |routes| ==> routes[i].percent >= 0
  {
    if routes == [] then Ok(w)
    else
      match RoutesPaid(w, amount, routes[..|routes| - 1], selling)
      case Aborted => Aborted
      case Ok(v) => RoutePaid(v, amount, routes[|routes| - 1], selling)
  }

  lemma NoRoutes(w: Wallets, amount: int, routes: seq<Route>, selling: bool)
    requires amount >= 0 && forall i :: 0 <= i < |routes| ==> routes[i].percent >= 0
    ensures RoutesPaid(w, amount, routes[..0], selling) == Ok(w)
  {
  }

  lemma NextRoute(w: Wallets, amount: int, routes: seq<Route>, selling: bool, i: nat)
    requires amount >= 0 && i < |routes| && forall j :: 0 <= j < |routes| ==> routes[j].percent >= 0
    requires RoutesPaid(w, amount, routes[..i], selling).Ok?
    ensures RoutesPaid(w, amount, routes[..i + 1], selling)
         == RoutePaid(RoutesPaid(w, amount, routes[..i], selling).value, amount, routes[i], selling)
  {
    assert routes[..i + 1][..i] == routes[..i];
  }

  lemma {:induction false} RoutesAbort(w: Wallets, amount: int, routes: seq<Route>, selling: bool, i: nat)
    requires amount >= 0 && i < |routes| && forall j :: 0 <= j < |routes| ==> routes[j].percent >= 0
    requires RoutesPaid(w, amount, routes[..i + 1], selling).Aborted?
    ensures RoutesPaid(w, amount, routes, selling).Aborted?
    decreases |routes|
  {
    var n := |routes| - 1;
    if i == n {
      assert routes[..i + 1] == routes;
    } else {
      assert routes[..n][..i + 1] == routes[..i + 1];
      RoutesAbort(w, amount, routes[..n], selling, i);
    }
  }

  /** One interval of a power-down. */
  function Interval(w: Wallets, from: Name, amount: int, routes: seq<Route>): Outcome<Wallets>
    requires amount >= 0 && forall i :: 0 <= i < |routes| ==> routes[i].percent >= 0
  {
    match RoutesPaid(w, amount, routes, false)
    case Aborted => Aborted
    case Ok(v) =>
      match RoutesPaid(v, amount, routes, true)
      case Aborted => Aborted
      case Ok(u) =>
        var rest := amount - Deposits(amount, routes, false) - Deposits(amount, routes, true);
        if rest < 0 || from !in u.accounts then Aborted else Sold(u, from, rest, amount)
  }

  /** The shares that routes deposit with an account. */
  function SharesTo(amount: int, routes: seq<Route>, n: Name): int
    requires amount >= 0 && forall i :: 0 <= i < |routes| ==> routes[i].percent >= 0
  {
    if routes == [] then 0
    else
      var last := routes[|routes| - 1];
      SharesTo(amount, routes[..|routes| - 1], n)
      + if last.autoVest && last.to == n then Share(amount, last.percent) else 0
  }

  lemma {:induction false} RoutesGain(w: Wallets, amount: int, routes: seq<Route>, selling: bool, n: Name)
    requires amount >= 0 && (forall i :: 0 <= i < |routes| ==> routes[i].percent >= 0) && n in w.accounts
    requires RoutesPaid(w, amount, routes, selling).Ok?
    ensures var v := RoutesPaid(w, amount, routes, selling).value;
            && v.accounts.Keys == w.accounts.Keys && v.accounts[n].delta >= w.accounts[n].delta
            && v.accounts[n].vests == w.accounts[n].vests + if selling then 0 else SharesTo(amount, routes, n)
  {
    hide Share, WorthOf;
    if routes != [] { RoutesGain(w, amount, routes[..|routes| - 1], selling, n); }
  }

  /** An interval takes its amount from the account and gives others exactly what is routed to them. */
  lemma IntervalPays(w: Wallets, from: Name, amount: int, routes: seq<Route>, n: Name)
    requires amount >= 0 && (forall i :: 0 <= i < |routes| ==> routes[i].percent >= 0) && n in w.accounts
    requires Interval(w, from, amount, routes).Ok?
    ensures var v := Interval(w, from, amount, routes).value;
            && v.accounts.Keys == w.accounts.Keys && v.accounts[n].delta >= w.accounts[n].delta
            && var gained := SharesTo(amount, routes, n);
               v.accounts[n].vests == w.accounts[n].vests + gained - if n == from then amount else 0
  {
    hide RoutesPaid, WorthOf, Deposits, SharesTo;
    RoutesGain(w, amount, routes, false, n);
    RoutesGain(RoutesPaid(w, amount, routes, false).value, amount, routes, true, n);
  }

  lemma {:induction false} DepositsSigned(amount: int, routes: seq<Route>, autoVest: bool)
    requires amount >= 0 && forall i :: 0 <= i < |routes| ==> routes[i].percent >= 0
    ensures Deposits(amount, routes, autoVest) >= 0
  {
    hide Share;
    if routes != [] { DepositsSigned(amount, routes[..|routes| - 1], autoVest); }
  }

  lemma {:induction false} RoutesTotal(w: Wallets, amount: int, routes: seq<Route>, selling: bool)
    requires amount >= 0 && forall i :: 0 <= i < |routes| ==> routes[i].percent >= 0
    requires RoutesPaid(w, amount, routes, selling).Ok?
    ensures RoutesPaid(w, amount, routes, selling).value.globals.totalVests
         == w.globals.totalVests - if selling then Deposits(amount, routes, false) else 0
  {
    hide Share, WorthOf;
    if routes != [] { RoutesTotal(w, amount, routes[..|routes| - 1], selling); }
  }

  /** An interval takes out of the share total what is sold, by the account and by its routes. */
  lemma IntervalTotal(w: Wallets, from: Name, amount: int, routes: seq<Route>)
    requires amount >= 0 && forall i :: 0 <= i < |routes| ==> routes[i].percent >= 0
    requires Interval(w, from, amount, routes).Ok?
    ensures 0 <= Deposits(amount, routes, true) <= amount
    ensures Interval(w, from, amount, routes).value.globals.totalVests
         == w.globals.totalVests - (amount - Deposits(amount, routes, true))
  {
    hide RoutesPaid, WorthOf, Deposits;
    DepositsSigned(amount, routes, true);
    DepositsSigned(amount, routes, false);
    RoutesTotal(w, amount, routes, false);
    RoutesTotal(RoutesPaid(w, amount, routes, false).value, amount, routes, true);
  }
}
