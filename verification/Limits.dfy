/**
 What the tables of votes and of withdraw routes promise the ledger. The votes of a comment and the routes
 of an account are listed in some order when they are paid; whatever the order, curators stay within their
 pool, and an interval of a power-down is never short of shares.
 */
module Limits {
  import opened Common
  import opened Sums
  import opened OrderMath
  import opened Holdings
  import opened Settlement
  import Curation
  import Delegation
  import opened Routing
  import opened Rewards

  /** `order` holds every element of `all` once. */
  ghost predicate Lists<T(!new)>(order: seq<T>, all: set<T>)
  {
    && (forall x :: x in order <==> x in all)
    && forall i, j :: 0 <= i < j < |order| ==> order[i] != order[j]
  }

  lemma ListsInit<T(!new)>(order: seq<T>, all: set<T>)
    requires Lists(order, all) && order != []
    ensures var last := order[|order| - 1]; last in all && Lists(order[..|order| - 1], all - {last})
  {
    var init, last := order[..|order| - 1], order[|order| - 1];
    forall x ensures x in init <==> x in all - {last} {
      if x in all && x != last {
        var i :| 0 <= i < |order| && order[i] == x;
        assert init[i] == x;
      }
    }
  }

  // ----- votes -----

  predicate Weighted(votes: Curation.Votes, order: seq<Name>)
  {
    forall i :: 0 <= i < |order| ==> order[i] in votes && votes[order[i]].weight >= 0
  }

  function ListedVotes(votes: Curation.Votes, order: seq<Name>): (r: seq<(Name, nat)>)
    requires Weighted(votes, order)
    ensures |r| == |order|
  {
    if order == [] then []
    else
      var last := order[|order| - 1];
      ListedVotes(votes, order[..|order| - 1]) + [(last, votes[last].weight)]
  }

  lemma {:induction false} ListedWeights(votes: Curation.Votes, order: seq<Name>, all: set<Name>)
    requires Weighted(votes, order) && Lists(order, all)
    ensures VoteWeights(ListedVotes(votes, order)) == Sum(all, n => Curation.WeightTerm(votes, n))
  {
    if order == [] {
      assert all == {};
    } else {
      var init, last := order[..|order| - 1], order[|order| - 1];
      ListsInit(order, all);
      ListedWeights(votes, init, all - {last});
      SumRemove(all, last, n => Curation.WeightTerm(votes, n));
      var listed := ListedVotes(votes, order);
      assert listed[..|listed| - 1] == ListedVotes(votes, init);
    }
  }

  /** The votes of a comment never claim more than the pool, in whatever order they are paid. */
  lemma CuratorsWithin(c: Curation.Comment, order: seq<Name>, pool: int)
    requires c.Valid() && Lists(order, c.votes.Keys) && pool >= 0
    ensures Weighted(c.votes, order) && c.totalWeight >= 0
    ensures VoteWeights(ListedVotes(c.votes, order)) <= c.totalWeight
    ensures c.totalWeight > 0 ==> Claims(ListedVotes(c.votes, order), c.totalWeight, pool) <= pool
  {
    hide Claims, VoteWeights;
    Curation.NonNegativeWeights(c.votes);
    ListedWeights(c.votes, order, c.votes.Keys);
    if c.totalWeight > 0 { ClaimsWithin(ListedVotes(c.votes, order), c.totalWeight, pool); }
  }

  // ----- withdraw routes -----

  function ListedRoutes(routes: Delegation.Routes, order: seq<(Name, Name)>): (r: seq<Route>)
    requires forall i :: 0 <= i < |order| ==> order[i] in routes
    ensures |r| == |order|
    ensures forall i :: 0 <= i < |r| ==>
              r[i] == Route(order[i].1, routes[order[i]].percent, routes[order[i]].autoVest)
  {
    if order == [] then []
    else
      var last := order[|order| - 1];
      ListedRoutes(routes, order[..|order| - 1]) + [Route(last.1, routes[last].percent, routes[last].autoVest)]
  }

  lemma {:induction false} ListedPercent(
    routes: Delegation.Routes, from: Name, order: seq<(Name, Name)>, all: set<(Name, Name)>)
    requires (forall i :: 0 <= i < |order| ==> order[i] in routes && order[i].0 == from) && Lists(order, all)
    ensures PercentTotal(ListedRoutes(routes, order)) == Sum(all, k => Delegation.PercentTerm(routes, from, k))
  {
    if order == [] {
      assert all == {};
    } else {
      var init, last := order[..|order| - 1], order[|order| - 1];
      ListsInit(order, all);
      ListedPercent(routes, from, init, all - {last});
      SumRemove(all, last, k => Delegation.PercentTerm(routes, from, k));
      var listed := ListedRoutes(routes, order);
      assert listed[..|listed| - 1] == ListedRoutes(routes, init);
    }
  }

  /** The routes of an account never get more than an interval withdraws. */
  lemma RoutesWithin(v: Delegation.Vesting, from: Name, order: seq<(Name, Name)>, amount: int)
    requires v.Valid() && Lists(order, Delegation.RoutesOf(v.routes, from)) && amount >= 0
    ensures forall i :: 0 <= i < |order| ==> order[i] in v.routes
    ensures var listed := ListedRoutes(v.routes, order);
            && (forall i :: 0 <= i < |listed| ==> listed[i].percent >= 0)
            && Deposits(amount, listed, true) + Deposits(amount, listed, false) <= amount
  {
    hide Deposits;
    assert forall i :: 0 <= i < |order| ==> order[i] in Delegation.RoutesOf(v.routes, from);
    ListedPercent(v.routes, from, order, Delegation.RoutesOf(v.routes, from));
    Delegation.PercentOwn(v.routes, from);
    RoutedWithin(amount, ListedRoutes(v.routes, order));
  }

  /** An interval aborts only when a route leads to no account or a sale cannot be converted. */
  lemma IntervalAborts(v: Delegation.Vesting, w: Wallets, from: Name, order: seq<(Name, Name)>, amount: int)
    requires v.Valid() && Lists(order, Delegation.RoutesOf(v.routes, from)) && amount >= 0 && from in w.accounts
    ensures forall i :: 0 <= i < |order| ==> order[i] in v.routes && v.routes[order[i]].percent >= 0
    ensures var listed := ListedRoutes(v.routes, order);
            Interval(w, from, amount, listed).Aborted? <==>
              var deposited := RoutesPaid(w, amount, listed, false);
              deposited.Aborted?
              || var sold := RoutesPaid(deposited.value, amount, listed, true);
                 sold.Aborted?
                 || var rest := amount - Deposits(amount, listed, false) - Deposits(amount, listed, true);
                    WorthOf(sold.value.globals, rest).Aborted?
  {
    hide Deposits, RoutesPaid, WorthOf;
    RoutesWithin(v, from, order, amount);
    var listed := ListedRoutes(v.routes, order);
    var deposited := RoutesPaid(w, amount, listed, false);
    if deposited.Ok? {
      RoutesGain(w, amount, listed, false, from);
      var sold := RoutesPaid(deposited.value, amount, listed, true);
      if sold.Ok? { RoutesGain(deposited.value, amount, listed, true, from); }
    }
  }
}
