/**
 What the steps of witness voting do to vesting shares: votes, proxies, witnesses and schedules leave them alone,
 and the others move exactly the shares they are about.
 */
module VotingShares {
  import opened Common
  import opened VirtualTime
  import opened ProxyForest
  import opened Voting

  /** The same accounts hold the same shares. */
  ghost predicate SharesStay(st: State, next: State)
  {
    && next.accounts.Keys == st.accounts.Keys && next.totalVests == st.totalVests
    && forall n :: n in st.accounts ==> next.accounts[n].vests == st.accounts[n].vests
  }

  /** One account has `dv` shares more, and all together `dt`. */
  ghost predicate SharesGrow(st: State, next: State, a: Name, dv: int, dt: int)
  {
    && next.accounts.Keys == st.accounts.Keys && next.totalVests == st.totalVests + dt
    && forall n :: n in st.accounts ==> next.accounts[n].vests == st.accounts[n].vests + if n == a then dv else 0
  }

  lemma AdjustShares(st: State, a: Name, delta: seq<int>)
    requires WellFormed(st.accounts) && a in st.accounts && |delta| == MAX_DEPTH + 1
    ensures Adjust(st, a, delta).Ok? ==> SharesStay(st, Adjust(st, a, delta).value)
  {
    hide Passed, PassTo, Credit;
  }

  lemma ProxyShares(st: State, a: Name, p: Name)
    requires WellFormed(st.accounts)
    ensures SetProxy(st, a, p).Ok? ==> SharesStay(st, SetProxy(st, a, p).value)
  {
    hide Adjust, Propagate, ChainFits;
    if SetProxy(st, a, p).Ok? {
      var full := Full(st.accounts[a]);
      AdjustShares(st, a, Neg(full));
      var left := Adjust(st, a, Neg(full)).value;
      if p != NO_PROXY {
        var cleared := ClearVotes(left, a);
        AdjustShares(WithAccount(cleared, a, cleared.accounts[a].(proxy := p)), a, full);
      }
    }
  }

  lemma DeclineShares(st: State, a: Name)
    requires WellFormed(st.accounts)
    ensures DeclineVoting(st, a).Ok? ==> SharesStay(st, DeclineVoting(st, a).value)
  {
    hide Adjust, Propagate;
    if a in st.accounts { AdjustShares(st, a, Neg(Full(st.accounts[a]))); }
  }

  /** The steps that are about votes alone. */
  predicate VotesOnly(step: Step)
  {
    step.ProxyStep? || step.VoteStep? || step.DeclineStep? || step.WitnessStep? || step.ScheduleStep?
  }

  lemma VotesShares(st: State, step: Step)
    requires WellFormed(st.accounts) && VotesOnly(step) && Apply(st, step).Ok?
    ensures SharesStay(st, Apply(st, step).value)
  {
    hide SetProxy, DeclineVoting, AdjustWitness, Advance, IsByFinish, Divisible;
    match step
    case ProxyStep(a, p) => ProxyShares(st, a, p);
    case DeclineStep(a) => DeclineShares(st, a);
    case _ =>
  }

  lemma ChangedShares(st: State, a: Name, dv: int)
    requires WellFormed(st.accounts) && ChangeVests(st, a, dv).Ok?
    ensures a in st.accounts && SharesGrow(st, ChangeVests(st, a, dv).value, a, dv, 0)
  {
    hide Adjust, Propagate, WellFormed;
    var changed := WithAccount(st, a, st.accounts[a].(vests := st.accounts[a].vests + dv));
    ChangedShape(st, a, dv);
    AdjustShares(changed, a, Only(dv));
  }

  lemma ChangedShape(st: State, a: Name, dv: int)
    requires WellFormed(st.accounts) && a in st.accounts
    ensures WellFormed(WithAccount(st, a, st.accounts[a].(vests := st.accounts[a].vests + dv)).accounts)
  {
  }

  lemma DepositShares(st: State, a: Name, amount: nat)
    requires WellFormed(st.accounts) && Deposit(st, a, amount).Ok?
    ensures a in st.accounts && SharesGrow(st, Deposit(st, a, amount).value, a, amount, amount)
  {
    hide ChangeVests;
    ChangedShares(st.(totalVests := st.totalVests + amount), a, amount);
  }

  /** What the routes of a withdrawal pay to an account. */
  function RoutedTo(routes: seq<(Name, nat)>, n: Name): nat
  {
    if routes == [] then 0 else RoutedTo(routes[1..], n) + if routes[0].0 == n then routes[0].1 else 0
  }

  lemma {:induction false} RoutesAppend(routes: seq<(Name, nat)>, last: (Name, nat), n: Name)
    ensures RoutedTo(routes + [last], n) == RoutedTo(routes, n) + if last.0 == n then last.1 else 0
    ensures RouteTotal(routes + [last]) == RouteTotal(routes) + last.1
  {
    if routes == [] {
      assert routes + [last] == [last] && [last][1..] == [];
    } else {
      assert (routes + [last])[1..] == routes[1..] + [last];
      RoutesAppend(routes[1..], last, n);
    }
  }

  lemma {:induction false} RoutesShares(st: State, routes: seq<(Name, nat)>)
    requires WellFormed(st.accounts) && PayRoutes(st, routes).Ok?
    ensures var next := PayRoutes(st, routes).value;
            && next.totalVests == st.totalVests && next.accounts.Keys == st.accounts.Keys
            && forall n :: n in st.accounts ==> next.accounts[n].vests == st.accounts[n].vests + RoutedTo(routes, n)
    decreases |routes|
  {
    hide ChangeVests;
    if routes != [] {
      ChangedShares(st, routes[0].0, routes[0].1);
      RoutesShares(ChangeVests(st, routes[0].0, routes[0].1).value, routes[1..]);
    }
  }

  lemma PowerDownShares(st: State, a: Name, routes: seq<(Name, nat)>, sold: nat)
    requires WellFormed(st.accounts) && PowerDown(st, a, routes, sold).Ok?
    ensures var next := PowerDown(st, a, routes, sold).value;
            && next.totalVests == st.totalVests - sold && next.accounts.Keys == st.accounts.Keys
            && forall n :: n in st.accounts ==>
                 next.accounts[n].vests == st.accounts[n].vests + RoutedTo(routes, n)
                                           - if n == a then RouteTotal(routes) + sold else 0
  {
    hide ChangeVests, PayRoutes, WellFormed;
    RoutesShares(st, routes);
    var paid := PayRoutes(st, routes).value;
    ChangedShares(paid.(totalVests := paid.totalVests - sold), a, -(RouteTotal(routes) + sold));
  }
}
