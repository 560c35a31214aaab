/**
 The audit of a node, `validate_invariants`, over whole runs of money and votes together.

 Money and votes are one state: operations that move vesting shares also adjust votes, and fail as a whole if the
 votes cannot follow. After every run the ledger and the votes agree on who holds which shares. So the audit
 passes if and only if every reward that was paid out bought a share.
 */
module Audit {
  import opened Common
  import opened Holdings
  import opened Bookkeeping
  import opened Settlement
  import opened Routing
  import opened Rewards
  import opened Ledger
  import opened OrderBook
  import opened Staking
  import opened LedgerRuns
  import opened VotingShares
  import ProxyForest
  import V = Voting
  import VoteCover
  import VotingDb
  import VotingRuns
  import VotingRecords

  // ----- which votes follow which money -----

  /** The ledger and the votes agree on who holds which shares. */
  ghost predicate Coupled(s: Stake, st: V.State)
  {
    && s.held.Keys == st.accounts.Keys && s.total == st.totalVests
    && forall n :: n in st.accounts ==> s.held[n] == st.accounts[n].vests
  }

  /** The routes of an interval that deposit shares, and how many. */
  function Deposited(amount: int, routes: seq<Route>): seq<(Name, nat)>
    requires amount >= 0 && forall i :: 0 <= i < |routes| ==> routes[i].percent >= 0
  {
    if routes == [] then []
    else
      var init, last := Deposited(amount, routes[..|routes| - 1]), routes[|routes| - 1];
      var deposit := Share(amount, last.percent);
      if last.autoVest && deposit > 0 then init + [(last.to, deposit)] else init
  }

  lemma {:induction false} DepositedShares(amount: int, routes: seq<Route>, n: Name)
    requires amount >= 0 && forall i :: 0 <= i < |routes| ==> routes[i].percent >= 0
    ensures RoutedTo(Deposited(amount, routes), n) == SharesTo(amount, routes, n)
    ensures V.RouteTotal(Deposited(amount, routes)) == Deposits(amount, routes, true)
  {
    hide Share;
    if routes != [] {
      var init, last := routes[..|routes| - 1], routes[|routes| - 1];
      DepositedShares(amount, init, n);
      var deposit := Share(amount, last.percent);
      if last.autoVest && deposit > 0 { RoutesAppend(Deposited(amount, init), (last.to, deposit), n); }
    }
  }

  lemma {:induction false} NothingDeposited(routes: seq<Route>)
    requires forall i :: 0 <= i < |routes| ==> routes[i].percent >= 0
    ensures Deposited(0, routes) == []
  {
    if routes != [] { NothingDeposited(routes[..|routes| - 1]); }
  }

  /** The step of the votes that goes with an operation that moves shares; an interval of nothing has none. */
  ghost function Follows(m: Moment, op: Operation): Option<V.Step>
    requires Moves(m, op)
  {
    var w := In(m.books);
    match op
    case CreateAccount(_, name, _, _, _) => Some(V.AccountStep(name))
    case PowerUp(from, to, amount) => Some(V.DepositStep(Target(from, to), SharesFor(w.globals, amount, false).value))
    case ClaimRewards(from, _, _, vests) => Some(V.DepositStep(from, vests))
    case WithdrawInterval(from, amount, routes) =>
      IntervalTotal(w, from, amount, routes);
      if amount == 0 then None
      else Some(V.PowerDownStep(from, Deposited(amount, routes), amount - Deposits(amount, routes, true)))
    case ProcessFunds(producer, printed, weight, payFactor) =>
      Some(V.DepositStep(producer, Printing(w.globals, m.books.funds, printed, weight, payFactor).value.2))
    case _ => Some(V.ClearNullStep)
  }

  /** Only the null account is ever cleared. */
  predicate Meant(op: Operation)
  {
    op.ClearNull? ==> op.from == V.NULL_ACCOUNT
  }

  lemma IntervalCoupled(w: Wallets, from: Name, amount: int, routes: seq<Route>, st: V.State, next: V.State)
    requires amount >= 0 && forall i :: 0 <= i < |routes| ==> routes[i].percent >= 0
    requires Interval(w, from, amount, routes).Ok? && Coupled(StakeOf(w), st) && ProxyForest.WellFormed(st.accounts)
    requires from in w.accounts && 0 <= Deposits(amount, routes, true) <= amount
    requires var step := V.PowerDown(st, from, Deposited(amount, routes), amount - Deposits(amount, routes, true));
             step == Ok(next)
    ensures Coupled(StakeOf(Interval(w, from, amount, routes).value), next)
  {
    hide Interval, Deposits, Deposited, SharesTo, V.PowerDown;
    var v := Interval(w, from, amount, routes).value;
    IntervalTotal(w, from, amount, routes);
    PowerDownShares(st, from, Deposited(amount, routes), amount - Deposits(amount, routes, true));
    forall n | n in w.accounts
      ensures n in v.accounts && v.accounts.Keys == w.accounts.Keys && v.accounts[n].vests == next.accounts[n].vests
    {
      DepositedShares(amount, routes, n);
      IntervalPays(w, from, amount, routes, n);
    }
    IntervalPays(w, from, amount, routes, from);
  }

  lemma IdleInterval(w: Wallets, from: Name, routes: seq<Route>, st: V.State)
    requires forall i :: 0 <= i < |routes| ==> routes[i].percent >= 0
    requires from in w.accounts && Interval(w, from, 0, routes).Ok? && Coupled(StakeOf(w), st)
    ensures Coupled(StakeOf(Interval(w, from, 0, routes).value), st)
  {
    hide Interval, Deposits, Deposited, SharesTo;
    var v := Interval(w, from, 0, routes).value;
    IntervalTotal(w, from, 0, routes);
    NothingDeposited(routes);
    forall n | n in w.accounts
      ensures v.accounts.Keys == w.accounts.Keys && v.accounts[n].vests == w.accounts[n].vests
    {
      DepositedShares(0, routes, n);
      IntervalPays(w, from, 0, routes, n);
    }
    IntervalPays(w, from, 0, routes, from);
  }

  lemma ClearedCoupled(w: Wallets, now: int, rate: int, st: V.State, next: V.State)
    requires V.NULL_ACCOUNT in w.accounts && Cleared(w, V.NULL_ACCOUNT, now, rate).Ok? && Coupled(StakeOf(w), st)
    requires V.ClearVests(st, V.NULL_ACCOUNT) == Ok(next)
    ensures Coupled(StakeOf(Cleared(w, V.NULL_ACCOUNT, now, rate).value), next)
  {
    hide WorthOf, AllDelta, AllDbd, DrainInterest, Backing, DrainedPot;
  }

  lemma CreatedCoupled(s: Stake, st: V.State, name: Name)
    requires Coupled(s, st) && V.CreateAccount(st, name).Ok?
    ensures Coupled(s.(held := s.held[name := 0]), V.CreateAccount(st, name).value)
  {
  }

  /** When the votes follow, they agree with the ledger again. */
  lemma MovedCoupled(m: Moment, op: Operation, st: V.State)
    requires Moves(m, op) && Meant(op) && Coupled(StakeOf(In(m.books)), st) && ProxyForest.WellFormed(st.accounts)
    ensures match Follows(m, op)
            case None => Coupled(StakeAfter(m, op), st)
            case Some(step) =>
              V.Apply(st, step).Ok? ==> Coupled(StakeAfter(m, op), V.Apply(st, step).value)
  {
    hide Coupled, StakeOf, Interval, Cleared, SharesFor, Deposits, Deposited, V.Deposit, V.PowerDown, V.ClearVests,
         V.CreateAccount, ProxyForest.WellFormed, Moved, FundShares, Share, ProducerReward, SharesGrow;
    var w := In(m.books);
    var s := StakeOf(w);
    HeldBy(w);
    match op
    case CreateAccount(_, name, _, _, _) => if V.CreateAccount(st, name).Ok? { CreatedCoupled(s, st, name); }
    case PowerUp(from, to, amount) =>
      DepositCoupled(s, st, Target(from, to), SharesFor(w.globals, amount, false).value, StakeAfter(m, op));
    case ClaimRewards(from, _, _, vests) => DepositCoupled(s, st, from, vests, StakeAfter(m, op));
    case ProcessFunds(producer, printed, weight, payFactor) =>
      var p := Printing(w.globals, m.books.funds, printed, weight, payFactor).value;
      DepositCoupled(s, st, producer, p.2, StakeAfter(m, op));
    case WithdrawInterval(from, amount, routes) =>
      IntervalTotal(w, from, amount, routes);
      if amount == 0 {
        IdleInterval(w, from, routes, st);
      } else {
        var step := V.PowerDown(st, from, Deposited(amount, routes), amount - Deposits(amount, routes, true));
        if step.Ok? { IntervalCoupled(w, from, amount, routes, st, step.value); }
      }
    case ClearNull(_) =>
      var step := V.ClearVests(st, V.NULL_ACCOUNT);
      if step.Ok? { ClearedCoupled(w, m.now, m.rate, st, step.value); }
  }

  lemma HeldBy(w: Wallets)
    ensures StakeOf(w).held.Keys == w.accounts.Keys
  {
  }

  lemma DepositCoupled(s: Stake, st: V.State, n: Name, shares: nat, s': Stake)
    requires Coupled(s, st) && n in s.held && ProxyForest.WellFormed(st.accounts)
    requires s'.held == s.held[n := s.held[n] + shares] && s'.total == s.total + shares
    ensures V.Deposit(st, n, shares).Ok? ==> Coupled(s', V.Deposit(st, n, shares).value)
  {
    hide V.Deposit, ProxyForest.WellFormed;
    if V.Deposit(st, n, shares).Ok? { DepositShares(st, n, shares); }
  }

  // ----- runs -----

  datatype Action = Money(op: Operation) | Votes(step: V.Step)

  /** Money and votes at one moment. */
  datatype Frame = Frame(money: Moment, votes: V.State)

  /** The votes are in order, and agree with the ledger on who holds which shares. */
  ghost predicate Agreed(f: Frame)
  {
    V.Inv(f.votes) && V.Idle(f.votes) && Coupled(StakeOf(In(f.money.books)), f.votes)
  }

  /** The operation would move shares, and the votes cannot follow. */
  ghost predicate Undone(f: Frame, op: Operation)
    requires ProxyForest.WellFormed(f.votes.accounts)
  {
    && Moves(f.money, op)
    && (!Meant(op) || match Follows(f.money, op) case None => false case Some(step) => V.Apply(f.votes, step).Aborted?)
  }

  function Kept(st: V.State, r: Outcome<V.State>): V.State
  {
    match r case Ok(next) => next case Aborted => st
  }

  /** The votes after an operation that is not undone. */
  ghost function Followed(f: Frame, op: Operation): V.State
    requires ProxyForest.WellFormed(f.votes.accounts)
  {
    if !Moves(f.money, op) then f.votes
    else match Follows(f.money, op) case None => f.votes case Some(step) => Kept(f.votes, V.Apply(f.votes, step))
  }

  /** One action: an operation and the votes that follow it, or a step of the votes alone, or nothing if it fails. */
  ghost predicate Acts(before: Frame, action: Action, after: Frame)
  {
    && ProxyForest.WellFormed(before.votes.accounts)
    && match action
       case Money(op) =>
         if Undone(before, op) then after == before
         else Step(before.money, op, after.money) && after.votes == Followed(before, op)
       case Votes(step) =>
         && after.money == before.money
         && after.votes == if VotesOnly(step) then Kept(before.votes, V.Apply(before.votes, step)) else before.votes
  }

  lemma CashoutCoupled(m: Moment, op: Operation, st: V.State)
    requires op.Cashout? && Coupled(StakeOf(In(m.books)), st)
    ensures Coupled(StakeOf(In(CashoutStep(m, op))), st)
  {
    hide CashedOut, CommentOk, Claimable;
    if Called(m.books, op) {
      var market := Market(m.median, op.printRate, m.now, m.rate);
      if CashedOut(In(m.books), op.comment, op.reward, market).Ok? {
        CashoutSame(In(m.books), op.comment, op.reward, market);
      }
    }
  }

  lemma VotesAgree(f: Frame, step: V.Step)
    requires Agreed(f) && ProxyForest.WellFormed(f.votes.accounts)
    ensures V.Apply(f.votes, step).Ok? ==> V.Inv(V.Apply(f.votes, step).value) && V.Idle(V.Apply(f.votes, step).value)
    ensures V.Apply(f.votes, step).Ok? && VotesOnly(step) ==>
              Coupled(StakeOf(In(f.money.books)), V.Apply(f.votes, step).value)
  {
    hide V.Inv, V.Idle, V.Apply, StakeOf, ProxyForest.WellFormed;
    VotingRuns.ApplyKeepsInv(f.votes, step);
    VotingRuns.ApplyKeepsIdle(f.votes, step);
    if V.Apply(f.votes, step).Ok? && VotesOnly(step) { VotesShares(f.votes, step); }
  }

  lemma MoneyAgrees(before: Frame, op: Operation, after: Frame)
    requires Agreed(before) && Acts(before, Money(op), after)
    ensures Agreed(after)
  {
    hide V.Inv, V.Idle, V.Apply, StakeOf, ProxyForest.WellFormed, Coupled, Moves, Follows, StakeAfter, Gaps, PayoutsOf,
         Lost, CashoutStep, Meant;
    if Undone(before, op) {
    } else if Moves(before.money, op) {
      MovedCoupled(before.money, op, before.votes);
      if Follows(before.money, op).Some? { VotesAgree(before, Follows(before.money, op).value); }
    } else if op.Cashout? {
      NoneMove(before.money, op);
      CashoutCoupled(before.money, op, before.votes);
    } else {
      StakeUnmoved(before.money, op);
    }
  }

  lemma StakeUnmoved(m: Moment, op: Operation)
    requires !op.Cashout? && !Moves(m, op)
    ensures StakeAfter(m, op) == StakeOf(In(m.books))
  {
  }

  lemma ActsAgree(before: Frame, action: Action, after: Frame)
    requires Agreed(before) && Acts(before, action, after)
    ensures Agreed(after)
  {
    hide V.Inv, V.Idle, V.Apply, StakeOf, ProxyForest.WellFormed, Coupled, Step, Undone, Followed;
    match action
    case Money(op) => MoneyAgrees(before, op, after);
    case Votes(step) => VotesAgree(before, step);
  }

  ghost predicate Runs(trace: seq<Frame>, actions: seq<Action>)
  {
    |trace| == |actions| + 1 && forall i :: 0 <= i < |actions| ==> Acts(trace[i], actions[i], trace[i + 1])
  }

  lemma {:induction false} RunAgrees(trace: seq<Frame>, actions: seq<Action>, i: nat)
    requires Runs(trace, actions) && Agreed(trace[0]) && i <= |actions|
    ensures Agreed(trace[i])
  {
    hide Acts, Agreed;
    if i > 0 {
      RunAgrees(trace, actions, i - 1);
      ActsAgree(trace[i - 1], actions[i - 1], trace[i]);
    }
  }

  /** The operation that an action amounts to for the ledger: itself, or nothing. */
  ghost function Done(f: Frame, action: Action): Operation
  {
    if ProxyForest.WellFormed(f.votes.accounts) && action.Money? && !Undone(f, action.op) then action.op
    else Block(f.money.now, f.money.rate, f.money.median)
  }

  /** The rewards in vesting shares that an action is going to pay. */
  function PaidBy(f: Frame, action: Action): seq<Payout>
  {
    if action.Money? then PayoutsOf(f.money, action.op) else []
  }

  lemma DoneSteps(before: Frame, action: Action, after: Frame)
    requires Acts(before, action, after)
    ensures Step(before.money, Done(before, action), after.money)
    ensures PayoutsOf(before.money, Done(before, action)) == PaidBy(before, action)
  {
    hide Moves, Follows, CashoutStep, Gaps, StakeOf, ProxyForest.WellFormed, V.Apply, Meant;
    var still := Block(before.money.now, before.money.rate, before.money.median);
    StillNothing(before.money);
    if action.Money? && Undone(before, action.op) { OnlyMoves(before.money, action.op); }
  }

  lemma OnlyMoves(m: Moment, op: Operation)
    requires Moves(m, op)
    ensures Moving(op)
  {
  }

  lemma StillNothing(m: Moment)
    ensures Step(m, Block(m.now, m.rate, m.median), m)
  {
    hide Gaps, StakeOf;
    NothingMoves(m, Block(m.now, m.rate, m.median));
  }

  /** Every reward that the run pays out, in any of its states, is nothing or buys a share. */
  ghost predicate EveryRewardBacked(trace: seq<Frame>, actions: seq<Action>)
    requires |trace| == |actions| + 1
  {
    forall i :: 0 <= i < |actions| ==> Backed(PaidBy(trace[i], actions[i]))
  }

  function Moments(trace: seq<Frame>): (r: seq<Moment>)
    ensures |r| == |trace| && forall i :: 0 <= i < |trace| ==> r[i] == trace[i].money
  {
    seq(|trace|, i requires 0 <= i < |trace| => trace[i].money)
  }

  ghost function AllDone(trace: seq<Frame>, actions: seq<Action>): (r: seq<Operation>)
    requires |trace| == |actions| + 1
    ensures |r| == |actions| && forall i :: 0 <= i < |actions| ==> r[i] == Done(trace[i], actions[i])
  {
    seq(|actions|, i requires 0 <= i < |actions| => Done(trace[i], actions[i]))
  }

  /** The checks of the audit: supplies, shares and their backing, the votes of all shares and of each witness. */
  ghost predicate Audited(f: Frame)
  {
    && Conserved(f.money.books)
    && VoteCover.CoverTotal(f.votes.accounts) == f.money.books.globals.totalVests
    && forall w :: w in f.votes.witnesses ==> f.votes.witnesses[w].votes <= f.money.books.globals.totalVests
  }

  lemma VotesAudited(f: Frame)
    requires Agreed(f)
    ensures Audited(f) <==> Conserved(f.money.books)
  {
    hide V.Inv, V.Idle, Gaps, VoteCover.CoverTotal;
    VotingRuns.EveryShareCounted(f.votes);
    VotingRuns.InvRace(f.votes);
  }

  /** After a run that starts in order, the audit passes if and only if every reward bought a share. */
  lemma AuditPasses(trace: seq<Frame>, actions: seq<Action>)
    requires Runs(trace, actions) && Agreed(trace[0]) && Conserved(trace[0].money.books)
    ensures Agreed(trace[|actions|])
    ensures Audited(trace[|actions|]) <==> EveryRewardBacked(trace, actions)
  {
    hide Acts, Agreed, Audited, Step, PayoutsOf, PaidBy, Backed, Done, Gaps;
    var moments, ops := Moments(trace), AllDone(trace, actions);
    forall i | 0 <= i < |ops|
      ensures Step(moments[i], ops[i], moments[i + 1])
      ensures PayoutsOf(moments[i], ops[i]) == PaidBy(trace[i], actions[i])
    {
      DoneSteps(trace[i], actions[i], trace[i + 1]);
    }
    TraceGaps(moments, ops);
    RunLosesNothing(moments, ops);
    SameBacked(trace, actions, moments, ops);
    RunAgrees(trace, actions, |actions|);
    VotesAudited(trace[|actions|]);
  }

  lemma SameBacked(trace: seq<Frame>, actions: seq<Action>, moments: seq<Moment>, ops: seq<Operation>)
    requires |trace| == |moments| == |actions| + 1 && |ops| == |actions|
    requires forall i :: 0 <= i < |ops| ==> PayoutsOf(moments[i], ops[i]) == PaidBy(trace[i], actions[i])
    ensures AllBacked(moments, ops) <==> EveryRewardBacked(trace, actions)
  {
    hide PayoutsOf, PaidBy, Backed;
    if AllBacked(moments, ops) {
      forall i | 0 <= i < |actions| ensures Backed(PaidBy(trace[i], actions[i])) {
        assert Backed(PayoutsOf(moments[i], ops[i]));
      }
    }
  }

  // ----- the node -----

  /** Clearing what cannot be cleared does nothing. */
  lemma NotCleared(m: Moment, op: Operation)
    requires op.ClearNull? && !Moves(m, op)
    ensures Step(m, op, m)
  {
    hide Gaps, StakeOf;
    StakeUnmoved(m, op);
  }

  /** An account's shares before and after say how many it got. */
  lemma GotShares(m: Moment, books: Books, op: Operation, n: Name, shares: int, backing: int)
    requires n in m.books.accounts
    requires StakeOf(In(books)).held == Staked(StakeOf(In(m.books)), n, shares, backing).held
    ensures n in books.accounts && books.accounts[n].vests - m.books.accounts[n].vests == shares
  {
    assert StakeOf(In(books)).held[n] == StakeOf(In(m.books)).held[n] + shares;
  }

  /** Which votes follow, from the books before and after. */
  method Following(m: Moment, op: Operation, books: Books) returns (step: Option<V.Step>)
    requires Moves(m, op) && Meant(op) && StakeOf(In(books)) == StakeAfter(m, op)
    ensures step == Follows(m, op)
  {
    hide StakeOf, Interval, Cleared, Moved, FundShares, Share, ProducerReward, Deposits, Deposited;
    match op
    case CreateAccount(_, name, _, _, _) => step := Some(V.AccountStep(name));
    case PowerUp(from, to, amount) =>
      var n := Target(from, to);
      GotShares(m, books, op, n, SharesFor(m.books.globals, amount, false).value, amount);
      step := Some(V.DepositStep(n, books.accounts[n].vests - m.books.accounts[n].vests));
    case ClaimRewards(from, _, _, vests) => step := Some(V.DepositStep(from, vests));
    case WithdrawInterval(from, amount, routes) =>
      IntervalTotal(In(m.books), from, amount, routes);
      step := if amount == 0 then None
              else Some(V.PowerDownStep(from, Deposited(amount, routes), amount - Deposits(amount, routes, true)));
    case ProcessFunds(n, printed, weight, payFactor) =>
      ghost var p := Printing(m.books.globals, m.books.funds, printed, weight, payFactor).value;
      GotShares(m, books, op, n, p.2, p.1 + Share(printed, VESTING_PERCENT));
      step := Some(V.DepositStep(n, books.accounts[n].vests - m.books.accounts[n].vests));
    case ClearNull(_) => step := Some(V.ClearNullStep);
  }

  lemma GenesisAgreed(founder: Name, supply: nat, st: V.State)
    requires founder != V.NULL_ACCOUNT && st.totalVests == 0 && st.accounts.Keys == {founder, V.NULL_ACCOUNT}
    requires st.accounts[founder].vests == st.accounts[V.NULL_ACCOUNT].vests == 0
    ensures Coupled(StakeOf(In(Genesis(founder, V.NULL_ACCOUNT, supply))), st)
  {
  }

  method TwoAccounts(founder: Name) returns (votes: VotingDb.Db)
    requires founder != V.NULL_ACCOUNT && founder != ProxyForest.NO_PROXY
    ensures fresh(votes) && votes.Valid() && V.Idle(votes.Model())
    ensures votes.totalVests == 0 && votes.accounts.Keys == {founder, V.NULL_ACCOUNT}
    ensures votes.accounts[founder].vests == votes.accounts[V.NULL_ACCOUNT].vests == 0
  {
    hide V.Inv, V.Idle;
    VotingRuns.GenesisInv();
    votes := new VotingDb.Db();
    var one := votes.Perform(V.AccountStep(founder));
    var two := votes.Perform(V.AccountStep(V.NULL_ACCOUNT));
  }

  class Node {
    const ex: Exchange
    const votes: VotingDb.Db

    ghost predicate Valid()
      reads this, ex, ex.db, votes
    {
      ex.Valid() && votes.Valid() && Agreed(Now())
    }

    ghost function Now(): Frame
      reads this, ex, ex.db, votes
    {
      Frame(Snapshot(ex), votes.Model())
    }

    /** Genesis: the whole supply belongs to one account, and the null account is there. */
    constructor (founder: Name, supply: nat)
      requires founder != V.NULL_ACCOUNT && founder != ProxyForest.NO_PROXY
      ensures Valid() && fresh(ex) && fresh(ex.db) && fresh(votes)
      ensures Now().money == Moment(Genesis(founder, V.NULL_ACCOUNT, supply), 0, 0, None)
    {
      hide V.Inv, V.Idle, Coupled, StakeOf, Gaps, Sound, Conserved;
      var db := new Db(founder, V.NULL_ACCOUNT, supply);
      var accounts := TwoAccounts(founder);
      ex := new Exchange(db);
      votes := accounts;
      new;
      GenesisAgreed(founder, supply, votes.Model());
    }

    /** One action, of money or of votes. */
    method Act(action: Action)
      requires Valid()
      modifies ex, ex.db, votes
      ensures Valid() && Acts(old(Now()), action, Now())
    {
      hide V.Inv, V.Idle, V.Apply, Coupled, Step, Undone, Followed, VotingRecords.Does, VotingRecords.RecordsOf;
      ghost var before := Now();
      VotingRuns.InvShape(votes.Model());
      match action {
        case Money(op) => Pay(op);
        case Votes(step) => if VotesOnly(step) { var _ := votes.Perform(step); }
      }
      ActsAgree(before, action, Now());
    }

    /** An operation on the ledger, and the votes that follow it; if they cannot, all is undone. */
    method Pay(op: Operation)
      requires Valid()
      modifies ex, ex.db, votes
      ensures ex.Valid() && votes.Valid() && V.Idle(votes.Model()) && Acts(old(Now()), Money(op), Now())
    {
      hide V.Inv, V.Idle, V.Apply, Coupled, Moves, Follows, Gaps, Sound, PayoutsOf, StakeOf, StakeAfter, CashoutStep,
           VotingRecords.Does, VotingRecords.RecordsOf;
      ghost var before := Now();
      VotingRuns.InvShape(votes.Model());
      var m, nextId := Snapshot(ex), ex.nextId;
      if op.ClearNull? && op.from != V.NULL_ACCOUNT {
        if !Moves(m, op) { NotCleared(m, op); }
        return;
      }
      var moved := Apply(ex, op);
      if !moved { return; }
      OnlyMoves(m, op);
      var step := Following(m, op, ex.db.All());
      if step.None? { return; }
      var ok := votes.Perform(step.value);
      if !ok {
        ex.db.Restore(m.books);
        ex.nextId := nextId;
      }
    }

    /** A run of actions, with its states. */
    method Run(actions: seq<Action>) returns (ghost trace: seq<Frame>)
      requires Valid()
      modifies ex, ex.db, votes
      ensures Valid() && Runs(trace, actions) && trace[0] == old(Now()) && trace[|actions|] == Now()
      ensures old(Conserved(Now().money.books)) ==> (Audited(Now()) <==> EveryRewardBacked(trace, actions))
    {
      hide Acts, Agreed, Audited, EveryRewardBacked, Gaps;
      trace := [Now()];
      for i := 0 to |actions|
        invariant Valid() && |trace| == i + 1 && trace[0] == old(Now()) && trace[i] == Now()
        invariant forall j :: 0 <= j < i ==> Acts(trace[j], actions[j], trace[j + 1])
      {
        Act(actions[i]);
        trace := trace + [Now()];
      }
      if Conserved(trace[0].money.books) { AuditPasses(trace, actions); }
    }
  }

  /** From genesis on: the audit passes after a run if and only if every reward that it paid out bought a share. */
  method RunFromGenesis(founder: Name, supply: nat, actions: seq<Action>) returns (node: Node, ghost trace: seq<Frame>)
    requires founder != V.NULL_ACCOUNT && founder != ProxyForest.NO_PROXY
    ensures node.Valid() && Runs(trace, actions) && trace[|actions|] == node.Now()
    ensures trace[0].money == Moment(Genesis(founder, V.NULL_ACCOUNT, supply), 0, 0, None)
    ensures Audited(node.Now()) <==> EveryRewardBacked(trace, actions)
  {
    hide Acts, Agreed, Audited, EveryRewardBacked, Gaps, Runs, Sound;
    node := new Node(founder, supply);
    GenesisBalanced(founder, V.NULL_ACCOUNT, supply);
    trace := node.Run(actions);
  }
}
