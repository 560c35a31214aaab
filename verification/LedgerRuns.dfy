/**
 Whole runs of the ledger and its market. Whatever operations a run consists of, and whichever of them
 fail, the recorded supplies differ from what is held by exactly what its payouts paid for no vesting
 share. So a ledger that starts balanced ends balanced if and only if every reward that was paid out bought
 a share, which can be told from the state before each payout.
 */
module LedgerRuns {
  import opened Common
  import opened OrderMath
  import opened Orders
  import opened Holdings
  import opened Bookkeeping
  import opened Settlement
  import opened Routing
  import opened Rewards
  import Effects
  import opened Ledger
  import opened OrderBook
  import opened Staking

  datatype Operation =
    | CreateAccount(from: Name, name: Name, fee: int, required: int, nobody: Name)
    | OpenFund(fund: nat, percent: nat)
    | Transfer(from: Name, to: Name, symbol: Symbol, amount: int)
    | ToSavings(from: Name, to: Name, symbol: Symbol, amount: int)
    | FromSavings(from: Name, request: nat, to: Name, symbol: Symbol, amount: int, underLimit: bool)
    | CancelFromSavings(from: Name, request: nat)
    | FinishWithdrawals
    | EscrowTransfer(from: Name, id: nat, to: Name, agent: Name, delta: int, dbd: int, fee: int, feeSymbol: Symbol,
                     ratifyBy: nat, expires: nat)
    | EscrowApprove(from: Name, id: nat, to: Name, agent: Name, who: Name, approve: bool)
    | EscrowDispute(from: Name, id: nat, to: Name, agent: Name)
    | EscrowRelease(from: Name, id: nat, to: Name, agent: Name, who: Name, receiver: Name, delta: int, dbd: int)
    | ExpireEscrows
    | CreateOrder(order: Order, fillOrKill: bool)
    | CancelOrder(from: Name, id: nat)
    | ExpireOrders
    | Convert(from: Name, request: nat, amount: int)
    | ProcessConversions
    | PowerUp(from: Name, to: Name, amount: int)
    | ClaimRewards(from: Name, delta: int, dbd: int, vests: int)
    | WithdrawInterval(from: Name, amount: int, routes: seq<Route>)
    | ProcessFunds(producer: Name, printed: int, weight: nat, payFactor: nat)
    | ClearNull(from: Name)
    | Cashout(fund: nat, comment: Comment, reward: int, printRate: int)
    | Block(time: nat, rate: nat, feed: Option<Price>)

  /** The state that operations start from. */
  datatype Moment = Moment(books: Books, now: nat, rate: nat, median: Option<Price>)

  /** What holds of the work a block does by itself when it is done, and the width of an amount. */
  predicate Called(b: Books, op: Operation)
  {
    match op
    case CreateOrder(order, _) => -TWO63 <= order.forSale < TWO63
    case WithdrawInterval(from, amount, routes) =>
      && from in b.accounts && 0 <= amount <= b.accounts[from].vests
      && forall i :: 0 <= i < |routes| ==> routes[i].percent >= 0
    case ProcessFunds(producer, printed, _, payFactor) => producer in b.accounts && printed >= 0 && payFactor > 0
    case ClearNull(from) => from in b.accounts
    case Cashout(fund, comment, reward, printRate) =>
      fund in b.funds && reward >= 0 && CommentOk(comment) && 0 <= printRate <= HUNDRED_PERCENT
    case _ => true
  }

  /** The rewards in vesting shares that an operation is going to pay. */
  function PayoutsOf(m: Moment, op: Operation): seq<Payout>
  {
    match op
    case Cashout(fund, comment, reward, printRate) =>
      if !Called(m.books, op) then []
      else
        var w, market := Wallets(m.books.accounts, m.books.globals), Market(m.median, printRate, m.now, m.rate);
        if CashedOut(w, comment, reward, market).Aborted? then [] else CashoutPayouts(w, comment, reward, market)
    case _ => []
  }

  lemma PayoutsLose(m: Moment, op: Operation)
    ensures var ps := PayoutsOf(m, op); Lost(ps) >= 0 && (Lost(ps) == 0 <==> Backed(ps))
    ensures PayoutsOf(m, op) != [] ==> op.Cashout?
  {
    hide CashoutPayouts, CashedOut;
    if op.Cashout? && Called(m.books, op) {
      CashoutLoses(Wallets(m.books.accounts, m.books.globals), op.comment, op.reward,
                   Market(m.median, op.printRate, m.now, m.rate));
    }
  }

  function Snapshot(ex: Exchange): Moment
    reads ex, ex.db
  {
    Moment(ex.db.All(), ex.db.now, ex.db.interestRate, ex.db.median)
  }

  /** The books after a payout: accounts and totals as paid, and the fund charged. */
  function CashoutStep(m: Moment, op: Operation): Books
    requires op.Cashout?
  {
    var b := m.books;
    if !Called(b, op) then b
    else
      match CashedOut(Wallets(b.accounts, b.globals), op.comment, op.reward,
                      Market(m.median, op.printRate, m.now, m.rate))
      case Aborted => b
      case Ok(v) =>
        var fund := b.funds[op.fund];
        b.(accounts := v.accounts, globals := v.globals,
           funds := b.funds[op.fund := fund.(balance := fund.balance - Claimable(op.comment, op.reward))])
  }

  // ----- what operations do to vesting shares -----

  function In(b: Books): Wallets
  {
    Wallets(b.accounts, b.globals)
  }

  /** The operation is one that can move vesting shares or what backs them, and it succeeds. */
  ghost predicate Moves(m: Moment, op: Operation)
  {
    var w := In(m.books);
    match op
    case CreateAccount(from, name, fee, required, nobody) =>
      Creatable(w.accounts, from, name, fee, required, nobody)
    case PowerUp(from, to, amount) => PowersUp(w, from, to, amount)
    case ClaimRewards(from, delta, dbd, vests) =>
      MayClaim(w.accounts, from, delta, dbd, vests) && w.accounts[from].rewardVestingDelta >= 0
    case WithdrawInterval(from, amount, routes) => Called(m.books, op) && Interval(w, from, amount, routes).Ok?
    case ProcessFunds(_, printed, weight, payFactor) =>
      Called(m.books, op) && Printing(w.globals, m.books.funds, printed, weight, payFactor).Ok?
    case ClearNull(from) => Called(m.books, op) && Cleared(w, from, m.now, m.rate).Ok?
    case _ => false
  }

  /** The shares with `shares` more for one account, and `backing` more behind all of them. */
  function Staked(s: Stake, n: Name, shares: int, backing: int): Stake
    requires n in s.held
  {
    s.(held := s.held[n := s.held[n] + shares], total := s.total + shares, fund := s.fund + backing)
  }

  /** Who holds which shares after an operation, and what backs them, from the state before. */
  ghost function StakeAfter(m: Moment, op: Operation): Stake
  {
    var w := In(m.books);
    var s := StakeOf(w);
    if op.Cashout? then StakeOf(In(CashoutStep(m, op)))
    else if !Moves(m, op) then s
    else
      match op
      case CreateAccount(_, name, _, _, _) => s.(held := s.held[name := 0])
      case PowerUp(from, to, amount) =>
        Staked(s, Target(from, to), SharesFor(w.globals, amount, false).value, amount)
      case ClaimRewards(from, _, _, vests) =>
        var moved := Moved(w.accounts[from], vests);
        Staked(s, from, vests, moved).(pendingShares := s.pendingShares - vests, pendingDelta := s.pendingDelta - moved)
      case WithdrawInterval(from, amount, routes) => StakeOf(Interval(w, from, amount, routes).value)
      case ProcessFunds(producer, printed, weight, payFactor) =>
        var (_, reward, shares) := Printing(w.globals, m.books.funds, printed, weight, payFactor).value;
        Staked(s, producer, shares, reward + Share(printed, VESTING_PERCENT))
      case ClearNull(from) => StakeOf(Cleared(w, from, m.now, m.rate).value)
      case _ => s
  }

  /**
   What a step does: the gaps stay, except for what its payouts lose; a payout is paid as it says; and every
   operation leaves vesting shares, their holders and their backing as they follow from the state before.
   */
  ghost predicate Step(before: Moment, op: Operation, after: Moment)
  {
    && StakeOf(In(after.books)) == StakeAfter(before, op)
    && Gaps(after.books) == Less(Gaps(before.books), Taken(0, Lost(PayoutsOf(before, op))))
    && (op.Cashout? ==> after.books == CashoutStep(before, op))
    && (op.Block? ==> after == Moment(before.books, op.time, op.rate, op.feed))
    && (!op.Block? ==> after == Moment(after.books, before.now, before.rate, before.median))
  }

  /** The operations that may move vesting shares. */
  predicate Moving(op: Operation)
  {
    op.CreateAccount? || op.PowerUp? || op.ClaimRewards? || op.WithdrawInterval? || op.ProcessFunds? || op.ClearNull?
  }

  lemma NothingMoves(m: Moment, op: Operation)
    requires !Moving(op) && !op.Cashout?
    ensures !Moves(m, op) && StakeAfter(m, op) == StakeOf(In(m.books))
  {
  }

  // ----- operations that do not move vesting shares -----

  method ApplyTransfer(ex: Exchange, op: Operation)
    requires ex.Valid()
    requires op.OpenFund? || op.Transfer? || op.ToSavings? || op.FromSavings? || op.CancelFromSavings?
             || op.FinishWithdrawals?
    modifies ex.db
    ensures ex.db.Valid() && Gaps(ex.db.All()) == old(Gaps(ex.db.All()))
    ensures ex.db.orders == old(ex.db.orders) && Snapshot(ex) == old(Snapshot(ex)).(books := ex.db.All())
    ensures SameStake(old(In(ex.db.All())), In(ex.db.All()))
  {
    hide Gaps, Sound, Paid, Saved, Settled;
    var db := ex.db;
    match op
    case OpenFund(fund, percent) => var _ := db.OpenFund(fund, percent);
    case Transfer(from, to, symbol, amount) =>
      var ok := db.Transfer(from, to, symbol, amount);
      if ok {
        PaidSame(old(db.accounts), from, symbol, -amount, db.now, db.interestRate);
        PaidSame(Paid(old(db.accounts), from, symbol, -amount, db.now, db.interestRate), to, symbol, amount, db.now,
                 db.interestRate);
      }
    case ToSavings(from, to, symbol, amount) =>
      var ok := db.ToSavings(from, to, symbol, amount);
      if ok {
        PaidSame(old(db.accounts), from, symbol, -amount, db.now, db.interestRate);
        PaidSame(Paid(old(db.accounts), from, symbol, -amount, db.now, db.interestRate), to, symbol, amount, db.now,
                 db.interestRate);
      }
    case FromSavings(from, request, to, symbol, amount, underLimit) =>
      var ok := db.FromSavings(from, request, to, symbol, amount, underLimit);
      if ok { PaidSame(old(db.accounts), from, symbol, -amount, db.now, db.interestRate); }
    case CancelFromSavings(from, request) =>
      var ok := db.CancelFromSavings(from, request);
      if ok {
        var w := old(db.withdrawals)[(from, request)];
        PaidSame(old(db.accounts), from, w.symbol, w.amount, db.now, db.interestRate);
      }
    case FinishWithdrawals =>
      db.FinishWithdrawals();
      SettledSame(old(db.accounts), db.accounts, old(db.withdrawals), WithdrawalOwes(db.now), db.now, db.interestRate);
  }

  lemma PaidBothSame(accounts: Accounts, n: Name, delta: int, dbd: int, now: int, rate: int)
    requires n in accounts
    ensures SameVests(accounts, PaidBoth(accounts, n, delta, dbd, now, rate))
  {
    hide Paid;
    PaidSame(accounts, n, Delta, delta, now, rate);
    PaidSame(Paid(accounts, n, Delta, delta, now, rate), n, Dbd, dbd, now, rate);
  }

  method ApplyEscrow(ex: Exchange, op: Operation)
    requires ex.Valid()
    requires op.EscrowTransfer? || op.EscrowApprove? || op.EscrowDispute? || op.EscrowRelease? || op.ExpireEscrows?
    modifies ex.db
    ensures ex.db.Valid() && Gaps(ex.db.All()) == old(Gaps(ex.db.All()))
    ensures ex.db.orders == old(ex.db.orders) && Snapshot(ex) == old(Snapshot(ex)).(books := ex.db.All())
    ensures SameStake(old(In(ex.db.All())), In(ex.db.All()))
  {
    hide Gaps, Sound, Paid, PaidBoth, Settled, Received, Deducted, Releasable, Approvable, One;
    var db := ex.db;
    match op
    case EscrowTransfer(from, id, to, agent, delta, dbd, fee, feeSymbol, ratifyBy, expires) =>
      var ok := db.EscrowTransfer(from, id, to, agent, delta, dbd, fee, feeSymbol, ratifyBy, expires);
      if ok {
        PaidBothSame(old(db.accounts), from, -delta - One(feeSymbol, fee).delta, -dbd - One(feeSymbol, fee).dbd,
                     db.now, db.interestRate);
      }
    case EscrowApprove(from, id, to, agent, who, approve) =>
      ApprovedSame(ex, from, id, to, agent, who, approve);
    case EscrowDispute(from, id, to, agent) => var _ := db.EscrowDispute(from, id, to, agent);
    case EscrowRelease(from, id, to, agent, who, receiver, delta, dbd) =>
      var ok := db.EscrowRelease(from, id, to, agent, who, receiver, delta, dbd);
      if ok { PaidBothSame(old(db.accounts), receiver, delta, dbd, db.now, db.interestRate); }
    case ExpireEscrows =>
      db.ExpireEscrows();
      SettledSame(old(db.accounts), db.accounts, old(db.escrows), EscrowOwes(db.now), db.now, db.interestRate);
  }

  method ApprovedSame(ex: Exchange, from: Name, id: nat, to: Name, agent: Name, who: Name, approve: bool)
    requires ex.Valid()
    modifies ex.db
    ensures ex.db.Valid() && Gaps(ex.db.All()) == old(Gaps(ex.db.All()))
    ensures ex.db.orders == old(ex.db.orders) && Snapshot(ex) == old(Snapshot(ex)).(books := ex.db.All())
    ensures SameStake(old(In(ex.db.All())), In(ex.db.All()))
  {
    hide Gaps, Sound, Paid, Received, EscrowDue;
    var db := ex.db;
    var ok := db.EscrowApprove(from, id, to, agent, who, approve);
    if ok && !approve {
      ReceivedSame(old(db.accounts), from, EscrowDue(old(db.escrows)[(from, id)]), db.now, db.interestRate);
    } else if ok && agent in old(db.accounts) {
      var e := Approved(old(db.escrows)[(from, id)], who);
      PaidSame(old(db.accounts), agent, e.feeSymbol, e.fee, db.now, db.interestRate);
    }
  }

  method ApplyMarket(ex: Exchange, op: Operation)
    requires ex.Valid() && Called(ex.db.All(), op) && (op.CreateOrder? || op.CancelOrder? || op.ExpireOrders?)
    modifies ex, ex.db
    ensures ex.Valid() && Gaps(ex.db.All()) == old(Gaps(ex.db.All()))
    ensures Snapshot(ex) == old(Snapshot(ex)).(books := ex.db.All())
    ensures SameStake(old(In(ex.db.All())), In(ex.db.All()))
  {
    hide Gaps, Sound, Orderly, InTurn, Progress, FilledInTurn, Refunded, Settled, PaidTo, Uncrossed, NoneOpposed,
         AllListed;
    ghost var t, id := ex.State(), ex.nextId;
    match op
    case CreateOrder(order, fillOrKill) =>
      var ok, fills := ex.CreateOrder(order, fillOrKill);
      if ok {
        PaidToSame(t, order.seller, order.sells, -order.forSale, ex.Now());
        FillsSame(Placed(t, id, order, ex.Now()), id, fills, ex.Now());
      }
    case CancelOrder(from, name) =>
      var ok := ex.Cancel(from, name);
      if ok {
        ghost var x :| Named(old(ex.db.orders), from, name) == {x} && ex.State() == Refunded(t, x, ex.Now());
        RefundedSame(t, x, ex.Now());
      }
    case ExpireOrders =>
      ex.ClearExpired();
      SettledSame(old(ex.db.accounts), ex.db.accounts, old(ex.db.orders), OrderOwes(ex.db.now), ex.db.now,
                  ex.db.interestRate);
  }

  method ApplyConversion(ex: Exchange, op: Operation)
    requires ex.Valid() && (op.Convert? || op.ProcessConversions?)
    modifies ex.db
    ensures ex.db.Valid() && Gaps(ex.db.All()) == old(Gaps(ex.db.All()))
    ensures ex.db.orders == old(ex.db.orders) && Snapshot(ex) == old(Snapshot(ex)).(books := ex.db.All())
    ensures SameStake(old(In(ex.db.All())), In(ex.db.All()))
  {
    hide Gaps, Sound, Paid, Settled, Convertible;
    var db := ex.db;
    match op
    case Convert(from, request, amount) =>
      var ok := db.Convert(from, request, amount);
      if ok { PaidSame(old(db.accounts), from, Dbd, -amount, db.now, db.interestRate); }
    case ProcessConversions =>
      var ok := db.ProcessConversions();
      if ok && db.median.Some? {
        SettledSame(old(db.accounts), db.accounts, old(db.conversions), ConversionOwes(db.now, db.median.value), db.now,
                    db.interestRate);
      }
  }

  // ----- operations that move vesting shares -----

  /** What an operation that may move shares leaves. */
  ghost predicate Leaves(before: Moment, op: Operation, after: Moment, moved: bool)
  {
    && after == before.(books := after.books) && after.books.orders == before.books.orders
    && Gaps(after.books) == Gaps(before.books)
    && (moved <==> Moves(before, op))
    && StakeOf(In(after.books)) == StakeAfter(before, op)
  }

  lemma CreatedStake(w: Wallets, v: Wallets, name: Name)
    requires SameVests(w.accounts[name := NEW_PURSE], v.accounts) && SameTotals(w.globals, v.globals)
    ensures StakeOf(v) == StakeOf(w).(held := StakeOf(w).held[name := 0])
  {
    assert StakeOf(v).held == StakeOf(w).held[name := 0];
  }

  method ApplyCreate(ex: Exchange, op: Operation) returns (moved: bool)
    requires ex.Valid() && op.CreateAccount?
    modifies ex.db
    ensures ex.db.Valid() && Leaves(old(Snapshot(ex)), op, Snapshot(ex), moved)
  {
    hide Gaps, Sound, Paid, Creatable;
    var db := ex.db;
    ghost var before := In(db.All());
    moved := db.CreateAccount(op.from, op.name, op.fee, op.required, op.nobody);
    assert moved ==> Creatable(before.accounts, op.from, op.name, op.fee, op.required, op.nobody);
    if moved {
      CreatedAccounts(before.accounts, op.from, op.name, op.fee, op.required, op.nobody, db.now, db.interestRate);
      CreatedStake(before, In(db.All()), op.name);
    }
  }

  lemma CreatedAccounts(accounts: Accounts, from: Name, name: Name, fee: int, required: int, nobody: Name, now: int,
                        rate: int)
    requires Creatable(accounts, from, name, fee, required, nobody)
    ensures var paid := Paid(Paid(accounts, from, Delta, -fee, now, rate), nobody, Delta, fee, now, rate);
            SameVests(accounts[name := NEW_PURSE], paid[name := NEW_PURSE])
  {
    hide Paid;
    PaidSame(accounts, from, Delta, -fee, now, rate);
    PaidSame(Paid(accounts, from, Delta, -fee, now, rate), nobody, Delta, fee, now, rate);
  }

  /** More shares for one account. */
  lemma StakedStake(w: Wallets, v: Wallets, n: Name, shares: int, backing: int)
    requires n in w.accounts
    requires SameVests(w.accounts[n := w.accounts[n].(vests := w.accounts[n].vests + shares)], v.accounts)
    requires SameTotals(w.globals.(totalVests := w.globals.totalVests + shares,
                                   vestingFund := w.globals.vestingFund + backing), v.globals)
    ensures StakeOf(v) == Staked(StakeOf(w), n, shares, backing)
  {
    assert StakeOf(v).held == Staked(StakeOf(w), n, shares, backing).held;
  }

  lemma PoweredUp(w: Wallets, v: Wallets, from: Name, to: Name, amount: int, now: int, rate: int)
    requires PowersUp(w, from, to, amount)
    requires var paid, n := Paid(w.accounts, from, Delta, -amount, now, rate), Target(from, to);
             var shares := SharesFor(w.globals, amount, false).value;
             && v.accounts == paid[n := Vested(paid[n], amount, shares, false)]
             && v.globals == VestedGlobals(w.globals, amount, shares, false)
    ensures StakeOf(v) == Staked(StakeOf(w), Target(from, to), SharesFor(w.globals, amount, false).value, amount)
  {
    hide Paid, SharesFor, StakeOf, Staked;
    PaidSame(w.accounts, from, Delta, -amount, now, rate);
    StakedStake(w, v, Target(from, to), SharesFor(w.globals, amount, false).value, amount);
  }

  method ApplyPowerUp(ex: Exchange, op: Operation) returns (moved: bool)
    requires ex.Valid() && op.PowerUp?
    modifies ex.db
    ensures ex.db.Valid() && Leaves(old(Snapshot(ex)), op, Snapshot(ex), moved)
  {
    hide Gaps, Sound, Paid, SharesFor, StakeOf, Staked, Vested, VestedGlobals, Effects.Bought;
    var db := ex.db;
    ghost var before := In(db.All());
    moved := db.PowerUp(op.from, op.to, op.amount);
    if moved { PoweredUp(before, In(db.All()), op.from, op.to, op.amount, db.now, db.interestRate); }
  }

  lemma ClaimedStake(w: Wallets, v: Wallets, n: Name, vests: int, moved: int)
    requires n in w.accounts
    requires SameVests(w.accounts[n := w.accounts[n].(vests := w.accounts[n].vests + vests)], v.accounts)
    requires SameTotals(ClaimedGlobals(w.globals, vests, moved), v.globals)
    ensures StakeOf(v) == Staked(StakeOf(w), n, vests, moved).(pendingShares := w.globals.pendingShares - vests,
                                                               pendingDelta := w.globals.pendingDelta - moved)
  {
    assert StakeOf(v).held == Staked(StakeOf(w), n, vests, moved).held;
  }

  method ApplyClaim(ex: Exchange, op: Operation) returns (moved: bool)
    requires ex.Valid() && op.ClaimRewards?
    modifies ex.db
    ensures ex.db.Valid() && Leaves(old(Snapshot(ex)), op, Snapshot(ex), moved)
  {
    hide Gaps, Sound, LiquidClaimed, Moved, Effects.ClaimedBy;
    var db := ex.db;
    ghost var before := In(db.All());
    if op.from in db.accounts { SoundPurse(db.All(), op.from); }
    moved := db.ClaimRewards(op.from, op.delta, op.dbd, op.vests);
    if moved {
      LiquidClaimKeeps(before.accounts[op.from], op.delta, op.dbd, db.now, db.interestRate);
      ClaimedStake(before, In(db.All()), op.from, op.vests, Moved(before.accounts[op.from], op.vests));
    }
  }

  method ApplyInterval(ex: Exchange, op: Operation) returns (moved: bool)
    requires ex.Valid() && op.WithdrawInterval? && Called(ex.db.All(), op)
    modifies ex.db
    ensures ex.db.Valid() && Leaves(old(Snapshot(ex)), op, Snapshot(ex), moved)
  {
    hide Gaps, Sound, Interval, Deposits, Effects.WithdrawnBy;
    moved := ex.db.WithdrawInterval(op.from, op.amount, op.routes);
  }

  method ApplyFunds(ex: Exchange, op: Operation) returns (moved: bool)
    requires ex.Valid() && op.ProcessFunds? && Called(ex.db.All(), op)
    modifies ex.db
    ensures ex.db.Valid() && Leaves(old(Snapshot(ex)), op, Snapshot(ex), moved)
  {
    hide Gaps, Sound, SharesFor, FundShares, Share, ProducerReward, Funded, Produced;
    var db := ex.db;
    ghost var before := In(db.All());
    var content, reward;
    moved, content, reward := db.ProcessFunds(op.producer, op.printed, op.weight, op.payFactor);
    if moved {
      ghost var p := Printing(before.globals, old(db.funds), op.printed, op.weight, op.payFactor).value;
      StakedStake(before, In(db.All()), op.producer, p.2, p.1 + Share(op.printed, VESTING_PERCENT));
    }
  }

  method ApplyClear(ex: Exchange, op: Operation) returns (moved: bool)
    requires ex.Valid() && op.ClearNull? && Called(ex.db.All(), op)
    modifies ex.db
    ensures ex.db.Valid() && Leaves(old(Snapshot(ex)), op, Snapshot(ex), moved)
  {
    hide Gaps, Sound, Cleared, Wiped;
    moved := ex.db.ClearNull(op.from);
  }

  lemma NotCalled(m: Moment, op: Operation)
    requires !Called(m.books, op) && !op.Cashout?
    ensures !Moves(m, op) && StakeAfter(m, op) == StakeOf(In(m.books))
  {
  }

  method ApplyMoving(ex: Exchange, op: Operation) returns (moved: bool)
    requires ex.Valid() && Moving(op)
    modifies ex.db
    ensures ex.db.Valid() && Leaves(old(Snapshot(ex)), op, Snapshot(ex), moved)
  {
    hide Gaps, Sound, Called, Moves, StakeAfter, StakeOf;
    if !Called(ex.db.All(), op) {
      NotCalled(Snapshot(ex), op);
      return false;
    }
    match op
    case CreateAccount(_, _, _, _, _) => moved := ApplyCreate(ex, op);
    case PowerUp(_, _, _) => moved := ApplyPowerUp(ex, op);
    case ClaimRewards(_, _, _, _) => moved := ApplyClaim(ex, op);
    case WithdrawInterval(_, _, _) => moved := ApplyInterval(ex, op);
    case ProcessFunds(_, _, _, _) => moved := ApplyFunds(ex, op);
    case ClearNull(_) => moved := ApplyClear(ex, op);
  }

  method ApplyCashout(ex: Exchange, op: Operation)
    requires ex.Valid() && op.Cashout? && Called(ex.db.All(), op)
    modifies ex.db
    ensures ex.db.Valid() && Step(old(Snapshot(ex)), op, Snapshot(ex))
    ensures ex.db.orders == old(ex.db.orders)
  {
    hide Gaps, Sound, CashedOut, CashoutPayouts, Lost, Claimable, VoteWeights, CommentOk, Effects.PaidOut;
    NothingLost();
    var _, _, _ := ex.db.Cashout(op.fund, op.comment, op.reward, op.printRate);
  }

  lemma NoPayouts(m: Moment, op: Operation)
    requires !op.Cashout? || !Called(m.books, op)
    ensures Lost(PayoutsOf(m, op)) == 0 && (op.Cashout? ==> CashoutStep(m, op) == m.books)
  {
  }

  method Apply(ex: Exchange, op: Operation) returns (moved: bool)
    requires ex.Valid()
    modifies ex, ex.db
    ensures ex.Valid() && Step(old(Snapshot(ex)), op, Snapshot(ex))
    ensures moved <==> Moves(old(Snapshot(ex)), op)
  {
    hide Gaps, Sound, Orderly, Lost, Called, PayoutsOf, CashoutStep, Moves, StakeAfter, StakeOf, SameStake;
    moved := false;
    ghost var before := Snapshot(ex);
    if !op.Cashout? || !Called(ex.db.All(), op) { NoPayouts(before, op); }
    if !Moving(op) && !op.Cashout? { NothingMoves(before, op); }
    if op.Block? {
      ex.db.now, ex.db.interestRate, ex.db.median := op.time, op.rate, op.feed;
    } else if op.Cashout? {
      NoneMove(before, op);
      if Called(ex.db.All(), op) { ApplyCashout(ex, op); }
    } else if Moving(op) {
      moved := ApplyMoving(ex, op);
    } else {
      ApplyOther(ex, op);
      StakeStays(In(before.books), In(ex.db.All()));
    }
  }

  lemma NoneMove(m: Moment, op: Operation)
    requires op.Cashout?
    ensures !Moves(m, op) && StakeAfter(m, op) == StakeOf(In(CashoutStep(m, op)))
  {
  }

  method ApplyOther(ex: Exchange, op: Operation)
    requires ex.Valid() && !Moving(op) && !op.Cashout? && !op.Block?
    modifies ex, ex.db
    ensures ex.Valid() && Gaps(ex.db.All()) == old(Gaps(ex.db.All()))
    ensures Snapshot(ex) == old(Snapshot(ex)).(books := ex.db.All())
    ensures SameStake(old(In(ex.db.All())), In(ex.db.All()))
  {
    hide Gaps, Sound, Orderly, Called;
    if op.CreateOrder? || op.CancelOrder? || op.ExpireOrders? {
      if Called(ex.db.All(), op) { ApplyMarket(ex, op); }
    } else if op.EscrowTransfer? || op.EscrowApprove? || op.EscrowDispute? || op.EscrowRelease? || op.ExpireEscrows? {
      ApplyEscrow(ex, op);
    } else if op.Convert? || op.ProcessConversions? {
      ApplyConversion(ex, op);
    } else {
      ApplyTransfer(ex, op);
    }
  }

  /** The states of a run, one before each operation and one after the last. */
  ghost predicate Trace(trace: seq<Moment>, ops: seq<Operation>)
  {
    |trace| == |ops| + 1 && forall i :: 0 <= i < |ops| ==> Step(trace[i], ops[i], trace[i + 1])
  }

  /** What the payouts of a run lose together. */
  function RunLoses(trace: seq<Moment>, ops: seq<Operation>): int
    requires |trace| == |ops| + 1
  {
    if ops == [] then 0
    else
      var n := |ops| - 1;
      RunLoses(trace[..|ops|], ops[..n]) + Lost(PayoutsOf(trace[n], ops[n]))
  }

  /** Every reward that the run pays out, in any of its states, is nothing or buys a share. */
  ghost predicate AllBacked(trace: seq<Moment>, ops: seq<Operation>)
    requires |trace| == |ops| + 1
  {
    forall i :: 0 <= i < |ops| ==> Backed(PayoutsOf(trace[i], ops[i]))
  }

  /** A run without its last operation. */
  lemma TraceInit(trace: seq<Moment>, ops: seq<Operation>)
    requires Trace(trace, ops) && ops != []
    ensures Trace(trace[..|ops|], ops[..|ops| - 1])
  {
    hide Step;
    var n := |ops| - 1;
    forall i | 0 <= i < n ensures Step(trace[..|ops|][i], ops[..n][i], trace[..|ops|][i + 1]) {
      assert Step(trace[i], ops[i], trace[i + 1]);
    }
  }

  lemma {:induction false} TraceGaps(trace: seq<Moment>, ops: seq<Operation>)
    requires Trace(trace, ops)
    ensures Gaps(trace[|ops|].books) == Less(Gaps(trace[0].books), Taken(0, RunLoses(trace, ops)))
  {
    hide Gaps, PayoutsOf, Lost, CashoutStep;
    if ops != [] {
      var n := |ops| - 1;
      TraceInit(trace, ops);
      TraceGaps(trace[..|ops|], ops[..n]);
      assert Step(trace[n], ops[n], trace[n + 1]);
    }
  }

  lemma BackedInit(trace: seq<Moment>, ops: seq<Operation>)
    requires |trace| == |ops| + 1 && ops != []
    ensures var n := |ops| - 1;
            AllBacked(trace, ops) <==> AllBacked(trace[..|ops|], ops[..n]) && Backed(PayoutsOf(trace[n], ops[n]))
  {
    hide PayoutsOf, Backed;
    var n := |ops| - 1;
    var t, o := trace[..|ops|], ops[..n];
    forall i | 0 <= i < n ensures PayoutsOf(t[i], o[i]) == PayoutsOf(trace[i], ops[i]) { }
    if AllBacked(t, o) && Backed(PayoutsOf(trace[n], ops[n])) {
      forall i | 0 <= i < |ops| ensures Backed(PayoutsOf(trace[i], ops[i])) {
        if i < n { assert Backed(PayoutsOf(t[i], o[i])); }
      }
    }
  }

  lemma {:induction false} RunLosesNothing(trace: seq<Moment>, ops: seq<Operation>)
    requires |trace| == |ops| + 1
    ensures RunLoses(trace, ops) >= 0 && (RunLoses(trace, ops) == 0 <==> AllBacked(trace, ops))
  {
    hide PayoutsOf, Lost, Backed;
    if ops != [] {
      var n := |ops| - 1;
      RunLosesNothing(trace[..|ops|], ops[..n]);
      BackedInit(trace, ops);
      PayoutsLose(trace[n], ops[n]);
    }
  }

  /** A ledger that starts balanced is balanced after a run if and only if all its payouts bought shares. */
  method Run(ex: Exchange, ops: seq<Operation>) returns (ghost trace: seq<Moment>)
    requires ex.Valid()
    modifies ex, ex.db
    ensures ex.Valid() && Trace(trace, ops)
    ensures trace[0] == old(Snapshot(ex)) && trace[|ops|] == Snapshot(ex)
    ensures Gaps(ex.db.All()) == Less(old(Gaps(ex.db.All())), Taken(0, RunLoses(trace, ops)))
    ensures old(Conserved(ex.db.All())) ==> (Conserved(ex.db.All()) <==> AllBacked(trace, ops))
  {
    hide Gaps, Sound, Orderly, RunLoses, AllBacked, Step;
    trace := [Snapshot(ex)];
    for i := 0 to |ops|
      invariant ex.Valid() && |trace| == i + 1
      invariant trace[0] == old(Snapshot(ex)) && trace[i] == Snapshot(ex)
      invariant forall j :: 0 <= j < i ==> Step(trace[j], ops[j], trace[j + 1])
    {
      var _ := Apply(ex, ops[i]);
      trace := trace + [Snapshot(ex)];
    }
    TraceGaps(trace, ops);
    RunLosesNothing(trace, ops);
  }

  /** From genesis on. */
  method RunFromGenesis(founder: Name, nobody: Name, supply: nat, ops: seq<Operation>)
    returns (ex: Exchange, ghost trace: seq<Moment>)
    requires founder != nobody
    ensures ex.Valid() && Trace(trace, ops)
    ensures trace[0] == Moment(Genesis(founder, nobody, supply), 0, 0, None) && trace[|ops|] == Snapshot(ex)
    ensures Conserved(ex.db.All()) <==> AllBacked(trace, ops)
  {
    hide Gaps, Sound, AllBacked, Trace;
    var db := new Db(founder, nobody, supply);
    ex := new Exchange(db);
    trace := Run(ex, ops);
  }
}
