/**
 The token ledger. Each operation moves what it takes: the gaps between what is recorded and
 what is held do not change, whether or not the operation succeeds. The exception is a reward
 so small that it buys no vesting share, and it is stated exactly.
 */
module Ledger {
  import opened Common
  import opened Sums
  import opened OrderMath
  import opened Orders
  import opened Holdings
  import opened Bookkeeping
  import opened Settlement
  import opened Routing
  import opened Rewards
  import opened Effects

  const SAVINGS_DELAY: nat := 60 * 60 * 24 * 3
  const CONVERSION_DELAY: nat := 60 * 60 * 84
  const MAX_CREATION_FEE: int := 1000000000

  // ----- genesis -----

  /** The balances of an account that has just been created. */
  const NEW_PURSE: Purse := Purse(0, 0, 0, DbdPot(0, 0, 0, 0), DbdPot(0, 0, 0, 0), 0, 0, 0, 0)

  function Genesis(founder: Name, nobody: Name, supply: nat): Books
  {
    Books(map[founder := NEW_PURSE.(delta := supply), nobody := NEW_PURSE],
          map[], map[], map[], map[], map[], Globals(supply, 0, 0, 0, 0, 0, 0))
  }

  lemma NewPurse(delta: nat)
    ensures OfPurse(NEW_PURSE.(delta := delta)) == Amounts(delta, 0, 0, 0) && PurseOk(NEW_PURSE.(delta := delta))
    ensures NEW_PURSE == NEW_PURSE.(delta := 0)
  {
  }

  lemma GenesisBalanced(founder: Name, nobody: Name, supply: nat)
    requires founder != nobody
    ensures Sound(Genesis(founder, nobody, supply)) && Conserved(Genesis(founder, nobody, supply))
  {
    hide Gaps, Sound, OfPurse, PurseOk;
    NewPurse(supply);
    NewPurse(0);
    var b := Genesis(founder, nobody, supply);
    var empty := b.(accounts := map[]);
    var one := b.(accounts := map[founder := NEW_PURSE.(delta := supply)]);
    Balanced(empty);
    AddPurse(empty, founder, NEW_PURSE.(delta := supply));
    AddPurse(one, nobody, NEW_PURSE);
    assert empty.accounts[founder := NEW_PURSE.(delta := supply)] == one.accounts;
    assert one.accounts[nobody := NEW_PURSE] == b.accounts;
  }

  // ----- what is due -----

  function WithdrawalDue(now: nat): Withdrawal -> bool
  {
    (w: Withdrawal) => w.due <= now
  }

  function RequestDue(now: nat): Conversion -> bool
  {
    (c: Conversion) => c.due <= now
  }

  function EscrowLapsed(now: nat): Escrow -> bool
  {
    (e: Escrow) => Lapsed(e, now)
  }

  lemma IssueSettles(before: Accounts, accounts: Accounts, table: map<Key, Conversion>, left: map<Key, Conversion>,
                     now: nat, median: Price, rate: int, k: Key)
    requires Settling(before, accounts, table, left, ConversionOwes(now, median), now, rate)
    requires k in left && left[k].due <= now && k.0 in accounts
    requires Exchanged(left[k].amount, median.quote, median.base).Ok?
    ensures var due := DueOf(Delta, Exchanged(left[k].amount, median.quote, median.base).value);
            Settling(before, accounts[k.0 := Received(accounts[k.0], due, now, rate)], table, left - {k},
                     ConversionOwes(now, median), now, rate)
  {
    hide Settling, Received, Exchanged, ConversionOwes;
    forall n { ConversionDue(now, median, k, left[k], n); }
    var due := DueOf(Delta, Exchanged(left[k].amount, median.quote, median.base).value);
    SettlingNext(before, accounts, table, left, ConversionOwes(now, median), now, rate, k, k.0, due);
  }

  lemma IssueSettled(before: Accounts, accounts: Accounts, table: map<Key, Conversion>, left: map<Key, Conversion>,
                     now: nat, median: Price, rate: int)
    requires Settling(before, accounts, table, left, ConversionOwes(now, median), now, rate)
    requires forall k :: k in left ==> left[k].due > now
    ensures Settled(before, accounts, table, ConversionOwes(now, median), now, rate)
  {
    hide Settling, Settled, ConversionOwes;
    forall n, k | k in left ensures ConversionOwes(now, median)(n, k, left[k]) == NO_DUE {
      ConversionDue(now, median, k, left[k], n);
    }
    SettlingDone(before, accounts, table, left, ConversionOwes(now, median), now, rate);
  }

  /** What a refund pays: the two amounts, and the fee that was not paid to the agent. */
  lemma RefundReceives(accounts: Accounts, n: Name, e: Escrow, now: int, rate: int)
    requires n in accounts
    ensures n in PaidBoth(accounts, n, e.delta, e.dbd, now, rate)
    ensures Paid(PaidBoth(accounts, n, e.delta, e.dbd, now, rate), n, e.feeSymbol, e.fee, now, rate)
         == accounts[n := Received(accounts[n], EscrowDue(e), now, rate)]
  {
    hide Received;
    var p := accounts[n];
    var both := Both(DueOf(Delta, e.delta), DueOf(Dbd, e.dbd));
    PaidReceives(accounts, n, Delta, e.delta, now, rate);
    PaidReceives(Paid(accounts, n, Delta, e.delta, now, rate), n, Dbd, e.dbd, now, rate);
    ReceivedTwice(p, DueOf(Delta, e.delta), DueOf(Dbd, e.dbd), now, rate);
    PaidReceives(PaidBoth(accounts, n, e.delta, e.dbd, now, rate), n, e.feeSymbol, e.fee, now, rate);
    ReceivedTwice(p, both, DueOf(e.feeSymbol, e.fee), now, rate);
  }

  // ----- escrow -----

  function Approved(e: Escrow, who: Name): Escrow
  {
    e.(toApproved := e.toApproved || who == e.to, agentApproved := e.agentApproved || who == e.agent)
  }

  predicate Approvable(escrows: map<Key, Escrow>, k: Key, to: Name, agent: Name, who: Name, now: nat)
  {
    && k in escrows
    && var e := escrows[k];
       && e.to == to && e.agent == agent && e.ratifyBy >= now && (who == to || who == agent)
       && (who == to ==> !e.toApproved) && (who == agent ==> !e.agentApproved)
  }

  predicate Disputable(e: Escrow, to: Name, agent: Name, now: nat)
  {
    now < e.expires && e.toApproved && e.agentApproved && !e.disputed && e.to == to && e.agent == agent
  }

  /** Who may release an escrow to whom. */
  predicate Releasable(escrows: map<Key, Escrow>, k: Key, to: Name, agent: Name, who: Name, receiver: Name, now: nat)
  {
    && k in escrows
    && var e := escrows[k];
       && e.to == to && e.agent == agent && (receiver == k.0 || receiver == e.to) && e.toApproved && e.agentApproved
       && (if e.disputed then who == e.agent
           else && (who == k.0 || who == e.to)
                && (e.expires > now ==> if who == k.0 then receiver == e.to else receiver == k.0))
  }

  /** Before an escrow expires its parties can only give to each other; once it is disputed the agent alone decides. */
  lemma ReleaseRules(escrows: map<Key, Escrow>, k: Key, to: Name, agent: Name, who: Name, receiver: Name, now: nat)
    requires k in escrows && k.0 != escrows[k].to
    ensures var e, parties := escrows[k], {k.0, escrows[k].to};
            Releasable(escrows, k, to, agent, who, receiver, now) <==>
              && e.to == to && e.agent == agent && e.toApproved && e.agentApproved && receiver in parties
              && (e.disputed ==> who == e.agent)
              && (!e.disputed ==> who in parties && (now < e.expires ==> who != receiver))
  {
  }

  function Deducted(escrows: map<Key, Escrow>, k: Key, delta: int, dbd: int): map<Key, Escrow>
    requires k in escrows
  {
    var e := escrows[k].(delta := escrows[k].delta - delta, dbd := escrows[k].dbd - dbd);
    if e.delta == 0 && e.dbd == 0 then escrows - {k} else escrows[k := e]
  }

  lemma Deduct(b: Books, k: Key, delta: int, dbd: int)
    requires Sound(b) && k in b.escrows && b.escrows[k].fee == 0 && delta <= b.escrows[k].delta
    requires dbd <= b.escrows[k].dbd
    ensures var c := b.(escrows := Deducted(b.escrows, k, delta, dbd));
            Gaps(c) == More(Gaps(b), Amounts(delta, dbd, 0, 0)) && Sound(c)
  {
    hide Gaps, Sound;
    var e := b.escrows[k].(delta := b.escrows[k].delta - delta, dbd := b.escrows[k].dbd - dbd);
    SoundEscrow(b, k);
    if e.delta == 0 && e.dbd == 0 { DropEscrow(b, k); } else { SetEscrow(b, k, e); }
  }

  // ----- inflation -----

  const CONTENT_PERCENT: int := 7500
  const VESTING_PERCENT: int := 1500
  const MAX_WITNESSES: int := 21

  function ProducerReward(rest: int, weight: nat, payFactor: nat): (r: int)
    requires rest >= 0 && payFactor > 0
    ensures r >= 0
  {
    FloorSigned(rest * MAX_WITNESSES, weight, payFactor);
    Floor(rest * MAX_WITNESSES, weight, payFactor)
  }

  /** What a block prints, before the producer's shares. */
  function Inflated(g: Globals, content: int, vesting: int, reward: int): Globals
  {
    g.(supply := g.supply + content + vesting + reward, vestingFund := g.vestingFund + vesting)
  }

  /** A reward fund with its part of the content reward. */
  function Funded(f: Fund, reward: int): Fund
    requires reward >= 0
  {
    f.(balance := f.balance + Share(reward, f.percent))
  }

  function FundTerm(funds: map<nat, Fund>, reward: int): nat -> int
    requires reward >= 0
  {
    k => if k in funds then Share(reward, funds[k].percent) else 0
  }

  /** What all reward funds together get of a content reward. */
  ghost function FundShares(funds: map<nat, Fund>, reward: int): int
    requires reward >= 0
  {
    Sum(funds.Keys, FundTerm(funds, reward))
  }

  lemma FundsSoFar(funds: map<nat, Fund>, reward: int, done: set<nat>)
    requires reward >= 0 && done <= funds.Keys
    ensures 0 <= Sum(done, FundTerm(funds, reward)) <= FundShares(funds, reward)
  {
    var none: nat -> int := k => 0;
    SumZero(done, none);
    SumMonotone(done, done, none, FundTerm(funds, reward));
    SumMonotone(done, funds.Keys, FundTerm(funds, reward), FundTerm(funds, reward));
  }

  lemma FundNext(funds: map<nat, Fund>, reward: int, todo: set<nat>, k: nat)
    requires reward >= 0 && k in todo && todo <= funds.Keys
    ensures var done := Sum(funds.Keys - todo, FundTerm(funds, reward));
            var next := Sum(funds.Keys - (todo - {k}), FundTerm(funds, reward));
            0 <= next == done + Share(reward, funds[k].percent) <= FundShares(funds, reward)
  {
    SumInsert(funds.Keys - todo, k, FundTerm(funds, reward));
    assert funds.Keys - todo + {k} == funds.Keys - (todo - {k});
    FundsSoFar(funds, reward, funds.Keys - (todo - {k}));
  }

  lemma FundsAll(funds: map<nat, Fund>, reward: int)
    requires reward >= 0
    ensures Sum(funds.Keys, FundTerm(funds, reward)) == FundShares(funds, reward)
  {
  }

  /** What a block prints for a given amount: the totals with it, the producer's reward and the shares it buys. */
  ghost function Printing(g: Globals, funds: map<nat, Fund>, printed: int, weight: nat, payFactor: nat)
    : Outcome<(Globals, int, int)>
    requires printed >= 0 && payFactor > 0
  {
    var most, vesting := Share(printed, CONTENT_PERCENT), Share(printed, VESTING_PERCENT);
    var content := FundShares(funds, most);
    if content > most then Aborted
    else
      FundsSoFar(funds, most, {});
      PrintedParts(printed, content);
      var reward := ProducerReward(printed - content - vesting, weight, payFactor);
      var inflated := Inflated(g, content, vesting, reward);
      match SharesFor(inflated, reward, false)
      case Aborted => Aborted
      case Ok(shares) => Ok((VestedGlobals(inflated, reward, shares, false), reward, shares))
  }

  /** The content reward is at most three quarters, so something is left for the producer. */
  lemma PrintedParts(printed: int, content: int)
    requires printed >= 0 && 0 <= content <= Share(printed, CONTENT_PERCENT)
    ensures 0 <= content + Share(printed, VESTING_PERCENT) <= printed
  {
  }

  /** By how much each reward fund has grown. */
  function Growth(funds: map<nat, Fund>, grown: map<nat, Fund>): nat -> int
  {
    k => if k in funds && k in grown then grown[k].balance - funds[k].balance else 0
  }

  /** Every reward fund gets its percentage of `most`, and `content` is what they get together. */
  ghost predicate FundsGrow(funds: map<nat, Fund>, grown: map<nat, Fund>, most: int, content: int)
  {
    && grown.Keys == funds.Keys && content == Sum(funds.Keys, Growth(funds, grown))
    && forall k :: k in funds ==>
         && grown[k].percent == funds[k].percent
         && RoundedDown(grown[k].balance - funds[k].balance, most, funds[k].percent, HUNDRED_PERCENT)
  }

  /**
   What a block prints: 75 percent for the reward funds, 15 for the vesting fund, and for the producer the pay of
   a witness of this weight out of what is left; it buys shares at the price after the vesting fund has grown.
   */
  ghost predicate Produced(w: Wallets, v: Wallets, funds: map<nat, Fund>, grown: map<nat, Fund>, producer: Name,
                           printed: int, weight: nat, payFactor: nat, content: int, reward: int)
  {
    exists most, vesting ::
      && RoundedDown(most, printed, CONTENT_PERCENT, HUNDRED_PERCENT)
      && RoundedDown(vesting, printed, VESTING_PERCENT, HUNDRED_PERCENT)
      && content <= most && FundsGrow(funds, grown, most, content)
      && RoundedDown(reward, (printed - content - vesting) * MAX_WITNESSES, weight, payFactor)
      && var g := w.globals.(supply := w.globals.supply + content + vesting + reward,
                             vestingFund := w.globals.vestingFund + vesting);
         Bought(Wallets(w.accounts, g), v, producer, reward)
  }

  lemma FundedGrow(funds: map<nat, Fund>, grown: map<nat, Fund>, most: int)
    requires most >= 0 && grown.Keys == funds.Keys
    requires forall k :: k in funds ==> grown[k] == Funded(funds[k], most)
    ensures FundsGrow(funds, grown, most, FundShares(funds, most))
  {
    hide Share, RoundedDown;
    forall k | k in funds
      ensures RoundedDown(grown[k].balance - funds[k].balance, most, funds[k].percent, HUNDRED_PERCENT)
    {
      ShareRounds(most, funds[k].percent);
    }
    SumExt(funds.Keys, FundTerm(funds, most), Growth(funds, grown));
  }

  lemma GrownFunded(funds: map<nat, Fund>, grown: map<nat, Fund>, most: int, content: int)
    requires most >= 0 && FundsGrow(funds, grown, most, content)
    ensures content == FundShares(funds, most)
    ensures forall k :: k in funds ==> grown[k] == Funded(funds[k], most)
  {
    hide Share, RoundedDown;
    forall k | k in funds ensures grown[k] == Funded(funds[k], most) {
      ShareRounds(most, funds[k].percent);
      RoundedOnce(grown[k].balance - funds[k].balance, Share(most, funds[k].percent), most, funds[k].percent,
                  HUNDRED_PERCENT);
    }
    SumExt(funds.Keys, FundTerm(funds, most), Growth(funds, grown));
  }

  /** `ProcessFunds` does this. */
  lemma PrintingProduces(w: Wallets, v: Wallets, funds: map<nat, Fund>, grown: map<nat, Fund>, producer: Name,
                         printed: int, weight: nat, payFactor: nat)
    requires printed >= 0 && payFactor > 0 && producer in w.accounts
    requires Printing(w.globals, funds, printed, weight, payFactor).Ok?
    requires grown.Keys == funds.Keys
    requires var most := Share(printed, CONTENT_PERCENT);
             forall k :: k in funds ==> grown[k] == Funded(funds[k], most)
    requires var p := Printing(w.globals, funds, printed, weight, payFactor).value;
             v == Wallets(w.accounts[producer := Vested(w.accounts[producer], p.1, p.2, false)], p.0)
    ensures Produced(w, v, funds, grown, producer, printed, weight, payFactor,
                     FundShares(funds, Share(printed, CONTENT_PERCENT)),
                     Printing(w.globals, funds, printed, weight, payFactor).value.1)
  {
    hide Share, RoundedDown, FundShares, SharesFor, Bought, FundsGrow, Floor, Vested, VestedGlobals;
    var most, vesting := Share(printed, CONTENT_PERCENT), Share(printed, VESTING_PERCENT);
    var content := FundShares(funds, most);
    var p := Printing(w.globals, funds, printed, weight, payFactor).value;
    ShareRounds(printed, CONTENT_PERCENT);
    ShareRounds(printed, VESTING_PERCENT);
    FundedGrow(funds, grown, most);
    FundsSoFar(funds, most, {});
    PrintedParts(printed, content);
    FloorRounds((printed - content - vesting) * MAX_WITNESSES, weight, payFactor);
    var g := Inflated(w.globals, content, vesting, p.1);
    DepositBuys(Wallets(w.accounts, g), producer, p.1, p.2);
    assert FundsGrow(funds, grown, most, content);
  }

  /** And nothing else than what it does is this. */
  lemma ProducedPrints(w: Wallets, v: Wallets, funds: map<nat, Fund>, grown: map<nat, Fund>, producer: Name,
                       printed: int, weight: nat, payFactor: nat, content: int, reward: int)
    requires printed >= 0 && payFactor > 0
    requires Produced(w, v, funds, grown, producer, printed, weight, payFactor, content, reward)
    ensures var most := Share(printed, CONTENT_PERCENT);
            content == FundShares(funds, most) && forall k :: k in funds ==> grown[k] == Funded(funds[k], most)
    ensures var p := Printing(w.globals, funds, printed, weight, payFactor);
            p.Ok? && p.value.0 == v.globals && p.value.1 == reward && producer in w.accounts
            && v.accounts == w.accounts[producer := Vested(w.accounts[producer], reward, p.value.2, false)]
  {
    hide Share, RoundedDown, FundShares, SharesFor, FundsGrow, Floor, PriceKept;
    var most, vesting :|
      && RoundedDown(most, printed, CONTENT_PERCENT, HUNDRED_PERCENT)
      && RoundedDown(vesting, printed, VESTING_PERCENT, HUNDRED_PERCENT)
      && content <= most && FundsGrow(funds, grown, most, content)
      && RoundedDown(reward, (printed - content - vesting) * MAX_WITNESSES, weight, payFactor)
      && var g := w.globals.(supply := w.globals.supply + content + vesting + reward,
                             vestingFund := w.globals.vestingFund + vesting);
         Bought(Wallets(w.accounts, g), v, producer, reward);
    ShareRounds(printed, CONTENT_PERCENT);
    RoundedOnce(most, Share(printed, CONTENT_PERCENT), printed, CONTENT_PERCENT, HUNDRED_PERCENT);
    ShareRounds(printed, VESTING_PERCENT);
    RoundedOnce(vesting, Share(printed, VESTING_PERCENT), printed, VESTING_PERCENT, HUNDRED_PERCENT);
    GrownFunded(funds, grown, most, content);
    FundsSoFar(funds, most, {});
    PrintedParts(printed, content);
    var rest := (printed - content - vesting) * MAX_WITNESSES;
    FloorRounds(rest, weight, payFactor);
    RoundedOnce(reward, Floor(rest, weight, payFactor), rest, weight, payFactor);
    var g := Inflated(w.globals, content, vesting, reward);
    DepositIs(g, reward, v.globals.totalVests - g.totalVests);
  }

  // ----- what is asked of operations that move vesting shares -----

  predicate Creatable(accounts: Accounts, creator: Name, name: Name, fee: int, required: int, nobody: Name)
  {
    && creator in accounts && nobody in accounts && name !in accounts
    && 0 <= fee == required && fee <= MAX_CREATION_FEE && fee <= accounts[creator].delta
  }

  /** Whose shares a power-up buys: the receiver's, or the account's own if none is named. */
  function Target(from: Name, to: Name): Name
  {
    if to == "" then from else to
  }

  predicate PowersUp(w: Wallets, from: Name, to: Name, amount: int)
  {
    && amount > 0 && from in w.accounts && Target(from, to) in w.accounts
    && w.accounts[from].delta >= amount && SharesFor(w.globals, amount, false).Ok?
  }

  predicate MayClaim(accounts: Accounts, name: Name, delta: int, dbd: int, vests: int)
  {
    && name in accounts && 0 <= delta <= accounts[name].rewardDelta
    && 0 <= dbd <= accounts[name].rewardDbd && 0 <= vests <= accounts[name].rewardVests
    && (delta > 0 || dbd > 0 || vests > 0)
  }

  // ----- the null account -----

  /** What was in a DBD balance leaves it; interest that comes due then stays. */
  function DrainedPot(pot: DbdPot, now: int, rate: int): (DbdPot, int)
  {
    if pot.amount == 0 then (pot, 0)
    else
      var (accrued, interest) := Accrued(pot, now, rate);
      (accrued.(amount := accrued.amount - pot.amount), interest)
  }

  function Drained(p: Purse, now: int, rate: int): Purse
  {
    p.(delta := 0, savings := 0, dbd := DrainedPot(p.dbd, now, rate).0,
       savingsDbd := DrainedPot(p.savingsDbd, now, rate).0)
  }

  function DrainInterest(p: Purse, now: int, rate: int): int
  {
    DrainedPot(p.dbd, now, rate).1 + DrainedPot(p.savingsDbd, now, rate).1
  }

  /** The backing of unclaimed shares goes with the shares. */
  function Backing(p: Purse): int
  {
    if p.rewardVests > 0 then p.rewardVestingDelta else 0
  }

  function AllDelta(p: Purse, worth: int): int
  {
    p.delta + p.savings + worth + p.rewardDelta + Backing(p)
  }

  function AllDbd(p: Purse): int
  {
    p.dbd.amount + p.savingsDbd.amount + p.rewardDbd
  }

  /** Accounts and totals without what the null account held. */
  function Cleared(w: Wallets, nobody: Name, now: int, rate: int): Outcome<Wallets>
    requires nobody in w.accounts
  {
    var p, g := w.accounts[nobody], w.globals;
    match if p.vests > 0 then WorthOf(g, p.vests) else Ok(0)
    case Aborted => Aborted
    case Ok(worth) =>
      var supply, dbdSupply := g.supply - AllDelta(p, worth), g.dbdSupply + DrainInterest(p, now, rate) - AllDbd(p);
      if supply < 0 || dbdSupply < 0 then Aborted
      else Ok(Wallets(w.accounts[nobody := Stripped(Drained(p, now, rate), Backing(p))],
                      StrippedGlobals(g, p, worth, Backing(p)).(supply := supply, dbdSupply := dbdSupply)))
  }

  lemma VestsSigned(p: Purse)
    requires PurseOk(p)
    ensures p.vests >= 0
  {
  }

  lemma KeepsSupply(g: Globals, p: Purse, worth: int, backing: int)
    ensures var h := StrippedGlobals(g, p, worth, backing); h.supply == g.supply && h.dbdSupply == g.dbdSupply
  {
  }

  lemma DrainKeeps(p: Purse, now: int, rate: int)
    ensures var q := Drained(p, now, rate);
            && q.vests == p.vests && q.rewardDelta == p.rewardDelta && q.rewardDbd == p.rewardDbd
            && q.rewardVests == p.rewardVests && q.rewardVestingDelta == p.rewardVestingDelta
  {
  }

  function Stripped(p: Purse, backing: int): Purse
  {
    p.(vests := 0, rewardDelta := 0, rewardDbd := 0, rewardVests := 0,
       rewardVestingDelta := p.rewardVestingDelta - backing)
  }

  function StrippedGlobals(g: Globals, p: Purse, worth: int, backing: int): Globals
  {
    g.(totalVests := g.totalVests - p.vests, vestingFund := g.vestingFund - worth,
       pendingShares := g.pendingShares - p.rewardVests, pendingDelta := g.pendingDelta - backing)
  }

  /** What was in a DBD balance is gone; what is left is the interest that came due, if there was anything in it. */
  ghost predicate PotCleared(pot: DbdPot, left: DbdPot, now: int, rate: int)
  {
    if pot.amount == 0 then left == pot
    else Accrues(pot, left.(amount := left.amount + pot.amount), left.amount, now, rate)
  }

  /**
   The null account is left with interest alone. Its shares go at the price of a sale, and everything it had, with
   what its shares were worth, leaves the supplies; backing of unclaimed shares leaves only with such shares.
   */
  ghost predicate Wiped(w: Wallets, v: Wallets, nobody: Name, now: int, rate: int)
  {
    && nobody in w.accounts && nobody in v.accounts
    && var p, q, g, h := w.accounts[nobody], v.accounts[nobody], w.globals, v.globals;
       var worth, backing := g.vestingFund - h.vestingFund, g.pendingDelta - h.pendingDelta;
       && v.accounts == w.accounts[nobody := q]
       && q == Purse(0, 0, 0, q.dbd, q.savingsDbd, 0, 0, 0, p.rewardVestingDelta - backing)
       && PotCleared(p.dbd, q.dbd, now, rate) && PotCleared(p.savingsDbd, q.savingsDbd, now, rate)
       && backing == (if p.rewardVests > 0 then p.rewardVestingDelta else 0)
       && (if p.vests > 0 then SaleKept(g.vestingFund, g.totalVests, h.vestingFund, h.totalVests) else worth == 0)
       && var delta := p.delta + p.savings + p.rewardDelta + backing + worth;
          var dbd := p.dbd.amount - q.dbd.amount + p.savingsDbd.amount - q.savingsDbd.amount + p.rewardDbd;
          && h == g.(supply := g.supply - delta, dbdSupply := g.dbdSupply - dbd, vestingFund := g.vestingFund - worth,
                     totalVests := g.totalVests - p.vests, pendingDelta := g.pendingDelta - backing,
                     pendingShares := g.pendingShares - p.rewardVests)
          && h.supply >= 0 && h.dbdSupply >= 0
  }

  lemma DrainedClears(pot: DbdPot, now: int, rate: int)
    ensures PotCleared(pot, DrainedPot(pot, now, rate).0, now, rate)
    ensures DrainedPot(pot, now, rate).0.amount == DrainedPot(pot, now, rate).1
  {
    hide Accrues, Accrued;
    var (accrued, interest) := Accrued(pot, now, rate);
    AccruedExact(pot, now, rate);
    AccruesAdds(pot, accrued, interest, now, rate);
  }

  lemma ClearedWipes(w: Wallets, nobody: Name, now: int, rate: int)
    requires nobody in w.accounts && w.accounts[nobody].vests >= 0 && Cleared(w, nobody, now, rate).Ok?
    ensures Wiped(w, Cleared(w, nobody, now, rate).value, nobody, now, rate)
  {
    hide PotCleared, DrainedPot, WorthOf, SaleKept;
    var p := w.accounts[nobody];
    DrainedClears(p.dbd, now, rate);
    DrainedClears(p.savingsDbd, now, rate);
    if p.vests > 0 { SaleIs(w.globals, p.vests, WorthOf(w.globals, p.vests).value); }
  }

  class Db {
    var accounts: Accounts
    var escrows: map<Key, Escrow>
    var conversions: map<Key, Conversion>
    var withdrawals: map<Key, Withdrawal>
    var orders: Book
    var funds: map<nat, Fund>
    var globals: Globals
    var now: nat
    var interestRate: nat
    /** The median feed: `base` DBD for `quote` DELTA. */
    var median: Option<Price>

    function All(): Books
      reads this
    {
      Books(accounts, escrows, conversions, withdrawals, orders, funds, globals)
    }

    ghost predicate Valid()
      reads this
    {
      Sound(All())
    }

    /** Genesis: the whole supply belongs to one account. */
    constructor (founder: Name, nobody: Name, supply: nat)
      requires founder != nobody
      ensures Valid() && Conserved(All()) && now == 0 && interestRate == 0 && median == None
      ensures All() == Genesis(founder, nobody, supply)
    {
      accounts := map[founder := NEW_PURSE.(delta := supply), nobody := NEW_PURSE];
      escrows, conversions, withdrawals, orders, funds := map[], map[], map[], map[], map[];
      globals := Globals(supply, 0, 0, 0, 0, 0, 0);
      now, interestRate, median := 0, 0, None;
      new;
      GenesisBalanced(founder, nobody, supply);
    }

    /** What the undo session does when an operation aborts. */
    method Restore(b: Books)
      modifies this`accounts, this`escrows, this`conversions, this`withdrawals, this`orders, this`funds, this`globals
      ensures All() == b
    {
      accounts, escrows, conversions := b.accounts, b.escrows, b.conversions;
      withdrawals, orders, funds, globals := b.withdrawals, b.orders, b.funds, b.globals;
    }

    // ----- adjustments -----

    /** The purse and the supply that follow from an adjustment. */
    method Enter(name: Name, p: Purse, interest: int)
      requires Valid() && name in accounts && PurseOk(p)
      modifies this`accounts, this`globals
      ensures Valid() && accounts == old(accounts)[name := p]
      ensures globals == old(globals).(dbdSupply := old(globals).dbdSupply + interest)
      ensures Gaps(All()) == More(More(Less(old(Gaps(All())), OfPurse(p)), OfPurse(old(accounts)[name])),
                                  One(Dbd, interest))
    {
      hide Gaps, Sound, OfPurse;
      SetPurse(All(), name, p);
      accounts := accounts[name := p];
      SetGlobals(All(), globals.(dbdSupply := globals.dbdSupply + interest));
      globals := globals.(dbdSupply := globals.dbdSupply + interest);
    }

    /** `adjust_balance` */
    method AdjustBalance(name: Name, s: Symbol, x: int) returns (ok: bool)
      requires Valid()
      modifies this`accounts, this`globals
      ensures Valid() && accounts.Keys == old(accounts).Keys
      ensures !ok ==> All() == old(All())
      ensures ok ==> name in old(accounts) && accounts == Paid(old(accounts), name, s, x, now, interestRate)
      ensures name in old(accounts) && Liquid(old(accounts)[name], s) + x >= 0 ==> ok
      ensures ok ==> var interest := Adjusted(old(accounts)[name], s, x, now, interestRate).1;
                     globals == old(globals).(dbdSupply := old(globals).dbdSupply + interest)
      ensures ok ==> Gaps(All()) == Less(old(Gaps(All())), One(s, x))
    {
      hide Gaps, Sound, Adjusted, OfPurse;
      if name !in accounts { return false; }
      SoundPurse(All(), name);
      AdjustedOk(accounts[name], s, x, now, interestRate);
      AdjustedHeld(accounts[name], s, x, now, interestRate);
      var (p, interest) := Adjusted(accounts[name], s, x, now, interestRate);
      if Liquid(p, s) < 0 { return false; }
      Enter(name, p, interest);
      return true;
    }

    /** `adjust_savings_balance` */
    method AdjustSavings(name: Name, s: Symbol, x: int) returns (ok: bool)
      requires Valid()
      modifies this`accounts, this`globals
      ensures Valid() && accounts.Keys == old(accounts).Keys
      ensures !ok ==> All() == old(All())
      ensures ok ==> name in old(accounts) && accounts == Saved(old(accounts), name, s, x, now, interestRate)
      ensures name in old(accounts) && Savings(old(accounts)[name], s) + x >= 0 ==> ok
      ensures ok ==> var interest := AdjustedSavings(old(accounts)[name], s, x, now, interestRate).1;
                     globals == old(globals).(dbdSupply := old(globals).dbdSupply + interest)
      ensures ok ==> Gaps(All()) == Less(old(Gaps(All())), One(s, x))
    {
      hide Gaps, Sound, AdjustedSavings, OfPurse;
      if name !in accounts { return false; }
      SoundPurse(All(), name);
      AdjustedOk(accounts[name], s, x, now, interestRate);
      AdjustedHeld(accounts[name], s, x, now, interestRate);
      var (p, interest) := AdjustedSavings(accounts[name], s, x, now, interestRate);
      if Savings(p, s) < 0 { return false; }
      Enter(name, p, interest);
      return true;
    }

    /** An amount of each token for an account. */
    method Credit(name: Name, delta: int, dbd: int)
      requires Valid() && name in accounts
      requires accounts[name].delta + delta >= 0 && accounts[name].dbd.amount + dbd >= 0
      modifies this`accounts, this`globals
      ensures Valid() && accounts == PaidBoth(old(accounts), name, delta, dbd, now, interestRate)
      ensures accounts.Keys == old(accounts).Keys
      ensures var interest := Accrued(old(accounts)[name].dbd, now, interestRate).1;
              globals == old(globals).(dbdSupply := old(globals).dbdSupply + interest)
      ensures Gaps(All()) == Less(old(Gaps(All())), Amounts(delta, dbd, 0, 0))
    {
      hide Gaps, Sound, Accrued;
      var ok := AdjustBalance(name, Delta, delta);
      ok := AdjustBalance(name, Dbd, dbd);
    }

    // ----- accounts and reward funds -----

    /** `account_create`: the fee goes to the null account; the fee that is asked for is an input. */
    method CreateAccount(creator: Name, name: Name, fee: int, required: int, nobody: Name) returns (ok: bool)
      requires Valid()
      modifies this`accounts, this`globals
      ensures Valid() && Gaps(All()) == old(Gaps(All()))
      ensures ok <==> Creatable(old(accounts), creator, name, fee, required, nobody)
      ensures ok ==> accounts == Paid(Paid(old(accounts), creator, Delta, -fee, now, interestRate),
                                      nobody, Delta, fee, now, interestRate)[name := NEW_PURSE]
      ensures !ok ==> accounts == old(accounts)
      ensures globals == old(globals)
    {
      hide Gaps, Sound, OfPurse, Adjusted;
      if !Creatable(accounts, creator, name, fee, required, nobody) { return false; }
      DeltaOnly(accounts[creator], -fee, now, interestRate);
      ok := AdjustBalance(creator, Delta, -fee);
      SoundPurse(All(), nobody);
      DeltaOnly(accounts[nobody], fee, now, interestRate);
      ok := AdjustBalance(nobody, Delta, fee);
      NewPurse(0);
      AddPurse(All(), name, NEW_PURSE);
      accounts := accounts[name := NEW_PURSE];
    }

    /** The reward fund that takes over what was kept for rewards globally. */
    method OpenFund(id: nat, percent: nat) returns (ok: bool)
      requires Valid()
      modifies this`funds, this`globals
      ensures Valid() && Gaps(All()) == old(Gaps(All()))
      ensures ok <==> id !in old(funds)
      ensures ok ==> funds == old(funds)[id := Fund(old(globals).rewardFund, percent)]
                     && globals == old(globals).(rewardFund := 0)
      ensures !ok ==> funds == old(funds) && globals == old(globals)
    {
      hide Gaps, Sound;
      if id in funds { return false; }
      var f := Fund(globals.rewardFund, percent);
      AddFund(All(), id, f);
      funds := funds[id := f];
      SetGlobals(All(), globals.(rewardFund := 0));
      globals := globals.(rewardFund := 0);
      return true;
    }

    // ----- transfers and savings -----

    method Transfer(from: Name, to: Name, s: Symbol, amount: int) returns (ok: bool)
      requires Valid()
      modifies this`accounts, this`globals
      ensures Valid() && Gaps(All()) == old(Gaps(All()))
      ensures globals == old(globals).(dbdSupply := globals.dbdSupply)
      ensures ok <==> && amount > 0 && from in old(accounts) && to in old(accounts)
                      && Liquid(old(accounts)[from], s) >= amount
      ensures ok ==> var paid := Paid(old(accounts), from, s, -amount, now, interestRate);
                     accounts == Paid(paid, to, s, amount, now, interestRate)
      ensures !ok ==> All() == old(All())
    {
      hide Gaps, Sound, Adjusted;
      if amount <= 0 || from !in accounts || to !in accounts || Liquid(accounts[from], s) < amount { return false; }
      ok := AdjustBalance(from, s, -amount);
      SoundPurse(All(), to);
      ok := AdjustBalance(to, s, amount);
    }

    method ToSavings(from: Name, to: Name, s: Symbol, amount: int) returns (ok: bool)
      requires Valid()
      modifies this`accounts, this`globals
      ensures Valid() && Gaps(All()) == old(Gaps(All()))
      ensures globals == old(globals).(dbdSupply := globals.dbdSupply)
      ensures ok <==> && amount > 0 && from in old(accounts) && to in old(accounts)
                      && Liquid(old(accounts)[from], s) >= amount
      ensures ok ==> var paid := Paid(old(accounts), from, s, -amount, now, interestRate);
                     accounts == Saved(paid, to, s, amount, now, interestRate)
      ensures !ok ==> All() == old(All())
    {
      hide Gaps, Sound, Adjusted, AdjustedSavings;
      if amount <= 0 || from !in accounts || to !in accounts || Liquid(accounts[from], s) < amount { return false; }
      ok := AdjustBalance(from, s, -amount);
      SoundPurse(All(), to);
      ok := AdjustSavings(to, s, amount);
    }

    /** `transfer_from_savings`; the limit on open requests is an input. */
    method FromSavings(from: Name, request: nat, to: Name, s: Symbol, amount: int, underLimit: bool) returns (ok: bool)
      requires Valid()
      modifies this`accounts, this`globals, this`withdrawals
      ensures Valid() && Gaps(All()) == old(Gaps(All()))
      ensures globals == old(globals).(dbdSupply := globals.dbdSupply)
      ensures ok <==> && amount > 0 && from in old(accounts) && to in old(accounts) && underLimit
                      && Savings(old(accounts)[from], s) >= amount && (from, request) !in old(withdrawals)
      ensures ok ==> && accounts == Saved(old(accounts), from, s, -amount, now, interestRate)
                     && var w := Withdrawal(to, s, amount, now + SAVINGS_DELAY);
                        withdrawals == old(withdrawals)[(from, request) := w]
      ensures !ok ==> All() == old(All())
    {
      hide Gaps, Sound, AdjustedSavings;
      if amount <= 0 || from !in accounts || to !in accounts || !underLimit || Savings(accounts[from], s) < amount
         || (from, request) in withdrawals { return false; }
      ok := AdjustSavings(from, s, -amount);
      var w := Withdrawal(to, s, amount, now + SAVINGS_DELAY);
      SetWithdrawal(All(), (from, request), w);
      withdrawals := withdrawals[(from, request) := w];
    }

    method CancelFromSavings(from: Name, request: nat) returns (ok: bool)
      requires Valid()
      modifies this`accounts, this`globals, this`withdrawals
      ensures Valid() && Gaps(All()) == old(Gaps(All()))
      ensures globals == old(globals).(dbdSupply := globals.dbdSupply)
      ensures ok <==> (from, request) in old(withdrawals)
      ensures ok ==> var w := old(withdrawals)[(from, request)];
                     && from in old(accounts)
                     && accounts == Saved(old(accounts), from, w.symbol, w.amount, now, interestRate)
                     && withdrawals == old(withdrawals) - {(from, request)}
      ensures !ok ==> All() == old(All())
    {
      hide Gaps, Sound, AdjustedSavings;
      var k := (from, request);
      if k !in withdrawals { return false; }
      SoundWithdrawal(All(), k);
      SoundPurse(All(), from);
      ok := AdjustSavings(from, withdrawals[k].symbol, withdrawals[k].amount);
      DropWithdrawal(All(), k);
      withdrawals := withdrawals - {k};
    }

    method FinishWithdrawal(k: Key)
      requires Valid() && k in withdrawals
      modifies this`accounts, this`globals, this`withdrawals
      ensures Valid() && Gaps(All()) == old(Gaps(All()))
      ensures var w := old(withdrawals)[k];
              w.to in old(accounts) && accounts == Paid(old(accounts), w.to, w.symbol, w.amount, now, interestRate)
      ensures withdrawals == old(withdrawals) - {k} && |withdrawals| < |old(withdrawals)|
      ensures globals == old(globals).(dbdSupply := globals.dbdSupply)
    {
      hide Gaps, Sound, Adjusted;
      var w := withdrawals[k];
      SoundWithdrawal(All(), k);
      SoundPurse(All(), w.to);
      var ok := AdjustBalance(w.to, w.symbol, w.amount);
      DropWithdrawal(All(), k);
      withdrawals := withdrawals - {k};
    }

    /** `process_savings_withdraws` */
    method FinishWithdrawals()
      requires Valid()
      modifies this`accounts, this`globals, this`withdrawals
      ensures Valid() && Gaps(All()) == old(Gaps(All()))
      ensures withdrawals == map k | k in old(withdrawals) && old(withdrawals)[k].due > now :: old(withdrawals)[k]
      ensures Settled(old(accounts), accounts, old(withdrawals), WithdrawalOwes(now), now, interestRate)
      ensures globals == old(globals).(dbdSupply := globals.dbdSupply)
    {
      hide Gaps, Sound, Paid, Settling, Settled, Received, Leaves;
      ghost var owes, isDue := WithdrawalOwes(now), WithdrawalDue(now);
      SettlingNone(accounts, withdrawals, owes, now, interestRate);
      LeavesNone(withdrawals, isDue);
      while exists k :: k in withdrawals && withdrawals[k].due <= now
        invariant Valid() && Gaps(All()) == old(Gaps(All()))
        invariant Leaves(old(withdrawals), withdrawals, isDue)
        invariant Settling(old(accounts), accounts, old(withdrawals), withdrawals, owes, now, interestRate)
        invariant globals == old(globals).(dbdSupply := globals.dbdSupply)
        decreases |withdrawals|
      {
        var k :| k in withdrawals && withdrawals[k].due <= now;
        ghost var a, t, w := accounts, withdrawals, withdrawals[k];
        FinishWithdrawal(k);
        LeavesNext(old(withdrawals), t, isDue, k);
        PaidReceives(a, w.to, w.symbol, w.amount, now, interestRate);
        SettlingNext(old(accounts), a, old(withdrawals), t, owes, now, interestRate, k, w.to,
                     DueOf(w.symbol, w.amount));
      }
      LeavesAll(old(withdrawals), withdrawals, isDue);
      SettlingDone(old(accounts), accounts, old(withdrawals), withdrawals, owes, now, interestRate);
    }

    // ----- escrow -----

    method EscrowTransfer(from: Name, id: nat, to: Name, agent: Name, delta: int, dbd: int, fee: int, feeSymbol: Symbol,
                          ratifyBy: nat, expires: nat) returns (ok: bool)
      requires Valid()
      modifies this`accounts, this`globals, this`escrows
      ensures Valid() && Gaps(All()) == old(Gaps(All()))
      ensures globals == old(globals).(dbdSupply := globals.dbdSupply)
      ensures ok <==> && delta >= 0 && dbd >= 0 && fee >= 0 && (delta > 0 || dbd > 0) && from != agent && to != agent
                      && from in old(accounts) && to in old(accounts) && agent in old(accounts)
                      && now < ratifyBy < expires && (from, id) !in old(escrows)
                      && old(accounts)[from].delta >= delta + One(feeSymbol, fee).delta
                      && old(accounts)[from].dbd.amount >= dbd + One(feeSymbol, fee).dbd
      ensures ok ==> && accounts == PaidBoth(old(accounts), from, -delta - One(feeSymbol, fee).delta,
                                             -dbd - One(feeSymbol, fee).dbd, now, interestRate)
                     && escrows == old(escrows)[(from, id) := Escrow(to, agent, delta, dbd, fee, feeSymbol,
                                                                     false, false, false, ratifyBy, expires)]
      ensures !ok ==> All() == old(All())
    {
      hide Gaps, Sound, Paid, PaidBoth;
      if delta < 0 || dbd < 0 || fee < 0 || (delta == 0 && dbd == 0) || from == agent || to == agent
         || from !in accounts || to !in accounts || agent !in accounts || !(now < ratifyBy < expires)
         || (from, id) in escrows { return false; }
      var deltaSpent := delta + if feeSymbol == Delta then fee else 0;
      var dbdSpent := dbd + if feeSymbol == Dbd then fee else 0;
      if accounts[from].delta < deltaSpent || accounts[from].dbd.amount < dbdSpent { return false; }
      Credit(from, -deltaSpent, -dbdSpent);
      var e := Escrow(to, agent, delta, dbd, fee, feeSymbol, false, false, false, ratifyBy, expires);
      SetEscrow(All(), (from, id), e);
      escrows := escrows[(from, id) := e];
      return true;
    }

    /** Everything in an escrow goes back to its sender. */
    method Refund(k: Key)
      requires Valid() && k in escrows
      modifies this`accounts, this`globals, this`escrows
      ensures Valid() && Gaps(All()) == old(Gaps(All()))
      ensures escrows == old(escrows) - {k} && |escrows| < |old(escrows)|
      ensures k.0 in old(accounts)
      ensures accounts == old(accounts)[k.0 := Received(old(accounts)[k.0], EscrowDue(old(escrows)[k]),
                                                        now, interestRate)]
      ensures globals == old(globals).(dbdSupply := globals.dbdSupply)
    {
      hide Gaps, Sound, Paid, PaidBoth, One, Received, Adjusted, EscrowDue;
      var e := escrows[k];
      SoundEscrow(All(), k);
      SoundPurse(All(), k.0);
      Credit(k.0, e.delta, e.dbd);
      SoundPurse(All(), k.0);
      var ok := AdjustBalance(k.0, e.feeSymbol, e.fee);
      RefundReceives(old(accounts), k.0, e, now, interestRate);
      DropEscrow(All(), k);
      escrows := escrows - {k};
    }

    method EscrowApprove(from: Name, id: nat, to: Name, agent: Name, who: Name, approve: bool) returns (ok: bool)
      requires Valid()
      modifies this`accounts, this`globals, this`escrows
      ensures Valid() && Gaps(All()) == old(Gaps(All()))
      ensures globals == old(globals).(dbdSupply := globals.dbdSupply)
      ensures ok <==> Approvable(old(escrows), (from, id), to, agent, who, now)
      ensures ok && !approve ==>
                var due := EscrowDue(old(escrows)[(from, id)]);
                && escrows == old(escrows) - {(from, id)} && from in old(accounts)
                && accounts == old(accounts)[from := Received(old(accounts)[from], due, now, interestRate)]
      ensures ok && approve ==>
                var e := Approved(old(escrows)[(from, id)], who);
                if e.toApproved && e.agentApproved then
                  && escrows == old(escrows)[(from, id) := e.(fee := 0)]
                  && agent in old(accounts)
                  && accounts == Paid(old(accounts), agent, e.feeSymbol, e.fee, now, interestRate)
                else escrows == old(escrows)[(from, id) := e] && accounts == old(accounts)
      ensures !ok ==> All() == old(All())
    {
      hide Gaps, Sound, Adjusted;
      var k := (from, id);
      if !Approvable(escrows, k, to, agent, who, now) { return false; }
      if !approve {
        Refund(k);
        return true;
      }
      SoundEscrow(All(), k);
      SoundPurse(All(), agent);
      var e := Approved(escrows[k], who);
      if e.toApproved && e.agentApproved {
        ok := AdjustBalance(agent, e.feeSymbol, e.fee);
        e := e.(fee := 0);
      }
      SetEscrow(All(), k, e);
      escrows := escrows[k := e];
      return true;
    }

    method EscrowDispute(from: Name, id: nat, to: Name, agent: Name) returns (ok: bool)
      requires Valid()
      modifies this`escrows
      ensures Valid() && Gaps(All()) == old(Gaps(All()))
      ensures ok <==> (from, id) in old(escrows) && Disputable(old(escrows)[(from, id)], to, agent, now)
      ensures ok ==> escrows == old(escrows)[(from, id) := old(escrows)[(from, id)].(disputed := true)]
      ensures !ok ==> escrows == old(escrows)
    {
      hide Gaps, Sound;
      var k := (from, id);
      if k !in escrows || !Disputable(escrows[k], to, agent, now) { return false; }
      SoundEscrow(All(), k);
      SetEscrow(All(), k, escrows[k].(disputed := true));
      escrows := escrows[k := escrows[k].(disputed := true)];
      return true;
    }

    method EscrowRelease(from: Name, id: nat, to: Name, agent: Name, who: Name, receiver: Name, delta: int, dbd: int)
      returns (ok: bool)
      requires Valid()
      modifies this`accounts, this`globals, this`escrows
      ensures Valid() && Gaps(All()) == old(Gaps(All()))
      ensures globals == old(globals).(dbdSupply := globals.dbdSupply)
      ensures ok <==> && Releasable(old(escrows), (from, id), to, agent, who, receiver, now)
                      && 0 <= delta <= old(escrows)[(from, id)].delta && 0 <= dbd <= old(escrows)[(from, id)].dbd
                      && (delta > 0 || dbd > 0)
      ensures ok ==> && receiver in old(accounts)
                     && accounts == PaidBoth(old(accounts), receiver, delta, dbd, now, interestRate)
                     && escrows == Deducted(old(escrows), (from, id), delta, dbd)
      ensures !ok ==> All() == old(All())
    {
      hide Gaps, Sound, Paid, PaidBoth, One;
      var k := (from, id);
      if !Releasable(escrows, k, to, agent, who, receiver, now) { return false; }
      var e := escrows[k];
      if !(0 <= delta <= e.delta && 0 <= dbd <= e.dbd && (delta > 0 || dbd > 0)) { return false; }
      SoundEscrow(All(), k);
      SoundPurse(All(), receiver);
      Credit(receiver, delta, dbd);
      Deduct(All(), k, delta, dbd);
      e := e.(delta := e.delta - delta, dbd := e.dbd - dbd);
      escrows := escrows[k := e];
      if e.delta == 0 && e.dbd == 0 {
        escrows := escrows - {k};
        assert escrows == old(escrows) - {k};
      }
      return true;
    }

    /** `expire_escrow_ratification` */
    method ExpireEscrows()
      requires Valid()
      modifies this`accounts, this`globals, this`escrows
      ensures Valid() && Gaps(All()) == old(Gaps(All()))
      ensures escrows == map k | k in old(escrows) && !Lapsed(old(escrows)[k], now) :: old(escrows)[k]
      ensures Settled(old(accounts), accounts, old(escrows), EscrowOwes(now), now, interestRate)
      ensures globals == old(globals).(dbdSupply := globals.dbdSupply)
    {
      hide Gaps, Sound, Settling, Settled, Received, Leaves;
      ghost var owes, lapsed := EscrowOwes(now), EscrowLapsed(now);
      SettlingNone(accounts, escrows, owes, now, interestRate);
      LeavesNone(escrows, lapsed);
      while exists k :: k in escrows && Lapsed(escrows[k], now)
        invariant Valid() && Gaps(All()) == old(Gaps(All()))
        invariant Leaves(old(escrows), escrows, lapsed)
        invariant Settling(old(accounts), accounts, old(escrows), escrows, owes, now, interestRate)
        invariant globals == old(globals).(dbdSupply := globals.dbdSupply)
        decreases |escrows|
      {
        var k :| k in escrows && Lapsed(escrows[k], now);
        ghost var a, t := accounts, escrows;
        Refund(k);
        LeavesNext(old(escrows), t, lapsed, k);
        SettlingNext(old(accounts), a, old(escrows), t, owes, now, interestRate, k, k.0, EscrowDue(t[k]));
      }
      LeavesAll(old(escrows), escrows, lapsed);
      SettlingDone(old(accounts), accounts, old(escrows), escrows, owes, now, interestRate);
    }

    // ----- conversion -----

    method Convert(owner: Name, request: nat, amount: int) returns (ok: bool)
      requires Valid()
      modifies this`accounts, this`globals, this`conversions
      ensures Valid() && Gaps(All()) == old(Gaps(All()))
      ensures globals == old(globals).(dbdSupply := globals.dbdSupply)
      ensures ok <==> && amount > 0 && owner in old(accounts) && old(accounts)[owner].dbd.amount >= amount
                      && median.Some? && (owner, request) !in old(conversions)
      ensures ok ==> && accounts == Paid(old(accounts), owner, Dbd, -amount, now, interestRate)
                     && conversions == old(conversions)[(owner, request) := Conversion(amount, now + CONVERSION_DELAY)]
      ensures !ok ==> All() == old(All())
    {
      hide Gaps, Sound, Adjusted;
      if amount <= 0 || owner !in accounts || accounts[owner].dbd.amount < amount || median.None?
         || (owner, request) in conversions { return false; }
      ok := AdjustBalance(owner, Dbd, -amount);
      var c := Conversion(amount, now + CONVERSION_DELAY);
      SetConversion(All(), (owner, request), c);
      conversions := conversions[(owner, request) := c];
    }

    /** One due request: DELTA is issued for it, and it is removed. */
    method Issue(k: Key) returns (issued: Outcome<int>)
      requires Valid() && k in conversions && median.Some?
      modifies this`accounts, this`globals, this`conversions
      ensures Valid() && issued == Exchanged(old(conversions)[k].amount, median.value.quote, median.value.base)
      ensures issued.Ok? ==>
                && conversions == old(conversions) - {k} && |conversions| < |old(conversions)| && k.0 in old(accounts)
                && accounts == old(accounts)[k.0 := Received(old(accounts)[k.0], DueOf(Delta, issued.value),
                                                             now, interestRate)]
                && globals == old(globals)
                && Gaps(All()) == More(old(Gaps(All())), Amounts(-issued.value, old(conversions)[k].amount, 0, 0))
    {
      hide Gaps, Sound, Received, Exchanged;
      issued := Exchanged(conversions[k].amount, median.value.quote, median.value.base);
      if issued.Aborted? { return; }
      SoundConversion(All(), k);
      SoundPurse(All(), k.0);
      var ok := AdjustBalance(k.0, Delta, issued.value);
      PaidReceives(old(accounts), k.0, Delta, issued.value, now, interestRate);
      DropConversion(All(), k);
      conversions := conversions - {k};
    }

    /** All requests that are due, while their conversion does not abort. */
    method IssueDue() returns (ok: bool, netDelta: int, netDbd: int)
      requires Valid() && median.Some?
      modifies this`accounts, this`globals, this`conversions
      ensures ok == Convertible(old(conversions), now, median.value)
      ensures ok ==> Valid() && Gaps(All()) == More(old(Gaps(All())), Amounts(-netDelta, netDbd, 0, 0))
      ensures ok ==>
                conversions == map k | k in old(conversions) && old(conversions)[k].due > now :: old(conversions)[k]
      ensures ok ==> globals == old(globals)
      ensures ok ==>
                Settled(old(accounts), accounts, old(conversions), ConversionOwes(now, median.value), now, interestRate)
    {
      hide Gaps, Sound, Exchanged, Settling, Settled, Received, ConversionOwes, DueOf, Leaves, Convertible;
      netDelta, netDbd := 0, 0;
      ghost var isDue := RequestDue(now);
      SettlingNone(accounts, conversions, ConversionOwes(now, median.value), now, interestRate);
      LeavesNone(conversions, isDue);
      while exists k :: k in conversions && conversions[k].due <= now
        invariant Valid() && Gaps(All()) == More(old(Gaps(All())), Amounts(-netDelta, netDbd, 0, 0))
        invariant Leaves(old(conversions), conversions, isDue) && globals == old(globals)
        invariant Convertible(old(conversions), now, median.value) == Convertible(conversions, now, median.value)
        invariant Settling(old(accounts), accounts, old(conversions), conversions,
                           ConversionOwes(now, median.value), now, interestRate)
        decreases |conversions|
      {
        var k :| k in conversions && conversions[k].due <= now;
        var amount := conversions[k].amount;
        ghost var a, t := accounts, conversions;
        var issued := Issue(k);
        ConvertibleNext(t, now, median.value, k);
        if issued.Aborted? { return false, 0, 0; }
        LeavesNext(old(conversions), t, isDue, k);
        IssueSettles(old(accounts), a, old(conversions), t, now, median.value, interestRate, k);
        netDelta, netDbd := netDelta + issued.value, netDbd + amount;
      }
      NothingDue(conversions, now, median.value);
      LeavesAll(old(conversions), conversions, isDue);
      IssueSettled(old(accounts), accounts, old(conversions), conversions, now, median.value, interestRate);
      ok := true;
    }

    /** `process_conversions`: the supplies are corrected once, after all due requests. */
    method ProcessConversions() returns (ok: bool)
      requires Valid()
      modifies this`accounts, this`escrows, this`conversions, this`withdrawals, this`orders, this`funds, this`globals
      ensures Valid() && Gaps(All()) == old(Gaps(All()))
      ensures ok <==> median.Some? ==> Convertible(old(conversions), now, median.value)
      ensures !ok || median.None? ==> All() == old(All())
      ensures globals == old(globals).(supply := globals.supply, dbdSupply := globals.dbdSupply)
      ensures ok && median.Some? ==>
                && conversions == (map k | k in old(conversions) && old(conversions)[k].due > now
                                         :: old(conversions)[k])
                && Settled(old(accounts), accounts, old(conversions), ConversionOwes(now, median.value),
                           now, interestRate)
                && escrows == old(escrows) && withdrawals == old(withdrawals)
                && orders == old(orders) && funds == old(funds)
    {
      hide Gaps, Sound, Settled, Convertible;
      if median.None? { return true; }
      var saved := All();
      var netDelta, netDbd;
      ok, netDelta, netDbd := IssueDue();
      if !ok {
        Restore(saved);
        return false;
      }
      var g := globals.(supply := globals.supply + netDelta, dbdSupply := globals.dbdSupply - netDbd);
      SetGlobals(All(), g);
      globals := g;
      return true;
    }

    // ----- vesting -----

    method SetBoth(name: Name, p: Purse, g: Globals)
      requires Valid() && name in accounts && PurseOk(p)
      modifies this`accounts, this`globals
      ensures Valid() && accounts == old(accounts)[name := p] && globals == g
      ensures Gaps(All()) == More(More(Less(old(Gaps(All())), OfPurse(p)), OfPurse(old(accounts)[name])),
                                  Less(Recorded(g), Recorded(old(globals))))
    {
      hide Gaps, Sound, OfPurse, Recorded;
      SetPurse(All(), name, p);
      accounts := accounts[name := p];
      SetGlobals(All(), g);
      globals := g;
    }

    /** `create_vesting2`, as a deposit or into the reward balance. */
    method CreateVesting(name: Name, liquid: int, toReward: bool) returns (shares: Outcome<int>)
      requires Valid() && name in accounts && liquid >= 0
      modifies this`accounts, this`globals
      ensures Valid() && accounts.Keys == old(accounts).Keys
      ensures shares == SharesFor(old(globals), liquid, toReward)
      ensures shares.Aborted? ==> All() == old(All())
      ensures shares.Ok? ==> var p := Vested(old(accounts)[name], liquid, shares.value, toReward);
                             && accounts == old(accounts)[name := p]
                             && globals == VestedGlobals(old(globals), liquid, shares.value, toReward)
      ensures shares.Ok? ==> var unbacked := Unbacked(liquid, shares.value, toReward);
                             Gaps(All()) == Less(old(Gaps(All())), Taken(liquid, unbacked))
      ensures shares.Ok? && !toReward ==>
                Bought(old(Wallets(accounts, globals)), Wallets(accounts, globals), name, liquid)
      ensures shares.Ok? && toReward ==>
                forall m :: Awarded(old(Wallets(accounts, globals)), Wallets(accounts, globals), name, liquid, 0, m)
    {
      hide Gaps, Sound, Bought, Awarded, SharesFor;
      ghost var w := Wallets(accounts, globals);
      SoundPurse(All(), name);
      shares := SharesFor(globals, liquid, toReward);
      if shares.Aborted? { return; }
      var p := Vested(accounts[name], liquid, shares.value, toReward);
      SetBoth(name, p, VestedGlobals(globals, liquid, shares.value, toReward));
      if toReward {
        forall m ensures Awarded(w, Wallets(accounts, globals), name, liquid, 0, m) {
          VestedAwards(w, Wallets(accounts, globals), name, liquid, m);
        }
      } else {
        DepositBuys(w, name, liquid, shares.value);
      }
    }

    /** `transfer_to_vesting` */
    method PowerUp(from: Name, to: Name, amount: int) returns (ok: bool)
      requires Valid()
      modifies this`accounts, this`escrows, this`conversions, this`withdrawals, this`orders, this`funds, this`globals
      ensures Valid() && Gaps(All()) == old(Gaps(All()))
      ensures !ok ==> All() == old(All())
      ensures ok <==> PowersUp(old(Wallets(accounts, globals)), from, to, amount)
      ensures ok ==> var target := Target(from, to);
                     var paid := Paid(old(accounts), from, Delta, -amount, now, interestRate);
                     var n := SharesFor(old(globals), amount, false).value;
                     && accounts == paid[target := Vested(paid[target], amount, n, false)]
                     && globals == VestedGlobals(old(globals), amount, n, false)
      ensures ok ==> var p := old(accounts)[from];
                     var paid := old(accounts)[from := p.(delta := p.delta - amount)];
                     Bought(Wallets(paid, old(globals)), Wallets(accounts, globals), Target(from, to), amount)
      ensures escrows == old(escrows) && conversions == old(conversions) && withdrawals == old(withdrawals)
              && orders == old(orders) && funds == old(funds)
    {
      hide Gaps, Sound, SharesFor, Bought;
      var target := Target(from, to);
      if amount <= 0 || from !in accounts || target !in accounts || accounts[from].delta < amount { return false; }
      var saved := All();
      ok := AdjustBalance(from, Delta, -amount);
      DeltaOnly(old(accounts)[from], -amount, now, interestRate);
      var shares := CreateVesting(target, amount, false);
      ok := shares.Ok?;
      if !ok { Restore(saved); }
    }

    // ----- rewards -----

    /** `adjust_reward_balance` for a liquid token. */
    method AdjustReward(name: Name, s: Symbol, x: int) returns (ok: bool)
      requires Valid() && name in accounts
      modifies this`accounts
      ensures Valid() && accounts.Keys == old(accounts).Keys
      ensures !ok ==> accounts == old(accounts)
      ensures ok <==> Reward(old(accounts)[name], s) + x >= 0
      ensures ok ==> && accounts == old(accounts)[name := Rewarded(old(accounts)[name], s, x)]
                     && Gaps(All()) == Less(old(Gaps(All())), One(s, x))
    {
      hide Gaps, Sound;
      if Reward(accounts[name], s) + x < 0 { return false; }
      SoundPurse(All(), name);
      SetPurse(All(), name, Rewarded(accounts[name], s, x));
      accounts := accounts[name := Rewarded(accounts[name], s, x)];
      return true;
    }

    /** Unclaimed DBD and DELTA for an account. */
    method AddRewards(name: Name, dbd: int, delta: int)
      requires Valid() && name in accounts && dbd >= 0 && delta >= 0
      modifies this`accounts
      ensures Valid()
      ensures accounts == old(accounts)[name := Rewarded(Rewarded(old(accounts)[name], Dbd, dbd), Delta, delta)]
      ensures Gaps(All()) == Less(old(Gaps(All())), Amounts(delta, dbd, 0, 0))
    {
      hide Gaps, Sound;
      SoundPurse(All(), name);
      var ok := AdjustReward(name, Dbd, dbd);
      ok := AdjustReward(name, Delta, delta);
    }

    /** `create_dbd` into the reward balance: part of `amount` is printed as DBD, the rest is paid as it is. */
    method CreateDbd(name: Name, amount: int, printRate: int) returns (ok: bool)
      requires Valid() && name in accounts && amount >= 0 && 0 <= printRate <= HUNDRED_PERCENT
      modifies this`accounts, this`globals
      ensures Valid() && accounts.Keys == old(accounts).Keys
      ensures ok ==> Gaps(All()) == Less(old(Gaps(All())), One(Delta, amount))
      ensures var paid := DbdTo(old(Wallets(accounts, globals)), name, amount,
                                Market(median, printRate, now, interestRate));
              ok == paid.Ok? && (ok ==> Wallets(accounts, globals) == paid.value)
      ensures ok ==> var w, m := old(Wallets(accounts, globals)), Market(median, printRate, now, interestRate);
                     Issued(w, Wallets(accounts, globals), name, amount, m)
    {
      hide Gaps, Sound, Exchanged, Issued;
      ghost var w, m := Wallets(accounts, globals), Market(median, printRate, now, interestRate);
      SoundPurse(All(), name);
      if amount == 0 {
        DbdIssues(w, w, name, amount, m);
        return true;
      }
      if median.None? {
        ok := AdjustBalance(name, Delta, amount);
        DbdIssues(w, Wallets(accounts, globals), name, amount, m);
        return;
      }
      var toDbd := printRate * amount / HUNDRED_PERCENT;
      PrintedWithin(amount, Market(median, printRate, now, interestRate));
      var dbd := Exchanged(toDbd, median.value.base, median.value.quote);
      if dbd.Aborted? { return false; }
      AddRewards(name, dbd.value, amount - toDbd);
      if globals.supply - toDbd < 0 || globals.dbdSupply + dbd.value < 0 { return false; }
      var g := globals.(supply := globals.supply - toDbd, dbdSupply := globals.dbdSupply + dbd.value);
      SetGlobals(All(), g);
      globals := g;
      DbdIssues(w, Wallets(accounts, globals), name, amount, m);
      return true;
    }

    /** `claim_reward_balance` */
    method ClaimRewards(name: Name, delta: int, dbd: int, vests: int) returns (ok: bool)
      requires Valid()
      modifies this`accounts, this`globals
      ensures Valid() && Gaps(All()) == old(Gaps(All()))
      ensures ok <==> MayClaim(old(accounts), name, delta, dbd, vests)
      ensures !ok ==> All() == old(All())
      ensures ok ==> var p := LiquidClaimed(old(accounts)[name], delta, dbd, now, interestRate);
                     accounts == old(accounts)[name := Claimed(p, vests, Moved(old(accounts)[name], vests))]
      ensures ok ==> var g := ClaimedGlobals(old(globals), vests, Moved(old(accounts)[name], vests));
                     globals == g.(dbdSupply := globals.dbdSupply)
      ensures ok ==> ClaimedBy(old(Wallets(accounts, globals)), Wallets(accounts, globals), name, delta, dbd, vests,
                               now, interestRate)
    {
      hide Gaps, Sound, LiquidClaimed, OfPurse, ClaimedBy, Accrued, Moved;
      ghost var w := Wallets(accounts, globals);
      if !MayClaim(accounts, name, delta, dbd, vests) { return false; }
      var p := accounts[name];
      SoundPurse(All(), name);
      MovedWithin(p, vests);
      var moved := Moved(p, vests);
      ClaimLiquid(name, delta, dbd);
      LiquidClaimKeeps(p, delta, dbd, now, interestRate);
      SoundPurse(All(), name);
      ClaimedHeld(accounts[name], vests, moved, globals);
      SetBoth(name, Claimed(accounts[name], vests, moved), ClaimedGlobals(globals, vests, moved));
      ClaimExact(w, Wallets(accounts, globals), name, delta, dbd, vests, now, interestRate);
      return true;
    }

    method ClaimLiquid(name: Name, delta: int, dbd: int)
      requires Valid() && name in accounts && 0 <= delta <= accounts[name].rewardDelta
      requires 0 <= dbd <= accounts[name].rewardDbd
      modifies this`accounts, this`globals
      ensures Valid() && Gaps(All()) == old(Gaps(All()))
      ensures accounts == old(accounts)[name := LiquidClaimed(old(accounts)[name], delta, dbd, now, interestRate)]
      ensures var interest := Accrued(old(accounts)[name].dbd, now, interestRate).1;
              globals == old(globals).(dbdSupply := old(globals).dbdSupply + interest)
    {
      hide Gaps, Sound, Accrued;
      TakeRewards(name, delta, dbd);
      SoundPurse(All(), name);
      Credit(name, delta, dbd);
    }

    method TakeRewards(name: Name, delta: int, dbd: int)
      requires Valid() && name in accounts && delta <= accounts[name].rewardDelta && dbd <= accounts[name].rewardDbd
      modifies this`accounts
      ensures Valid()
      ensures accounts == old(accounts)[name := Rewarded(Rewarded(old(accounts)[name], Delta, -delta), Dbd, -dbd)]
      ensures Gaps(All()) == More(old(Gaps(All())), Amounts(delta, dbd, 0, 0))
    {
      hide Gaps, Sound;
      var ok := AdjustReward(name, Delta, -delta);
      ok := AdjustReward(name, Dbd, -dbd);
    }

    // ----- power-down -----

    /** Vesting shares that a route passes on as such. */
    method DepositVests(to: Name, shares: int) returns (ok: bool)
      requires Valid() && shares >= 0
      modifies this`accounts
      ensures Valid() && accounts.Keys == old(accounts).Keys
      ensures ok <==> to in old(accounts)
      ensures ok ==> && accounts == old(accounts)[to := old(accounts)[to].(vests := old(accounts)[to].vests + shares)]
                     && Gaps(All()) == Less(old(Gaps(All())), Amounts(0, 0, shares, 0))
      ensures !ok ==> accounts == old(accounts)
    {
      hide Gaps, Sound;
      if to !in accounts { return false; }
      SoundPurse(All(), to);
      SetPurse(All(), to, accounts[to].(vests := accounts[to].vests + shares));
      accounts := accounts[to := accounts[to].(vests := accounts[to].vests + shares)];
      return true;
    }

    /** Shares sold to the vesting fund: `to` gets what they are worth, and `charged` shares leave it. */
    method SellVests(to: Name, shares: int, charged: int) returns (ok: bool)
      requires Valid() && to in accounts && shares >= 0 && 0 <= charged <= accounts[to].vests
      modifies this`accounts, this`globals
      ensures Valid() && accounts.Keys == old(accounts).Keys
      ensures var sold := Sold(old(Wallets(accounts, globals)), to, shares, charged);
              ok == sold.Ok? && (ok ==> Wallets(accounts, globals) == sold.value)
      ensures !ok ==> All() == old(All())
      ensures ok ==> && globals.totalVests == old(globals).totalVests - shares
                     && forall n :: n in accounts ==>
                                      accounts[n].vests == old(accounts)[n].vests - if n == to then charged else 0
      ensures ok ==> SoldFor(old(Wallets(accounts, globals)), Wallets(accounts, globals), to, shares, charged)
      ensures ok ==> Gaps(All()) == Less(old(Gaps(All())), Amounts(0, 0, shares - charged, 0))
    {
      hide Gaps, Sound, WorthOf, SoldFor;
      ghost var w := Wallets(accounts, globals);
      var worth := WorthOf(globals, shares);
      if worth.Aborted? { return false; }
      SoundPurse(All(), to);
      var p := accounts[to].(delta := accounts[to].delta + worth.value, vests := accounts[to].vests - charged);
      var g := globals.(vestingFund := globals.vestingFund - worth.value, totalVests := globals.totalVests - shares);
      SetBoth(to, p, g);
      SaleSells(w, Wallets(accounts, globals), to, shares, charged);
      return true;
    }

    /** The routes that deposit shares. */
    method DepositRoutes(amount: int, routes: seq<Route>) returns (ok: bool, deposited: int)
      requires Valid() && amount >= 0 && forall i :: 0 <= i < |routes| ==> routes[i].percent >= 0
      modifies this`accounts
      ensures Valid() && accounts.Keys == old(accounts).Keys
      ensures forall n :: n in accounts ==> accounts[n].vests >= old(accounts)[n].vests
      ensures ok ==> deposited == Deposits(amount, routes, true) && deposited >= 0
      ensures ok ==> Gaps(All()) == Less(old(Gaps(All())), Amounts(0, 0, deposited, 0))
      ensures var paid := RoutesPaid(old(Wallets(accounts, globals)), amount, routes, false);
              ok == paid.Ok? && (ok ==> Wallets(accounts, globals) == paid.value)
    {
      hide Gaps, Sound, Deposits, RoutesPaid, Share;
      ghost var w := Wallets(accounts, globals);
      deposited := 0;
      NoDeposits(amount, routes);
      NoRoutes(w, amount, routes, false);
      var i := 0;
      while i < |routes|
        invariant 0 <= i <= |routes| && Valid() && deposited >= 0 && accounts.Keys == old(accounts).Keys
        invariant forall n :: n in accounts ==> accounts[n].vests >= old(accounts)[n].vests
        invariant deposited == Deposits(amount, routes[..i], true)
        invariant Gaps(All()) == Less(old(Gaps(All())), Amounts(0, 0, deposited, 0))
        invariant RoutesPaid(w, amount, routes[..i], false) == Ok(Wallets(accounts, globals))
      {
        NextDeposit(amount, routes, i);
        NextRoute(w, amount, routes, false, i);
        if routes[i].autoVest {
          var deposit := Share(amount, routes[i].percent);
          deposited := deposited + deposit;
          if deposit > 0 {
            ok := DepositVests(routes[i].to, deposit);
            if !ok {
              RoutesAbort(w, amount, routes, false, i);
              return;
            }
          }
        }
        i := i + 1;
      }
      assert routes[..|routes|] == routes;
      ok := true;
    }

    /** The routes that sell shares. */
    method SellRoutes(amount: int, routes: seq<Route>) returns (ok: bool, sold: int)
      requires Valid() && amount >= 0 && forall i :: 0 <= i < |routes| ==> routes[i].percent >= 0
      modifies this`accounts, this`globals
      ensures Valid() && accounts.Keys == old(accounts).Keys
      ensures forall n :: n in accounts ==> accounts[n].vests == old(accounts)[n].vests
      ensures ok ==> sold == Deposits(amount, routes, false) && sold >= 0
      ensures ok ==> globals.totalVests == old(globals).totalVests - sold
      ensures ok ==> Gaps(All()) == Less(old(Gaps(All())), Amounts(0, 0, sold, 0))
      ensures var paid := RoutesPaid(old(Wallets(accounts, globals)), amount, routes, true);
              ok == paid.Ok? && (ok ==> Wallets(accounts, globals) == paid.value)
    {
      hide Gaps, Sound, Deposits, RoutesPaid, Sold, Share;
      ghost var w := Wallets(accounts, globals);
      sold := 0;
      NoDeposits(amount, routes);
      NoRoutes(w, amount, routes, true);
      var i := 0;
      while i < |routes|
        invariant 0 <= i <= |routes| && Valid() && sold >= 0 && accounts.Keys == old(accounts).Keys
        invariant forall n :: n in accounts ==> accounts[n].vests == old(accounts)[n].vests
        invariant sold == Deposits(amount, routes[..i], false)
        invariant globals.totalVests == old(globals).totalVests - sold
        invariant Gaps(All()) == Less(old(Gaps(All())), Amounts(0, 0, sold, 0))
        invariant RoutesPaid(w, amount, routes[..i], true) == Ok(Wallets(accounts, globals))
      {
        NextDeposit(amount, routes, i);
        NextRoute(w, amount, routes, true, i);
        if !routes[i].autoVest {
          if routes[i].to !in accounts {
            RoutesAbort(w, amount, routes, true, i);
            return false, sold;
          }
          var deposit := Share(amount, routes[i].percent);
          sold := sold + deposit;
          if deposit > 0 {
            SoundPurse(All(), routes[i].to);
            ok := SellVests(routes[i].to, deposit, 0);
            if !ok {
              RoutesAbort(w, amount, routes, true, i);
              return;
            }
          }
        }
        i := i + 1;
      }
      assert routes[..|routes|] == routes;
      ok := true;
    }

    /** Both kinds of routes, and the rest. */
    method PayInterval(from: Name, toWithdraw: int, routes: seq<Route>) returns (ok: bool)
      requires Valid() && from in accounts && 0 <= toWithdraw <= accounts[from].vests
      requires forall i :: 0 <= i < |routes| ==> routes[i].percent >= 0
      modifies this`accounts, this`globals
      ensures ok ==> Valid() && Gaps(All()) == old(Gaps(All()))
      ensures var paid := Interval(old(Wallets(accounts, globals)), from, toWithdraw, routes);
              ok == paid.Ok? && (ok ==> Wallets(accounts, globals) == paid.value)
      ensures ok ==> Deposits(toWithdraw, routes, true) + Deposits(toWithdraw, routes, false) <= toWithdraw
      ensures ok ==> globals.totalVests == old(globals).totalVests - (toWithdraw - Deposits(toWithdraw, routes, true))
    {
      hide Gaps, Sound, Deposits, RoutesPaid, Sold;
      var asVests, asDelta: int;
      ok, asVests := DepositRoutes(toWithdraw, routes);
      if !ok { return; }
      ok, asDelta := SellRoutes(toWithdraw, routes);
      if !ok { return; }
      var rest := toWithdraw - asDelta - asVests;
      if rest < 0 { return false; }
      ok := SellVests(from, rest, toWithdraw);
    }

    /**
     One interval of a power-down: first the routes that deposit shares, then the routes
     that sell them, then the rest is sold for the account itself.
     */
    method WithdrawInterval(from: Name, toWithdraw: int, routes: seq<Route>) returns (ok: bool)
      requires Valid() && from in accounts && 0 <= toWithdraw <= accounts[from].vests
      requires forall i :: 0 <= i < |routes| ==> routes[i].percent >= 0
      modifies this`accounts, this`escrows, this`conversions, this`withdrawals, this`orders, this`funds, this`globals
      ensures Valid() && Gaps(All()) == old(Gaps(All()))
      ensures !ok ==> All() == old(All())
      ensures var paid := Interval(old(Wallets(accounts, globals)), from, toWithdraw, routes);
              ok == paid.Ok? && (ok ==> Wallets(accounts, globals) == paid.value)
      ensures ok ==> Deposits(toWithdraw, routes, true) + Deposits(toWithdraw, routes, false) <= toWithdraw
      ensures ok ==> globals.totalVests == old(globals).totalVests - (toWithdraw - Deposits(toWithdraw, routes, true))
      ensures ok ==> WithdrawnBy(old(Wallets(accounts, globals)), Wallets(accounts, globals), from, toWithdraw, routes)
      ensures escrows == old(escrows) && conversions == old(conversions) && withdrawals == old(withdrawals)
              && orders == old(orders) && funds == old(funds)
    {
      hide Gaps, Sound, Deposits, Interval, WithdrawnBy;
      var saved := All();
      ok := PayInterval(from, toWithdraw, routes);
      IntervalMoves(old(Wallets(accounts, globals)), Wallets(accounts, globals), from, toWithdraw, routes);
      if !ok { Restore(saved); }
    }

    // ----- inflation -----

    /** `pay_reward_funds`: each fund gets its percentage of the content reward. */
    method PayRewardFunds(reward: int) returns (used: Outcome<int>)
      requires Valid() && reward >= 0
      modifies this`funds
      ensures Valid()
      ensures var all := FundShares(old(funds), reward); used == if all <= reward then Ok(all) else Aborted
      ensures used.Ok? ==> 0 <= used.value <= reward && funds.Keys == old(funds).Keys
      ensures used.Ok? ==> forall k :: k in funds ==> funds[k] == Funded(old(funds)[k], reward)
      ensures used.Ok? ==> FundsGrow(old(funds), funds, reward, used.value)
      ensures used.Ok? ==> Gaps(All()) == Less(old(Gaps(All())), One(Delta, used.value))
    {
      hide Gaps, Sound, FundTerm, FundShares, FundsGrow;
      var todo := funds.Keys;
      var sum := 0;
      ghost var term := FundTerm(funds, reward);
      while todo != {}
        invariant todo <= funds.Keys == old(funds).Keys && Valid()
        invariant 0 <= sum <= reward && sum == Sum(funds.Keys - todo, term)
        invariant forall k :: k in todo ==> funds[k] == old(funds)[k]
        invariant forall k :: k in funds && k !in todo ==> funds[k] == Funded(old(funds)[k], reward)
        invariant Gaps(All()) == Less(old(Gaps(All())), One(Delta, sum))
        decreases todo
      {
        var k :| k in todo;
        FundNext(old(funds), reward, todo, k);
        var r := Share(reward, funds[k].percent);
        var fund := Funded(funds[k], reward);
        SetFund(All(), k, fund);
        funds := funds[k := fund];
        sum := sum + r;
        if sum > reward { return Aborted; }
        todo := todo - {k};
      }
      assert funds.Keys - todo == old(funds).Keys;
      FundsAll(old(funds), reward);
      FundedGrow(old(funds), funds, reward);
      return Ok(sum);
    }

    /** `process_funds`: what a block prints goes to the reward funds, the vesting fund and the producer. */
    method ProcessFunds(producer: Name, printed: int, weight: nat, payFactor: nat)
      returns (ok: bool, content: int, reward: int)
      requires Valid() && producer in accounts && printed >= 0 && payFactor > 0
      modifies this`accounts, this`escrows, this`conversions, this`withdrawals, this`orders, this`funds, this`globals
      ensures Valid() && Gaps(All()) == old(Gaps(All()))
      ensures !ok ==> All() == old(All())
      ensures var p := Printing(old(globals), old(funds), printed, weight, payFactor);
              && ok == p.Ok?
              && (ok ==> && globals == p.value.0
                         && accounts == old(accounts)[producer := Vested(old(accounts)[producer], p.value.1,
                                                                         p.value.2, false)])
      ensures ok ==> content == FundShares(old(funds), Share(printed, CONTENT_PERCENT))
      ensures ok ==> var vesting := Share(printed, VESTING_PERCENT);
                     && 0 <= content <= Share(printed, CONTENT_PERCENT) && content + vesting <= printed
                     && reward == ProducerReward(printed - content - vesting, weight, payFactor)
                     && var g := Inflated(old(globals), content, vesting, reward);
                        var shares := SharesFor(g, reward, false);
                        && shares.Ok? && globals == VestedGlobals(g, reward, shares.value, false)
                        && var p := Vested(old(accounts)[producer], reward, shares.value, false);
                           accounts == old(accounts)[producer := p]
      ensures ok ==> funds.Keys == old(funds).Keys
      ensures ok ==> forall k :: k in funds ==> funds[k] == Funded(old(funds)[k], Share(printed, CONTENT_PERCENT))
      ensures ok ==> Produced(old(Wallets(accounts, globals)), Wallets(accounts, globals), old(funds), funds, producer,
                              printed, weight, payFactor, content, reward)
      ensures escrows == old(escrows) && conversions == old(conversions) && withdrawals == old(withdrawals)
              && orders == old(orders)
    {
      hide Gaps, Sound, SharesFor, Vested, FundShares, Share, ProducerReward, Floor, VestedGlobals, Bought, Produced,
           FundsGrow;
      content, reward := 0, 0;
      ghost var w := Wallets(accounts, globals);
      var saved := All();
      var paid := PayRewardFunds(Share(printed, CONTENT_PERCENT));
      if paid.Aborted? { Restore(saved); return false, 0, 0; }
      content := paid.value;
      var vesting := Share(printed, VESTING_PERCENT);
      PrintedParts(printed, content);
      reward := ProducerReward(printed - content - vesting, weight, payFactor);
      var g := Inflated(globals, content, vesting, reward);
      SetGlobals(All(), g);
      globals := g;
      var shares := CreateVesting(producer, reward, false);
      ok := shares.Ok?;
      if !ok { Restore(saved); return; }
      PrintingProduces(w, Wallets(accounts, globals), old(funds), funds, producer, printed, weight, payFactor);
    }

    // ----- the null account -----

    /** `clear_null_account_balance`: what the null account holds is taken out of circulation. */
    method ClearNull(nobody: Name) returns (ok: bool)
      requires Valid() && nobody in accounts
      modifies this`accounts, this`escrows, this`conversions, this`withdrawals, this`orders, this`funds, this`globals
      ensures Valid() && Gaps(All()) == old(Gaps(All()))
      ensures !ok ==> All() == old(All())
      ensures var cleared := Cleared(old(Wallets(accounts, globals)), nobody, now, interestRate);
              && ok == cleared.Ok?
              && (ok ==> var w := cleared.value; All() == old(All()).(accounts := w.accounts, globals := w.globals))
      ensures ok ==> Wiped(old(Wallets(accounts, globals)), Wallets(accounts, globals), nobody, now, interestRate)
    {
      hide Wiped, Gaps, Sound, WorthOf, PurseOk, Drained, Stripped, StrippedGlobals, DrainInterest, AllDelta, AllDbd;
      var saved := All();
      var p := accounts[nobody];
      SoundPurse(All(), nobody);
      VestsSigned(p);
      var worth := if p.vests > 0 then WorthOf(globals, p.vests) else Ok(0);
      if worth.Aborted? { return false; }
      var totalDelta, totalDbd := AllDelta(p, worth.value), AllDbd(p);
      Wipe(nobody, worth.value);
      KeepsSupply(old(globals), p, worth.value, Backing(p));
      if globals.supply - totalDelta < 0 || globals.dbdSupply - totalDbd < 0 {
        Restore(saved);
        return false;
      }
      var g := globals.(supply := globals.supply - totalDelta, dbdSupply := globals.dbdSupply - totalDbd);
      SetGlobals(All(), g);
      globals := g;
      ClearedWipes(old(Wallets(accounts, globals)), nobody, now, interestRate);
      return true;
    }

    /** Everything the null account holds, and its part of the vesting funds. */
    method Wipe(name: Name, worth: int)
      requires Valid() && name in accounts
      modifies this`accounts, this`globals
      ensures var p := old(accounts)[name];
              && accounts == old(accounts)[name := Stripped(Drained(p, now, interestRate), Backing(p))]
              && globals == StrippedGlobals(old(globals), p, worth, Backing(p)).(
                              dbdSupply := old(globals).dbdSupply + DrainInterest(p, now, interestRate))
              && Gaps(All()) == More(old(Gaps(All())), Amounts(AllDelta(p, worth), AllDbd(p), 0, 0))
      ensures Valid()
    {
      hide Gaps, Sound, Drained, DrainInterest, OfPurse;
      DrainKeeps(accounts[name], now, interestRate);
      Drain(name);
      Strip(name, worth, Backing(accounts[name]));
    }

    /** The null account's balances and savings; interest that comes due stays with it. */
    method Drain(name: Name)
      requires Valid() && name in accounts
      modifies this`accounts, this`globals
      ensures Valid() && accounts == old(accounts)[name := Drained(old(accounts)[name], now, interestRate)]
      ensures globals == old(globals).(dbdSupply := old(globals).dbdSupply
                                                    + DrainInterest(old(accounts)[name], now, interestRate))
      ensures var p := old(accounts)[name];
              Gaps(All()) == More(old(Gaps(All())),
                                  Amounts(p.delta + p.savings, p.dbd.amount + p.savingsDbd.amount, 0, 0))
    {
      hide Gaps, Sound, DrainedPot, Accrued;
      SoundPurse(All(), name);
      var p := accounts[name];
      var ok := AdjustBalance(name, Delta, -p.delta);
      ok := AdjustSavings(name, Delta, -p.savings);
      DrainDbd(name);
    }

    method DrainDbd(name: Name)
      requires Valid() && name in accounts
      modifies this`accounts, this`globals
      ensures var p := old(accounts)[name];
              && accounts == old(accounts)[name := p.(dbd := DrainedPot(p.dbd, now, interestRate).0,
                                                      savingsDbd := DrainedPot(p.savingsDbd, now, interestRate).0)]
              && globals == old(globals).(dbdSupply := old(globals).dbdSupply + DrainInterest(p, now, interestRate))
              && Gaps(All()) == More(old(Gaps(All())), Amounts(0, p.dbd.amount + p.savingsDbd.amount, 0, 0))
      ensures Valid()
    {
      hide Gaps, Sound, Accrued;
      SoundPurse(All(), name);
      var p := accounts[name];
      var ok;
      if p.dbd.amount > 0 { ok := AdjustBalance(name, Dbd, -p.dbd.amount); }
      if p.savingsDbd.amount > 0 { ok := AdjustSavings(name, Dbd, -p.savingsDbd.amount); }
    }

    /** The null account's shares and rewards, and their part of the vesting funds. */
    method Strip(name: Name, worth: int, backing: int)
      requires Valid() && name in accounts && (backing == accounts[name].rewardVestingDelta || backing == 0)
      modifies this`accounts, this`globals
      ensures Valid()
      ensures accounts == old(accounts)[name := Stripped(old(accounts)[name], backing)]
      ensures globals == StrippedGlobals(old(globals), old(accounts)[name], worth, backing)
      ensures Gaps(All()) == More(old(Gaps(All())),
                                  Amounts(worth + old(accounts)[name].rewardDelta + backing,
                                          old(accounts)[name].rewardDbd, 0, 0))
    {
      hide Gaps, Sound;
      SoundPurse(All(), name);
      SetBoth(name, Stripped(accounts[name], backing), StrippedGlobals(globals, accounts[name], worth, backing));
    }

    // ----- paying out a comment -----

    /** Half of `percentDollars` of a reward is paid as DBD, the rest as vesting shares. */
    method PaySplit(name: Name, tokens: int, percentDollars: int, printRate: int) returns (ok: bool, unbacked: int)
      requires Valid() && tokens >= 0 && 0 <= percentDollars <= HUNDRED_PERCENT && 0 <= printRate <= HUNDRED_PERCENT
      modifies this`accounts, this`globals
      ensures Valid() && accounts.Keys == old(accounts).Keys
      ensures ok ==> Gaps(All()) == Less(old(Gaps(All())), Taken(tokens, unbacked))
      ensures var w, m := old(Wallets(accounts, globals)), Market(median, printRate, now, interestRate);
              var paid := SplitTo(w, name, tokens, percentDollars, m);
              && ok == paid.Ok? && (ok ==> Wallets(accounts, globals) == paid.value)
              && (ok ==> unbacked == Lost(SplitPayouts(w, name, tokens, percentDollars, m)))
              && (ok ==> Awarded(w, Wallets(accounts, globals), name, tokens, percentDollars, m))
    {
      hide Gaps, Sound, SharesFor, Vested, Exchanged, DbdTo, Lost, Dollars, Unbacked, Awarded, Issued;
      ghost var w, m := Wallets(accounts, globals), Market(median, printRate, now, interestRate);
      unbacked := 0;
      if name !in accounts {
        NoAccount(Wallets(accounts, globals), name, Dollars(tokens, percentDollars),
                  Market(median, printRate, now, interestRate));
        return false, 0;
      }
      HalfAtMost(tokens, percentDollars);
      var dollars := Dollars(tokens, percentDollars);
      ok := CreateDbd(name, dollars, printRate);
      if !ok { return; }
      ghost var half := Wallets(accounts, globals);
      var shares := CreateVesting(name, tokens - dollars, true);
      if shares.Aborted? { return false, 0; }
      unbacked := Unbacked(tokens - dollars, shares.value, true);
      VestLost(half, tokens - dollars);
      SplitAwards(w, Wallets(accounts, globals), name, tokens, percentDollars, m);
    }

    /** One curator's claim; a claim of nothing is not paid. */
    method PayCurator(vote: (Name, nat), totalWeight: nat, max: int) returns (ok: bool, claim: int, unbacked: int)
      requires Valid() && max >= 0 && totalWeight > 0
      modifies this`accounts, this`globals
      ensures Valid() && accounts.Keys == old(accounts).Keys && claim == Floor(max, vote.1, totalWeight)
      ensures ok ==> Gaps(All()) == Less(old(Gaps(All())), Taken(claim, unbacked))
      ensures var w := old(Wallets(accounts, globals));
              var paid := CuratorPaid(w, vote, totalWeight, max);
              && ok == paid.Ok? && (ok ==> Wallets(accounts, globals) == paid.value)
              && (ok ==> unbacked == Lost(CuratorPayouts(w, vote, totalWeight, max)))
    {
      hide Gaps, Sound, SharesFor, Vested, Lost, Floor;
      ghost var before := Wallets(accounts, globals);
      FloorSigned(max, vote.1, totalWeight);
      claim, unbacked := Floor(max, vote.1, totalWeight), 0;
      NothingLost();
      if claim == 0 { return true, 0, 0; }
      if vote.0 !in accounts { return false, claim, 0; }
      var shares := CreateVesting(vote.0, claim, true);
      if shares.Aborted? { return false, claim, 0; }
      VestLost(before, claim);
      return true, claim, Unbacked(claim, shares.value, true);
    }

    /** `pay_curators`, for the pool `max`. */
    method PayCurators(votes: seq<(Name, nat)>, totalWeight: nat, max: int)
      returns (ok: bool, claimed: int, unbacked: int)
      requires Valid() && max >= 0
      modifies this`accounts, this`globals
      ensures Valid() && accounts.Keys == old(accounts).Keys
      ensures ok ==> claimed == (if totalWeight > 0 then Claims(votes, totalWeight, max) else 0)
      ensures ok ==> Gaps(All()) == Less(old(Gaps(All())), Taken(claimed, unbacked))
      ensures totalWeight == 0 ==> ok && All() == old(All()) && unbacked == 0
      ensures totalWeight > 0 ==>
                var w := old(Wallets(accounts, globals));
                var paid := CuratorsPaid(w, votes, totalWeight, max);
                && ok == paid.Ok? && (ok ==> Wallets(accounts, globals) == paid.value)
                && (ok ==> unbacked == Lost(CuratorsPayouts(w, votes, totalWeight, max)))
                && (ok ==> var m := Market(median, 0, now, interestRate);
                           Curated(w, Wallets(accounts, globals), votes, totalWeight, max, m, claimed))
    {
      hide Curated, Gaps, Sound, Claims, CuratorsPaid, CuratorsPayouts, CuratorPaid, CuratorPayouts, Lost, Floor;
      claimed, unbacked := 0, 0;
      if totalWeight == 0 { return true, 0, 0; }
      var i := 0;
      ghost var w := Wallets(accounts, globals);
      NoClaims(votes, totalWeight, max);
      NoneCurated(w, votes, totalWeight, max);
      while i < |votes|
        invariant 0 <= i <= |votes| && Valid() && accounts.Keys == old(accounts).Keys
        invariant claimed == Claims(votes[..i], totalWeight, max)
        invariant CuratorsPaid(w, votes[..i], totalWeight, max) == Ok(Wallets(accounts, globals))
        invariant unbacked == Lost(CuratorsPayouts(w, votes[..i], totalWeight, max))
        invariant Gaps(All()) == Less(old(Gaps(All())), Taken(claimed, unbacked))
      {
        NextClaim(votes, totalWeight, max, i);
        NextCurated(w, votes, totalWeight, max, i);
        NextCuratorPayout(w, votes, totalWeight, max, i);
        var paid, claim, lost := PayCurator(votes[i], totalWeight, max);
        if !paid {
          CurationAborts(w, votes, totalWeight, max, i);
          return false, claimed, unbacked;
        }
        claimed, unbacked := claimed + claim, unbacked + lost;
        i := i + 1;
      }
      assert votes[..|votes|] == votes;
      CuratorsExact(w, Wallets(accounts, globals), votes, totalWeight, max, Market(median, 0, now, interestRate),
                    claimed);
      ok := true;
    }

    /** The beneficiaries' parts of the author's tokens. */
    method PayBeneficiaries(c: Comment, tokens: int, printRate: int) returns (ok: bool, total: int, unbacked: int)
      requires Valid() && tokens >= 0 && CommentOk(c) && 0 <= printRate <= HUNDRED_PERCENT
      modifies this`accounts, this`globals
      ensures Valid() && accounts.Keys == old(accounts).Keys
      ensures ok ==> total == Benefits(c.beneficiaries, tokens)
      ensures ok ==> Gaps(All()) == Less(old(Gaps(All())), Taken(total, unbacked))
      ensures var w, m := old(Wallets(accounts, globals)), Market(median, printRate, now, interestRate);
              var paid := BeneficiariesPaid(w, c.beneficiaries, tokens, c.percentDollars, m);
              && ok == paid.Ok? && (ok ==> Wallets(accounts, globals) == paid.value)
              && (ok ==> unbacked == Lost(BeneficiariesPayouts(w, c.beneficiaries, tokens, c.percentDollars, m)))
              && (ok ==> Benefited(w, Wallets(accounts, globals), c.beneficiaries, tokens, c.percentDollars, m, total))
    {
      hide Awarded, Benefited, Gaps, Sound, Benefits, BeneficiariesPaid, BeneficiariesPayouts, SplitTo, SplitPayouts,
           Lost, Share;
      ghost var w, m := Wallets(accounts, globals), Market(median, printRate, now, interestRate);
      var bs := c.beneficiaries;
      total, unbacked := 0, 0;
      var i := 0;
      NoBenefits(bs, tokens);
      NoneBenefited(w, bs, tokens, c.percentDollars, m);
      while i < |bs|
        invariant 0 <= i <= |bs| && Valid() && accounts.Keys == old(accounts).Keys
        invariant total == Benefits(bs[..i], tokens)
        invariant BeneficiariesPaid(w, bs[..i], tokens, c.percentDollars, m) == Ok(Wallets(accounts, globals))
        invariant unbacked == Lost(BeneficiariesPayouts(w, bs[..i], tokens, c.percentDollars, m))
        invariant Gaps(All()) == Less(old(Gaps(All())), Taken(total, unbacked))
      {
        NextBenefit(bs, tokens, i);
        NextBenefited(w, bs, tokens, c.percentDollars, m, i);
        NextBenefitPayout(w, bs, tokens, c.percentDollars, m, i);
        var part := Share(tokens, bs[i].1);
        var paid, lost := PaySplit(bs[i].0, part, c.percentDollars, printRate);
        if !paid {
          BenefitsAbort(w, bs, tokens, c.percentDollars, m, i);
          return false, total, unbacked;
        }
        total, unbacked := total + part, unbacked + lost;
        i := i + 1;
      }
      assert bs[..|bs|] == bs;
      BenefitsExact(w, Wallets(accounts, globals), bs, tokens, c.percentDollars, m, total);
      ok := true;
    }

    /** The author's tokens: first the beneficiaries' parts, then what is left of them. */
    method PayAuthor(c: Comment, tokens: int, printRate: int) returns (ok: bool, unbacked: int)
      requires Valid() && tokens >= 0 && CommentOk(c) && 0 <= printRate <= HUNDRED_PERCENT
      modifies this`accounts, this`globals
      ensures Valid() && accounts.Keys == old(accounts).Keys
      ensures ok ==> Gaps(All()) == Less(old(Gaps(All())), Taken(tokens, unbacked))
      ensures var w, m := old(Wallets(accounts, globals)), Market(median, printRate, now, interestRate);
              var paid := AuthorPaid(w, c, tokens, m);
              && ok == paid.Ok? && (ok ==> Wallets(accounts, globals) == paid.value)
              && (ok ==> unbacked == Lost(AuthorPayouts(w, c, tokens, m)))
    {
      hide Gaps, Sound, Benefits, BeneficiariesPaid, BeneficiariesPayouts, SplitTo, SplitPayouts, Lost, Awarded,
           Benefited;
      ghost var w, m := Wallets(accounts, globals), Market(median, printRate, now, interestRate);
      var benefits, lost;
      ok, benefits, unbacked := PayBeneficiaries(c, tokens, printRate);
      if !ok { return; }
      ghost var v := Wallets(accounts, globals);
      BenefitsWithin(c.beneficiaries, tokens);
      ok, lost := PaySplit(c.author, tokens - benefits, c.percentDollars, printRate);
      LostBoth(BeneficiariesPayouts(w, c.beneficiaries, tokens, c.percentDollars, m),
               SplitPayouts(v, c.author, tokens - benefits, c.percentDollars, m));
      unbacked := unbacked + lost;
    }

    /**
     `cashout_comment_helper` and the charge to the reward fund. The fund is charged exactly
     what curators, beneficiaries and author get; `unbacked` is what was paid for no share.
     */
    method Cashout(fund: nat, c: Comment, reward: int, printRate: int) returns (ok: bool, claimed: int, unbacked: int)
      requires Valid() && fund in funds && reward >= 0 && CommentOk(c) && 0 <= printRate <= HUNDRED_PERCENT
      modifies this`accounts, this`escrows, this`conversions, this`withdrawals, this`orders, this`funds, this`globals
      ensures Valid() && (!ok ==> All() == old(All()))
      ensures var w, m := old(Wallets(accounts, globals)), Market(median, printRate, now, interestRate);
              var paid := CashedOut(w, c, reward, m);
              && ok == paid.Ok? && (ok ==> Wallets(accounts, globals) == paid.value)
              && (ok ==> unbacked == Lost(CashoutPayouts(w, c, reward, m)))
      ensures ok ==> var w, m := old(Wallets(accounts, globals)), Market(median, printRate, now, interestRate);
                     PaidOut(w, Wallets(accounts, globals), c, reward, m, claimed)
      ensures ok ==> claimed == Claimable(c, reward)
      ensures ok ==> funds == old(funds)[fund := old(funds)[fund].(balance := old(funds)[fund].balance - claimed)]
      ensures ok ==> escrows == old(escrows) && conversions == old(conversions) && withdrawals == old(withdrawals)
                     && orders == old(orders)
      ensures ok ==> Gaps(All()) == Less(old(Gaps(All())), Taken(0, unbacked))
      ensures ok && VoteWeights(c.votes) <= c.totalWeight ==> claimed <= reward
    {
      hide Gaps, Sound, Claims, Share, PurseOk, CuratorsPaid, AuthorPaid, VoteWeights, CuratorsPayouts, AuthorPayouts,
           Lost, Curated, PaidOut;
      claimed, unbacked := 0, 0;
      ghost var w, m := Wallets(accounts, globals), Market(median, printRate, now, interestRate);
      if reward == 0 {
        CashoutExact(w, w, c, reward, m, 0);
        assert funds == funds[fund := funds[fund].(balance := funds[fund].balance - 0)];
        NothingLost();
        return true, 0, 0;
      }
      var saved := All();
      var pool := Share(reward, c.curationPercent);
      ShareWithin(reward, c.curationPercent);
      var curated := 0;
      ghost var curators: seq<Payout> := [];
      NothingLost();
      if c.allowCuration {
        ok, curated, unbacked := PayCurators(c.votes, c.totalWeight, pool);
        if !ok { Restore(saved); return false, 0, 0; }
        if c.totalWeight > 0 {
          curators := CuratorsPayouts(w, c.votes, c.totalWeight, pool);
          if VoteWeights(c.votes) <= c.totalWeight { ClaimsWithin(c.votes, c.totalWeight, pool); }
        }
      }
      ghost var v := Wallets(accounts, globals);
      claimed := reward - pool + curated;
      var lost;
      ok, lost := PayAuthor(c, reward - pool, printRate);
      if !ok { Restore(saved); return false, 0, 0; }
      LostBoth(curators, AuthorPayouts(v, c, reward - pool, m));
      unbacked := unbacked + lost;
      CashoutExact(w, Wallets(accounts, globals), c, reward, m, claimed);
      Charge(fund, claimed);
    }

    method Charge(fund: nat, amount: int)
      requires Valid() && fund in funds
      modifies this`funds
      ensures Valid() && funds == old(funds)[fund := old(funds)[fund].(balance := old(funds)[fund].balance - amount)]
      ensures Gaps(All()) == More(old(Gaps(All())), One(Delta, amount))
    {
      hide Gaps, Sound;
      var charged := funds[fund].(balance := funds[fund].balance - amount);
      SetFund(All(), fund, charged);
      funds := funds[fund := charged];
    }
  }
}
