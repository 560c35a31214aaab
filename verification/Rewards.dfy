/**
 Vesting shares bought as rewards, and the payout of a comment: who is paid what, and which payouts buy no
 share.
 */
module Rewards {
  import opened Common
  import opened OrderMath
  import opened Holdings
  import opened Bookkeeping
  import opened Settlement

  // ----- vesting and rewards -----

  function Vested(p: Purse, liquid: int, shares: int, toReward: bool): Purse
  {
    if !toReward then p.(vests := p.vests + shares)
    else if shares == 0 then p.(rewardDelta := p.rewardDelta + liquid)
    else p.(rewardVestingDelta := p.rewardVestingDelta + liquid, rewardVests := p.rewardVests + shares)
  }

  function VestedGlobals(g: Globals, liquid: int, shares: int, toReward: bool): Globals
  {
    if toReward then g.(pendingShares := g.pendingShares + shares, pendingDelta := g.pendingDelta + liquid)
    else g.(vestingFund := g.vestingFund + liquid, totalVests := g.totalVests + shares)
  }

  /** A reward that buys no share is paid out liquid and still added to the pending fund. */
  function Unbacked(liquid: int, shares: int, toReward: bool): int
  {
    if toReward && shares == 0 then liquid else 0
  }

  /** What a payment of `liquid` does to the gaps when `unbacked` of it is counted twice. */
  function Taken(liquid: int, unbacked: int): Amounts
  {
    Amounts(liquid + unbacked, 0, 0, -unbacked)
  }

  /** The books after a reward of `liquid` for `shares` shares, charged to a reward fund. */
  function RewardPaid(b: Books, name: Name, liquid: int, shares: int, fund: nat): Books
    requires name in b.accounts && fund in b.funds
  {
    b.(accounts := b.accounts[name := Vested(b.accounts[name], liquid, shares, true)],
       funds := b.funds[fund := b.funds[fund].(balance := b.funds[fund].balance - liquid)],
       globals := VestedGlobals(b.globals, liquid, shares, true))
  }

  /** A reward keeps the books balanced exactly when it is nothing or buys a share. */
  lemma RewardConserves(b: Books, name: Name, liquid: int, shares: int, fund: nat)
    requires name in b.accounts && fund in b.funds && Conserved(b)
    ensures Conserved(RewardPaid(b, name, liquid, shares, fund)) <==> liquid == 0 || shares != 0
  {
    hide Gaps, Sound;
    var p := Vested(b.accounts[name], liquid, shares, true);
    SetPurse(b, name, p);
    var paid := b.(accounts := b.accounts[name := p]);
    var charged := b.funds[fund].(balance := b.funds[fund].balance - liquid);
    SetFund(paid, fund, charged);
    SetGlobals(paid.(funds := paid.funds[fund := charged]), VestedGlobals(b.globals, liquid, shares, true));
  }

  lemma TooFew(p: Purse, f: Fund, g: Globals)
    requires p == Purse(0, 0, 0, p.dbd, p.savingsDbd, 0, 1, 0, 0) && p.dbd.amount == p.savingsDbd.amount == 0
    requires f.balance == 1 && g == Globals(3, 0, 2, 0, 1, 0, 0)
    ensures SharesFor(g, 1, true) == Ok(0)
    ensures Less(Less(Recorded(g), OfPurse(p)), OfFund(f)) == NOTHING
  {
  }

  /** With more DELTA than shares in the vesting fund, a reward of one unit buys none. */
  lemma RewardTooSmall(name: Name) returns (b: Books)
    ensures name in b.accounts && 0 in b.funds && Conserved(b)
    ensures SharesFor(b.globals, 1, true) == Ok(0)
    ensures !Conserved(RewardPaid(b, name, 1, 0, 0))
  {
    hide Gaps, Sound, RewardPaid, SharesFor, OfPurse, OfFund, Recorded, Less;
    var g, f := Globals(3, 0, 2, 0, 1, 0, 0), Fund(1, 10000);
    var p := Purse(0, 0, 0, DbdPot(0, 0, 0, 0), DbdPot(0, 0, 0, 0), 0, 1, 0, 0);
    TooFew(p, f, g);
    var empty := Books(map[], map[], map[], map[], map[], map[], g);
    Balanced(empty);
    AddPurse(empty, name, p);
    var one := empty.(accounts := empty.accounts[name := p]);
    AddFund(one, 0, f);
    b := one.(funds := one.funds[0 := f]);
    RewardConserves(b, name, 1, 0, 0);
  }

  function Reward(p: Purse, s: Symbol): int
  {
    if s == Delta then p.rewardDelta else p.rewardDbd
  }

  function Rewarded(p: Purse, s: Symbol, x: int): Purse
  {
    if s == Delta then p.(rewardDelta := p.rewardDelta + x) else p.(rewardDbd := p.rewardDbd + x)
  }

  /** The backing that moves with `vests` of the unclaimed shares. */
  function Moved(p: Purse, vests: int): int
    requires 0 <= vests <= p.rewardVests && p.rewardVestingDelta >= 0
  {
    if vests == p.rewardVests then p.rewardVestingDelta else Floor(vests, p.rewardVestingDelta, p.rewardVests)
  }

  lemma MovedWithin(p: Purse, vests: int)
    requires 0 <= vests <= p.rewardVests && p.rewardVestingDelta >= 0
    ensures 0 <= Moved(p, vests) <= p.rewardVestingDelta
  {
    if vests < p.rewardVests {
      FloorSigned(vests, p.rewardVestingDelta, p.rewardVests);
      FloorGalois(vests, p.rewardVestingDelta, p.rewardVests, p.rewardVestingDelta + 1);
      assert vests * p.rewardVestingDelta <= p.rewardVests * p.rewardVestingDelta;
      assert (p.rewardVestingDelta + 1) * p.rewardVests == p.rewardVestingDelta * p.rewardVests + p.rewardVests;
    }
  }

  function Claimed(p: Purse, vests: int, moved: int): Purse
  {
    p.(vests := p.vests + vests, rewardVests := p.rewardVests - vests,
       rewardVestingDelta := p.rewardVestingDelta - moved)
  }

  function ClaimedGlobals(g: Globals, vests: int, moved: int): Globals
  {
    g.(totalVests := g.totalVests + vests, vestingFund := g.vestingFund + moved,
       pendingShares := g.pendingShares - vests, pendingDelta := g.pendingDelta - moved)
  }

  function LiquidClaimed(p: Purse, delta: int, dbd: int, now: int, rate: int): Purse
  {
    var q := Rewarded(Rewarded(p, Delta, -delta), Dbd, -dbd);
    Adjusted(Adjusted(q, Delta, delta, now, rate).0, Dbd, dbd, now, rate).0
  }

  lemma LiquidClaimKeeps(p: Purse, delta: int, dbd: int, now: int, rate: nat)
    ensures var q := LiquidClaimed(p, delta, dbd, now, rate);
            && q.rewardDelta == p.rewardDelta - delta && q.rewardDbd == p.rewardDbd - dbd
            && q.delta == p.delta + delta && q.dbd.amount >= p.dbd.amount + dbd
            && q.vests == p.vests && q.rewardVests == p.rewardVests && q.rewardVestingDelta == p.rewardVestingDelta
  {
    AccruedMore(p.dbd, now, rate);
  }

  /** A claim moves shares and their backing from the pending to the regular fund. */
  lemma ClaimedHeld(p: Purse, vests: int, moved: int, g: Globals)
    ensures More(Less(NOTHING, OfPurse(Claimed(p, vests, moved))), OfPurse(p))
         == Less(Recorded(g), Recorded(ClaimedGlobals(g, vests, moved)))
  {
  }

  // ----- paying out a comment -----

  datatype Comment = Comment(
    author: Name, curationPercent: int, allowCuration: bool, votes: seq<(Name, nat)>, totalWeight: nat,
    beneficiaries: seq<(Name, int)>, percentDollars: int)

  /** What `comment_options` and the reward fund guarantee. */
  predicate CommentOk(c: Comment)
  {
    && 0 <= c.curationPercent <= HUNDRED_PERCENT && 0 <= c.percentDollars <= HUNDRED_PERCENT
    && (forall i :: 0 <= i < |c.beneficiaries| ==> c.beneficiaries[i].1 >= 0)
    && BenefitWeights(c.beneficiaries) <= HUNDRED_PERCENT
  }

  function VoteWeights(votes: seq<(Name, nat)>): nat
  {
    if votes == [] then 0 else VoteWeights(votes[..|votes| - 1]) + votes[|votes| - 1].1
  }

  function BenefitWeights(bs: seq<(Name, int)>): int
  {
    if bs == [] then 0 else BenefitWeights(bs[..|bs| - 1]) + bs[|bs| - 1].1
  }

  /** What the curators get of a pool. */
  function Claims(votes: seq<(Name, nat)>, total: nat, max: int): int
    requires total > 0
  {
    if votes == [] then 0 else Claims(votes[..|votes| - 1], total, max) + Floor(max, votes[|votes| - 1].1, total)
  }

  lemma NoClaims(votes: seq<(Name, nat)>, total: nat, max: int)
    requires total > 0
    ensures Claims(votes[..0], total, max) == 0
  {
  }

  lemma NextClaim(votes: seq<(Name, nat)>, total: nat, max: int, i: nat)
    requires total > 0 && i < |votes|
    ensures Claims(votes[..i + 1], total, max) == Claims(votes[..i], total, max) + Floor(max, votes[i].1, total)
  {
    assert votes[..i + 1][..i] == votes[..i];
  }

  lemma {:induction false} ClaimsScaled(votes: seq<(Name, nat)>, total: nat, max: int)
    requires total > 0 && max >= 0
    ensures Claims(votes, total, max) * total <= max * VoteWeights(votes)
  {
    if votes != [] {
      var init, w := votes[..|votes| - 1], votes[|votes| - 1].1;
      ClaimsScaled(init, total, max);
      FloorGalois(max, w, total, Floor(max, w, total));
      Distribute(Claims(init, total, max), Floor(max, w, total), total);
      Distribute(VoteWeights(init), w, max);
    }
  }

  /** Curators never claim more than the pool while their weights stay within the total. */
  lemma ClaimsWithin(votes: seq<(Name, nat)>, total: nat, max: int)
    requires total > 0 && max >= 0 && VoteWeights(votes) <= total
    ensures Claims(votes, total, max) <= max
  {
    ClaimsScaled(votes, total, max);
    ScaleRight(max, VoteWeights(votes), total);
    Cancel(Claims(votes, total, max), max, total);
  }

  function Benefits(bs: seq<(Name, int)>, tokens: int): int
    requires tokens >= 0 && forall i :: 0 <= i < |bs| ==> bs[i].1 >= 0
  {
    if bs == [] then 0 else Benefits(bs[..|bs| - 1], tokens) + Share(tokens, bs[|bs| - 1].1)
  }

  lemma NoBenefits(bs: seq<(Name, int)>, tokens: int)
    requires tokens >= 0 && forall i :: 0 <= i < |bs| ==> bs[i].1 >= 0
    ensures Benefits(bs[..0], tokens) == 0
  {
  }

  lemma NextBenefit(bs: seq<(Name, int)>, tokens: int, i: nat)
    requires tokens >= 0 && i < |bs| && forall j :: 0 <= j < |bs| ==> bs[j].1 >= 0
    ensures Benefits(bs[..i + 1], tokens) == Benefits(bs[..i], tokens) + Share(tokens, bs[i].1)
  {
    assert bs[..i + 1][..i] == bs[..i];
  }

  lemma {:induction false} BenefitsScaled(bs: seq<(Name, int)>, tokens: int)
    requires tokens >= 0 && forall i :: 0 <= i < |bs| ==> bs[i].1 >= 0
    ensures 0 <= Benefits(bs, tokens) && Benefits(bs, tokens) * HUNDRED_PERCENT <= tokens * BenefitWeights(bs)
  {
    if bs != [] {
      var init, w := bs[..|bs| - 1], bs[|bs| - 1].1;
      BenefitsScaled(init, tokens);
      FloorGalois(tokens, w, HUNDRED_PERCENT, Share(tokens, w));
      Distribute(Benefits(init, tokens), Share(tokens, w), HUNDRED_PERCENT);
      Distribute(BenefitWeights(init), w, tokens);
    }
  }

  lemma BenefitsWithin(bs: seq<(Name, int)>, tokens: int)
    requires tokens >= 0 && forall i :: 0 <= i < |bs| ==> bs[i].1 >= 0
    requires BenefitWeights(bs) <= HUNDRED_PERCENT
    ensures 0 <= Benefits(bs, tokens) <= tokens
  {
    BenefitsScaled(bs, tokens);
    assert tokens * BenefitWeights(bs) <= tokens * HUNDRED_PERCENT;
  }

  lemma HalfAtMost(tokens: int, percent: int)
    requires tokens >= 0 && 0 <= percent <= HUNDRED_PERCENT
    ensures 0 <= Dollars(tokens, percent) <= tokens
  {
    var dollars := Floor(tokens, percent, 2 * HUNDRED_PERCENT);
    FloorSigned(tokens, percent, 2 * HUNDRED_PERCENT);
    FloorGalois(tokens, percent, 2 * HUNDRED_PERCENT, dollars);
    assert tokens * percent <= tokens * HUNDRED_PERCENT;
  }

  // ----- what a payout does to accounts and totals -----

  /** What the size and the form of a payout depend on. */
  datatype Market = Market(median: Option<Price>, printRate: int, now: int, rate: int)

  function VestedTo(w: Wallets, name: Name, liquid: int): Outcome<Wallets>
  {
    if name !in w.accounts then Aborted
    else
      match SharesFor(w.globals, liquid, true)
      case Aborted => Aborted
      case Ok(n) => Ok(Wallets(w.accounts[name := Vested(w.accounts[name], liquid, n, true)],
                               VestedGlobals(w.globals, liquid, n, true)))
  }

  /** How much of an amount is turned into DBD. */
  function Printed(amount: int, m: Market): int
  {
    if m.median.None? then 0 else m.printRate * amount / HUNDRED_PERCENT
  }

  lemma PrintedWithin(amount: int, m: Market)
    requires amount >= 0 && 0 <= m.printRate <= HUNDRED_PERCENT
    ensures 0 <= Printed(amount, m) <= amount
  {
    assert 0 <= m.printRate * amount <= HUNDRED_PERCENT * amount;
  }

  function DbdTo(w: Wallets, name: Name, amount: int, m: Market): Outcome<Wallets>
  {
    if name !in w.accounts then Aborted
    else if amount == 0 then Ok(w)
    else if m.median.None? then Ok(w.(accounts := Paid(w.accounts, name, Delta, amount, m.now, m.rate)))
    else
      var printed := Printed(amount, m);
      match Exchanged(printed, m.median.value.base, m.median.value.quote)
      case Aborted => Aborted
      case Ok(dbd) =>
        if w.globals.supply - printed < 0 || w.globals.dbdSupply + dbd < 0 then Aborted
        else Ok(Wallets(w.accounts[name := Rewarded(Rewarded(w.accounts[name], Dbd, dbd), Delta, amount - printed)],
                        w.globals.(supply := w.globals.supply - printed, dbdSupply := w.globals.dbdSupply + dbd)))
  }

  lemma NoAccount(w: Wallets, name: Name, amount: int, m: Market)
    requires name !in w.accounts
    ensures DbdTo(w, name, amount, m) == Aborted
  {
  }

  /** The part of a reward that is paid in dollars. */
  function Dollars(tokens: int, percentDollars: int): int
  {
    Floor(tokens, percentDollars, 2 * HUNDRED_PERCENT)
  }

  function SplitTo(w: Wallets, name: Name, tokens: int, percentDollars: int, m: Market): Outcome<Wallets>
  {
    match DbdTo(w, name, Dollars(tokens, percentDollars), m)
    case Aborted => Aborted
    case Ok(v) => VestedTo(v, name, tokens - Dollars(tokens, percentDollars))
  }

  function CuratorsPaid(w: Wallets, votes: seq<(Name, nat)>, total: nat, max: int): Outcome<Wallets>
    requires total > 0
  {
    if votes == [] then Ok(w)
    else
      match CuratorsPaid(w, votes[..|votes| - 1], total, max)
      case Aborted => Aborted
      case Ok(v) => CuratorPaid(v, votes[|votes| - 1], total, max)
  }

  lemma NoneCurated(w: Wallets, votes: seq<(Name, nat)>, total: nat, max: int)
    requires total > 0
    ensures CuratorsPaid(w, votes[..0], total, max) == Ok(w)
    ensures Lost(CuratorsPayouts(w, votes[..0], total, max)) == 0
  {
  }

  lemma NextCurated(w: Wallets, votes: seq<(Name, nat)>, total: nat, max: int, i: nat)
    requires total > 0 && i < |votes| && CuratorsPaid(w, votes[..i], total, max).Ok?
    ensures CuratorsPaid(w, votes[..i + 1], total, max)
         == CuratorPaid(CuratorsPaid(w, votes[..i], total, max).value, votes[i], total, max)
  {
    assert votes[..i + 1][..i] == votes[..i];
  }

  lemma {:induction false} CurationAborts(w: Wallets, votes: seq<(Name, nat)>, total: nat, max: int, i: nat)
    requires total > 0 && i < |votes| && CuratorsPaid(w, votes[..i + 1], total, max).Aborted?
    ensures CuratorsPaid(w, votes, total, max).Aborted?
    decreases |votes|
  {
    var n := |votes| - 1;
    if i == n {
      assert votes[..i + 1] == votes;
    } else {
      assert votes[..n][..i + 1] == votes[..i + 1];
      CurationAborts(w, votes[..n], total, max, i);
    }
  }

  /** A claim of nothing is not paid. */
  function CuratorPaid(w: Wallets, vote: (Name, nat), total: nat, max: int): Outcome<Wallets>
    requires total > 0
  {
    var claim := Floor(max, vote.1, total);
    if claim > 0 then VestedTo(w, vote.0, claim) else Ok(w)
  }

  function BeneficiariesPaid(w: Wallets, bs: seq<(Name, int)>, tokens: int, percentDollars: int, m: Market)
    : Outcome<Wallets>
    requires tokens >= 0 && forall i :: 0 <= i < |bs| ==> bs[i].1 >= 0
  {
    if bs == [] then Ok(w)
    else
      match BeneficiariesPaid(w, bs[..|bs| - 1], tokens, percentDollars, m)
      case Aborted => Aborted
      case Ok(v) => SplitTo(v, bs[|bs| - 1].0, Share(tokens, bs[|bs| - 1].1), percentDollars, m)
  }

  lemma NoneBenefited(w: Wallets, bs: seq<(Name, int)>, tokens: int, percentDollars: int, m: Market)
    requires tokens >= 0 && forall i :: 0 <= i < |bs| ==> bs[i].1 >= 0
    ensures BeneficiariesPaid(w, bs[..0], tokens, percentDollars, m) == Ok(w)
    ensures Lost(BeneficiariesPayouts(w, bs[..0], tokens, percentDollars, m)) == 0
  {
  }

  lemma NextBenefited(w: Wallets, bs: seq<(Name, int)>, tokens: int, percentDollars: int, m: Market, i: nat)
    requires tokens >= 0 && i < |bs| && forall j :: 0 <= j < |bs| ==> bs[j].1 >= 0
    requires BeneficiariesPaid(w, bs[..i], tokens, percentDollars, m).Ok?
    ensures BeneficiariesPaid(w, bs[..i + 1], tokens, percentDollars, m)
         == SplitTo(BeneficiariesPaid(w, bs[..i], tokens, percentDollars, m).value, bs[i].0,
                    Share(tokens, bs[i].1), percentDollars, m)
  {
    assert bs[..i + 1][..i] == bs[..i];
  }

  lemma {:induction false} BenefitsAbort(w: Wallets, bs: seq<(Name, int)>, tokens: int, percentDollars: int, m: Market,
                                         i: nat)
    requires tokens >= 0 && i < |bs| && forall j :: 0 <= j < |bs| ==> bs[j].1 >= 0
    requires BeneficiariesPaid(w, bs[..i + 1], tokens, percentDollars, m).Aborted?
    ensures BeneficiariesPaid(w, bs, tokens, percentDollars, m).Aborted?
    decreases |bs|
  {
    var n := |bs| - 1;
    if i == n {
      assert bs[..i + 1] == bs;
    } else {
      assert bs[..n][..i + 1] == bs[..i + 1];
      BenefitsAbort(w, bs[..n], tokens, percentDollars, m, i);
    }
  }

  /** The beneficiaries' parts of the author's tokens, and the rest of them. */
  function AuthorPaid(w: Wallets, c: Comment, tokens: int, m: Market): Outcome<Wallets>
    requires CommentOk(c) && tokens >= 0
  {
    match BeneficiariesPaid(w, c.beneficiaries, tokens, c.percentDollars, m)
    case Aborted => Aborted
    case Ok(u) => SplitTo(u, c.author, tokens - Benefits(c.beneficiaries, tokens), c.percentDollars, m)
  }

  /** What the payout of a comment takes from the reward fund. */
  function Claimable(c: Comment, reward: int): int
    requires CommentOk(c) && reward >= 0
  {
    var pool := Share(reward, c.curationPercent);
    if reward == 0 then 0
    else reward - pool + if c.allowCuration && c.totalWeight > 0 then Claims(c.votes, c.totalWeight, pool) else 0
  }

  function CashedOut(w: Wallets, c: Comment, reward: int, m: Market): Outcome<Wallets>
    requires CommentOk(c) && reward >= 0
  {
    if reward == 0 then Ok(w)
    else
      ShareWithin(reward, c.curationPercent);
      var pool := Share(reward, c.curationPercent);
      match if c.allowCuration && c.totalWeight > 0 then CuratorsPaid(w, c.votes, c.totalWeight, pool) else Ok(w)
      case Aborted => Aborted
      case Ok(v) => AuthorPaid(v, c, reward - pool, m)
  }

  // ----- what buys no share -----

  /** A reward of `liquid`, for `shares` vesting shares. */
  datatype Payout = Payout(liquid: int, shares: int)

  /** Each payout is of nothing or buys a share. */
  predicate Backed(ps: seq<Payout>)
  {
    forall i :: 0 <= i < |ps| ==> ps[i].liquid == 0 || ps[i].shares > 0
  }

  /** What is paid out for no share. */
  function Lost(ps: seq<Payout>): int
  {
    if ps == [] then 0
    else
      var last := ps[|ps| - 1];
      Lost(ps[..|ps| - 1]) + Unbacked(last.liquid, last.shares, true)
  }

  predicate PayoutsOk(ps: seq<Payout>)
  {
    forall i :: 0 <= i < |ps| ==> ps[i].liquid >= 0 && ps[i].shares >= 0
  }

  lemma {:induction false} LostNothing(ps: seq<Payout>)
    requires PayoutsOk(ps)
    ensures Lost(ps) >= 0 && (Lost(ps) == 0 <==> Backed(ps))
  {
    if ps != [] {
      var init, last := ps[..|ps| - 1], ps[|ps| - 1];
      LostNothing(init);
      assert Backed(ps) <==> Backed(init) && (last.liquid == 0 || last.shares > 0) by {
        assert forall i :: 0 <= i < |ps| ==> ps[i] == if i < |init| then init[i] else last;
      }
    }
  }

  lemma {:induction false} LostBoth(ps: seq<Payout>, qs: seq<Payout>)
    ensures Lost(ps + qs) == Lost(ps) + Lost(qs)
  {
    if qs == [] {
      assert ps + qs == ps;
    } else {
      assert (ps + qs)[..|ps + qs| - 1] == ps + qs[..|qs| - 1];
      LostBoth(ps, qs[..|qs| - 1]);
    }
  }

  /** A reward is one payout, unless it aborts. */
  function VestPayouts(w: Wallets, liquid: int): seq<Payout>
  {
    match SharesFor(w.globals, liquid, true)
    case Aborted => []
    case Ok(n) => [Payout(liquid, n)]
  }

  function SplitPayouts(w: Wallets, name: Name, tokens: int, percentDollars: int, m: Market): seq<Payout>
  {
    match DbdTo(w, name, Dollars(tokens, percentDollars), m)
    case Aborted => []
    case Ok(v) => VestPayouts(v, tokens - Dollars(tokens, percentDollars))
  }

  function CuratorPayouts(w: Wallets, vote: (Name, nat), total: nat, max: int): seq<Payout>
    requires total > 0
  {
    var claim := Floor(max, vote.1, total);
    if claim > 0 then VestPayouts(w, claim) else []
  }

  function CuratorsPayouts(w: Wallets, votes: seq<(Name, nat)>, total: nat, max: int): seq<Payout>
    requires total > 0
  {
    if votes == [] then []
    else
      var init := votes[..|votes| - 1];
      CuratorsPayouts(w, init, total, max)
      + match CuratorsPaid(w, init, total, max)
        case Aborted => []
        case Ok(v) => CuratorPayouts(v, votes[|votes| - 1], total, max)
  }

  function BeneficiariesPayouts(w: Wallets, bs: seq<(Name, int)>, tokens: int, percentDollars: int, m: Market)
    : seq<Payout>
    requires tokens >= 0 && forall i :: 0 <= i < |bs| ==> bs[i].1 >= 0
  {
    if bs == [] then []
    else
      var init, last := bs[..|bs| - 1], bs[|bs| - 1];
      BeneficiariesPayouts(w, init, tokens, percentDollars, m)
      + match BeneficiariesPaid(w, init, tokens, percentDollars, m)
        case Aborted => []
        case Ok(v) => SplitPayouts(v, last.0, Share(tokens, last.1), percentDollars, m)
  }

  /** Every reward in vesting shares that the payout of a comment consists of, in order. */
  function CashoutPayouts(w: Wallets, c: Comment, reward: int, m: Market): seq<Payout>
    requires CommentOk(c) && reward >= 0
  {
    if reward == 0 then []
    else
      ShareWithin(reward, c.curationPercent);
      var pool := Share(reward, c.curationPercent);
      var curated := c.allowCuration && c.totalWeight > 0;
      (if curated then CuratorsPayouts(w, c.votes, c.totalWeight, pool) else [])
      + match if curated then CuratorsPaid(w, c.votes, c.totalWeight, pool) else Ok(w)
        case Aborted => []
        case Ok(v) => AuthorPayouts(v, c, reward - pool, m)
  }

  function AuthorPayouts(w: Wallets, c: Comment, tokens: int, m: Market): seq<Payout>
    requires CommentOk(c) && tokens >= 0
  {
    BeneficiariesPayouts(w, c.beneficiaries, tokens, c.percentDollars, m)
    + match BeneficiariesPaid(w, c.beneficiaries, tokens, c.percentDollars, m)
      case Aborted => []
      case Ok(u) => SplitPayouts(u, c.author, tokens - Benefits(c.beneficiaries, tokens), c.percentDollars, m)
  }

  lemma SplitPayoutsOk(w: Wallets, name: Name, tokens: int, percentDollars: int, m: Market)
    requires tokens >= 0 && 0 <= percentDollars <= HUNDRED_PERCENT
    ensures PayoutsOk(SplitPayouts(w, name, tokens, percentDollars, m))
  {
    HalfAtMost(tokens, percentDollars);
  }

  lemma {:induction false} CuratorsPayoutsOk(w: Wallets, votes: seq<(Name, nat)>, total: nat, max: int)
    requires total > 0
    ensures PayoutsOk(CuratorsPayouts(w, votes, total, max))
  {
    if votes != [] { CuratorsPayoutsOk(w, votes[..|votes| - 1], total, max); }
  }

  lemma {:induction false} BeneficiariesPayoutsOk(
    w: Wallets, bs: seq<(Name, int)>, tokens: int, percentDollars: int, m: Market)
    requires tokens >= 0 && (forall i :: 0 <= i < |bs| ==> bs[i].1 >= 0) && 0 <= percentDollars <= HUNDRED_PERCENT
    ensures PayoutsOk(BeneficiariesPayouts(w, bs, tokens, percentDollars, m))
  {
    hide SplitPayouts;
    if bs != [] {
      var init, last := bs[..|bs| - 1], bs[|bs| - 1];
      BeneficiariesPayoutsOk(w, init, tokens, percentDollars, m);
      var paid := BeneficiariesPaid(w, init, tokens, percentDollars, m);
      if paid.Ok? { SplitPayoutsOk(paid.value, last.0, Share(tokens, last.1), percentDollars, m); }
    }
  }

  /** A payout of a comment loses nothing exactly when each of its rewards is nothing or buys a share. */
  lemma CashoutLoses(w: Wallets, c: Comment, reward: int, m: Market)
    requires CommentOk(c) && reward >= 0
    ensures var ps := CashoutPayouts(w, c, reward, m); Lost(ps) >= 0 && (Lost(ps) == 0 <==> Backed(ps))
  {
    hide CuratorsPayouts, CuratorsPaid, AuthorPayouts, Share, Benefits;
    if reward > 0 {
      ShareWithin(reward, c.curationPercent);
      var pool := Share(reward, c.curationPercent);
      var paid := if c.allowCuration && c.totalWeight > 0 then CuratorsPaid(w, c.votes, c.totalWeight, pool) else Ok(w);
      if c.totalWeight > 0 { CuratorsPayoutsOk(w, c.votes, c.totalWeight, pool); }
      if paid.Ok? { AuthorPayoutsOk(paid.value, c, reward - pool, m); }
    }
    LostNothing(CashoutPayouts(w, c, reward, m));
  }

  lemma AuthorPayoutsOk(w: Wallets, c: Comment, tokens: int, m: Market)
    requires CommentOk(c) && tokens >= 0
    ensures PayoutsOk(AuthorPayouts(w, c, tokens, m))
  {
    hide BeneficiariesPayouts, BeneficiariesPaid, SplitPayouts, Benefits;
    BeneficiariesPayoutsOk(w, c.beneficiaries, tokens, c.percentDollars, m);
    var paid := BeneficiariesPaid(w, c.beneficiaries, tokens, c.percentDollars, m);
    BenefitsWithin(c.beneficiaries, tokens);
    if paid.Ok? {
      SplitPayoutsOk(paid.value, c.author, tokens - Benefits(c.beneficiaries, tokens), c.percentDollars, m);
    }
  }

  lemma NextCuratorPayout(w: Wallets, votes: seq<(Name, nat)>, total: nat, max: int, i: nat)
    requires total > 0 && i < |votes| && CuratorsPaid(w, votes[..i], total, max).Ok?
    ensures Lost(CuratorsPayouts(w, votes[..i + 1], total, max))
         == Lost(CuratorsPayouts(w, votes[..i], total, max))
            + Lost(CuratorPayouts(CuratorsPaid(w, votes[..i], total, max).value, votes[i], total, max))
  {
    hide Lost;
    assert votes[..i + 1][..i] == votes[..i];
    LostBoth(CuratorsPayouts(w, votes[..i], total, max),
             CuratorPayouts(CuratorsPaid(w, votes[..i], total, max).value, votes[i], total, max));
  }

  lemma NextBenefitPayout(w: Wallets, bs: seq<(Name, int)>, tokens: int, percentDollars: int, m: Market, i: nat)
    requires tokens >= 0 && i < |bs| && forall j :: 0 <= j < |bs| ==> bs[j].1 >= 0
    requires BeneficiariesPaid(w, bs[..i], tokens, percentDollars, m).Ok?
    ensures var v := BeneficiariesPaid(w, bs[..i], tokens, percentDollars, m).value;
            && Lost(BeneficiariesPayouts(w, bs[..i + 1], tokens, percentDollars, m))
            == Lost(BeneficiariesPayouts(w, bs[..i], tokens, percentDollars, m))
               + Lost(SplitPayouts(v, bs[i].0, Share(tokens, bs[i].1), percentDollars, m))
  {
    hide Lost, Share, SplitPayouts;
    assert bs[..i + 1][..i] == bs[..i];
    LostBoth(BeneficiariesPayouts(w, bs[..i], tokens, percentDollars, m),
             SplitPayouts(BeneficiariesPaid(w, bs[..i], tokens, percentDollars, m).value, bs[i].0,
                          Share(tokens, bs[i].1), percentDollars, m));
  }

  lemma NothingLost()
    ensures Lost([]) == 0
  {
  }

  lemma VestLost(w: Wallets, liquid: int)
    requires SharesFor(w.globals, liquid, true).Ok?
    ensures Lost(VestPayouts(w, liquid)) == Unbacked(liquid, SharesFor(w.globals, liquid, true).value, true)
  {
    assert VestPayouts(w, liquid)[..0] == [];
  }
}
