/**
 The part of the ledger that the price of vesting shares is made of: who holds how many, and what backs them.
 Payments, trades and settled requests leave it alone; so the operations that move it are few, and what they
 make of it is told from the state before them.
 */
module Staking {
  import opened Common
  import opened OrderMath
  import opened Orders
  import opened Holdings
  import opened Bookkeeping
  import opened Settlement
  import opened Routing
  import opened Rewards
  import opened OrderBook

  datatype Stake = Stake(held: map<Name, int>, fund: int, total: int, pendingShares: int, pendingDelta: int)

  function StakeOf(w: Wallets): Stake
  {
    Stake(map n | n in w.accounts :: w.accounts[n].vests,
          w.globals.vestingFund, w.globals.totalVests, w.globals.pendingShares, w.globals.pendingDelta)
  }

  predicate SameVests(a: Accounts, b: Accounts)
  {
    a.Keys == b.Keys && forall n :: n in a ==> a[n].vests == b[n].vests
  }

  /** Supplies aside, the totals are the same. */
  predicate SameTotals(g: Globals, h: Globals)
  {
    h == g.(supply := h.supply, dbdSupply := h.dbdSupply, rewardFund := h.rewardFund)
  }

  predicate SameStake(w: Wallets, v: Wallets)
  {
    SameVests(w.accounts, v.accounts) && SameTotals(w.globals, v.globals)
  }

  lemma StakeStays(w: Wallets, v: Wallets)
    requires SameStake(w, v)
    ensures StakeOf(w) == StakeOf(v)
  {
    assert StakeOf(w).held == StakeOf(v).held;
  }

  // ----- payments -----

  lemma PaidSame(accounts: Accounts, n: Name, s: Symbol, x: int, now: int, rate: int)
    requires n in accounts
    ensures SameVests(accounts, Paid(accounts, n, s, x, now, rate))
    ensures SameVests(accounts, Saved(accounts, n, s, x, now, rate))
  {
  }

  lemma ReceivedSame(accounts: Accounts, n: Name, d: Due, now: int, rate: int)
    requires n in accounts
    ensures SameVests(accounts, accounts[n := Received(accounts[n], d, now, rate)])
  {
  }

  lemma SettledSame<K(!new), V(!new)>(before: Accounts, accounts: Accounts, table: map<K, V>,
                                      owes: (Name, K, V) -> Due, now: int, rate: int)
    requires Settled(before, accounts, table, owes, now, rate)
    ensures SameVests(before, accounts)
  {
    hide OwedTo;
    forall n | n in before ensures accounts[n].vests == before[n].vests {
      assert accounts[n] == Received(before[n], OwedTo(table, owes, n), now, rate);
    }
  }

  // ----- trades -----

  lemma PaidToSame(t: Tables, n: Name, s: Symbol, x: int, c: Clock)
    ensures SameStake(t.wallets, PaidTo(t, n, s, x, c).wallets)
  {
  }

  lemma RefundedSame(t: Tables, id: nat, c: Clock)
    requires id in t.book
    ensures SameStake(t.wallets, Refunded(t, id, c).wallets)
  {
    PaidToSame(t, t.book[id].seller, t.book[id].sells, t.book[id].forSale, c);
  }

  lemma FilledSame(t: Tables, id: nat, pays: int, receives: int, c: Clock)
    requires id in t.book && t.book[id].price.base > 0
    ensures SameStake(t.wallets, Filled(t, id, pays, receives, c).wallets)
  {
    hide PaidTo, Floor;
    var o := t.book[id];
    var paid := PaidTo(t, o.seller, Other(o.sells), receives, c);
    PaidToSame(t, o.seller, Other(o.sells), receives, c);
    RefundedSame(paid.(book := t.book[id := o.(forSale := o.forSale - pays)]), id, c);
  }

  lemma TradedSame(t: Tables, incoming: nat, resting: nat, c: Clock)
    ensures SameStake(t.wallets, Traded(t, incoming, resting, c).wallets)
  {
    hide Match, Floor, PaidTo;
    if Tradable(t.book, incoming, resting) {
      var trade := Match(t.book[incoming].forSale, t.book[resting].forSale, t.book[resting].price).value;
      FilledSame(t, incoming, trade.newPays, trade.oldPays, c);
      FilledSame(Filled(t, incoming, trade.newPays, trade.oldPays, c), resting, trade.oldPays, trade.newPays, c);
    }
  }

  lemma {:induction false} FillsSame(t: Tables, incoming: nat, fills: seq<nat>, c: Clock)
    ensures SameStake(t.wallets, FilledInTurn(t, incoming, fills, c).wallets)
  {
    hide Traded;
    if fills != [] {
      FillsSame(t, incoming, fills[..|fills| - 1], c);
      TradedSame(FilledInTurn(t, incoming, fills[..|fills| - 1], c), incoming, fills[|fills| - 1], c);
    }
  }

  // ----- payouts -----

  /** A payout adds to what is unclaimed; shares that are held, their total and their fund stay. */
  predicate Unclaimed(w: Wallets, v: Wallets)
  {
    && SameVests(w.accounts, v.accounts)
    && v.globals.vestingFund == w.globals.vestingFund && v.globals.totalVests == w.globals.totalVests
  }

  lemma VestedToSame(w: Wallets, name: Name, liquid: int)
    requires VestedTo(w, name, liquid).Ok?
    ensures Unclaimed(w, VestedTo(w, name, liquid).value)
  {
    hide SharesFor;
  }

  lemma DbdToSame(w: Wallets, name: Name, amount: int, m: Market)
    requires DbdTo(w, name, amount, m).Ok?
    ensures Unclaimed(w, DbdTo(w, name, amount, m).value)
  {
    hide Exchanged, Printed;
  }

  lemma SplitToSame(w: Wallets, name: Name, tokens: int, percentDollars: int, m: Market)
    requires SplitTo(w, name, tokens, percentDollars, m).Ok?
    ensures Unclaimed(w, SplitTo(w, name, tokens, percentDollars, m).value)
  {
    hide DbdTo, VestedTo, Dollars;
    var dollars := Dollars(tokens, percentDollars);
    DbdToSame(w, name, dollars, m);
    VestedToSame(DbdTo(w, name, dollars, m).value, name, tokens - dollars);
  }

  lemma {:induction false} CuratorsSame(w: Wallets, votes: seq<(Name, nat)>, total: nat, max: int)
    requires total > 0 && CuratorsPaid(w, votes, total, max).Ok?
    ensures Unclaimed(w, CuratorsPaid(w, votes, total, max).value)
  {
    hide VestedTo, Floor;
    if votes != [] {
      var init, last := votes[..|votes| - 1], votes[|votes| - 1];
      CuratorsSame(w, init, total, max);
      var claim := Floor(max, last.1, total);
      if claim > 0 { VestedToSame(CuratorsPaid(w, init, total, max).value, last.0, claim); }
    }
  }

  lemma {:induction false} BeneficiariesSame(w: Wallets, bs: seq<(Name, int)>, tokens: int, percentDollars: int,
                                             m: Market)
    requires tokens >= 0 && forall i :: 0 <= i < |bs| ==> bs[i].1 >= 0
    requires BeneficiariesPaid(w, bs, tokens, percentDollars, m).Ok?
    ensures Unclaimed(w, BeneficiariesPaid(w, bs, tokens, percentDollars, m).value)
  {
    hide SplitTo, Share;
    if bs != [] {
      var init, last := bs[..|bs| - 1], bs[|bs| - 1];
      BeneficiariesSame(w, init, tokens, percentDollars, m);
      var v := BeneficiariesPaid(w, init, tokens, percentDollars, m).value;
      SplitToSame(v, last.0, Share(tokens, last.1), percentDollars, m);
    }
  }

  lemma CashoutSame(w: Wallets, c: Comment, reward: int, m: Market)
    requires CommentOk(c) && reward >= 0 && CashedOut(w, c, reward, m).Ok?
    ensures Unclaimed(w, CashedOut(w, c, reward, m).value)
  {
    hide CuratorsPaid, BeneficiariesPaid, SplitTo, Benefits, Share;
    if reward > 0 {
      var pool := Share(reward, c.curationPercent);
      ShareWithin(reward, c.curationPercent);
      var curated := c.allowCuration && c.totalWeight > 0;
      if curated { CuratorsSame(w, c.votes, c.totalWeight, pool); }
      var v := if curated then CuratorsPaid(w, c.votes, c.totalWeight, pool).value else w;
      BeneficiariesSame(v, c.beneficiaries, reward - pool, c.percentDollars, m);
      var u := BeneficiariesPaid(v, c.beneficiaries, reward - pool, c.percentDollars, m).value;
      SplitToSame(u, c.author, reward - pool - Benefits(c.beneficiaries, reward - pool), c.percentDollars, m);
    }
  }
}
