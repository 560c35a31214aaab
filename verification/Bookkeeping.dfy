/**
 The books of the chain: every table that holds tokens, and the recorded totals. For each way
 of changing one table this module says how the gaps between the two change.
 */
module Bookkeeping {
  import opened Common
  import opened OrderMath
  import opened Orders
  import opened Holdings

  type Key = (Name, nat)

  datatype Books = Books(
    accounts: map<Name, Purse>,
    escrows: map<Key, Escrow>,
    conversions: map<Key, Conversion>,
    withdrawals: map<Key, Withdrawal>,
    orders: Book,
    funds: map<nat, Fund>,
    globals: Globals)

  // ----- conservation -----

  ghost function Held(b: Books, law: Law): int
  {
    Total(b.accounts, InPurse(law)) + Total(b.escrows, InEscrow(law)) + Total(b.conversions, InConversion(law))
    + Total(b.withdrawals, InWithdrawal(law)) + Total(b.orders, InOrder(law)) + Total(b.funds, InFund(law))
  }

  /** How far the recorded totals are from what is held. */
  ghost function Gaps(b: Books): Amounts
  {
    Less(Recorded(b.globals), Amounts(Held(b, DeltaLaw), Held(b, DbdLaw), Held(b, VestsLaw), Held(b, PendingLaw)))
  }

  ghost predicate Conserved(b: Books)
  {
    Gaps(b) == NOTHING
  }

  // ----- soundness -----

  /** An escrow that both sides have approved has paid its fee. */
  predicate EscrowOk(e: Escrow, accounts: map<Name, Purse>, k: Key)
  {
    && e.delta >= 0 && e.dbd >= 0 && e.fee >= 0
    && k.0 in accounts && e.to in accounts && e.agent in accounts
    && (e.toApproved && e.agentApproved ==> e.fee == 0)
  }

  predicate WithdrawalOk(w: Withdrawal, accounts: map<Name, Purse>, k: Key)
  {
    w.amount >= 0 && w.to in accounts && k.0 in accounts
  }

  predicate ConversionOk(c: Conversion, accounts: map<Name, Purse>, k: Key)
  {
    c.amount >= 0 && k.0 in accounts
  }

  predicate OrderOk(o: Order, accounts: map<Name, Purse>)
  {
    Alive(o.forSale, o.price) && o.seller in accounts
  }

  /** No balance is negative, and everything held belongs to an account. */
  ghost predicate Sound(b: Books)
  {
    && (forall n :: n in b.accounts ==> PurseOk(b.accounts[n]))
    && (forall k :: k in b.escrows ==> EscrowOk(b.escrows[k], b.accounts, k))
    && (forall k :: k in b.withdrawals ==> WithdrawalOk(b.withdrawals[k], b.accounts, k))
    && (forall k :: k in b.conversions ==> ConversionOk(b.conversions[k], b.accounts, k))
    && (forall id :: id in b.orders ==> OrderOk(b.orders[id], b.accounts))
  }

  lemma SoundPurse(b: Books, n: Name)
    requires Sound(b) && n in b.accounts
    ensures PurseOk(b.accounts[n])
  {
  }

  lemma SoundEscrow(b: Books, k: Key)
    requires Sound(b) && k in b.escrows
    ensures EscrowOk(b.escrows[k], b.accounts, k)
  {
  }

  lemma SoundWithdrawal(b: Books, k: Key)
    requires Sound(b) && k in b.withdrawals
    ensures WithdrawalOk(b.withdrawals[k], b.accounts, k)
  {
  }

  lemma SoundConversion(b: Books, k: Key)
    requires Sound(b) && k in b.conversions
    ensures ConversionOk(b.conversions[k], b.accounts, k)
  {
  }

  lemma SoundOrder(b: Books, id: nat)
    requires Sound(b) && id in b.orders
    ensures OrderOk(b.orders[id], b.accounts)
  {
  }

  lemma SoundLive(b: Books)
    requires Sound(b)
    ensures Live(b.orders)
  {
    hide Alive;
  }

  // ----- changing one table -----

  lemma SetPurse(b: Books, n: Name, p: Purse)
    requires n in b.accounts
    ensures var c := b.(accounts := b.accounts[n := p]);
            && Gaps(c) == More(Less(Gaps(b), OfPurse(p)), OfPurse(b.accounts[n]))
            && (Sound(b) && PurseOk(p) ==> Sound(c))
  {
    hide OfPurse, Recorded;
    forall law { TotalSet(b.accounts, InPurse(law), n, p); }
    if Sound(b) && PurseOk(p) { SoundWith(b, n, p); }
  }

  lemma SoundWith(b: Books, n: Name, p: Purse)
    requires Sound(b) && PurseOk(p)
    ensures Sound(b.(accounts := b.accounts[n := p]))
  {
    hide PurseOk, Alive;
  }

  lemma Smaller<K, V>(m: map<K, V>, k: K)
    requires k in m
    ensures |m - {k}| < |m|
  {
    assert m.Keys == (m - {k}).Keys + {k};
  }

  lemma GapsMore(b: Books, c: Books, gone: Amounts)
    requires c.globals == b.globals && forall law :: Held(c, law) == Held(b, law) - Pick(gone, law)
    ensures Gaps(c) == More(Gaps(b), gone)
  {
    hide Held;
  }

  predicate Within<K, V(==)>(a: map<K, V>, b: map<K, V>)
  {
    forall k :: k in a ==> k in b && a[k] == b[k]
  }

  /** Books with fewer entries, for the same accounts. */
  lemma SoundLess(b: Books, c: Books)
    requires Sound(b) && c.accounts == b.accounts && Within(c.escrows, b.escrows)
    requires Within(c.withdrawals, b.withdrawals)
    requires Within(c.conversions, b.conversions) && Within(c.orders, b.orders)
    ensures Sound(c)
  {
    hide PurseOk, EscrowOk, WithdrawalOk, ConversionOk, OrderOk;
  }

  lemma SetEscrow(b: Books, k: Key, v: Escrow)
    ensures var c := b.(escrows := b.escrows[k := v]);
            && Gaps(c) == More(Less(Gaps(b), OfEscrow(v)), if k in b.escrows then OfEscrow(b.escrows[k]) else NOTHING)
            && (Sound(b) && EscrowOk(v, b.accounts, k) ==> Sound(c))
  {
    hide PurseOk, EscrowOk, WithdrawalOk, ConversionOk, OrderOk;
    forall law { TotalSet(b.escrows, InEscrow(law), k, v); }
  }

  lemma EscrowGone(b: Books, k: Key, law: Law)
    requires k in b.escrows
    ensures Held(b.(escrows := b.escrows - {k}), law) == Held(b, law) - Pick(OfEscrow(b.escrows[k]), law)
  {
    TotalDrop(b.escrows, InEscrow(law), k);
  }

  lemma DropEscrow(b: Books, k: Key)
    requires k in b.escrows
    ensures var c := b.(escrows := b.escrows - {k});
            && Gaps(c) == More(Gaps(b), OfEscrow(b.escrows[k]))
            && (Sound(b) ==> Sound(c))
            && |c.escrows| < |b.escrows|
  {
    hide Gaps, Held, Sound;
    var c := b.(escrows := b.escrows - {k});
    forall law ensures Held(c, law) == Held(b, law) - Pick(OfEscrow(b.escrows[k]), law) { EscrowGone(b, k, law); }
    GapsMore(b, c, OfEscrow(b.escrows[k]));
    Smaller(b.escrows, k);
    if Sound(b) { SoundLess(b, c); }
  }

  lemma SetWithdrawal(b: Books, k: Key, v: Withdrawal)
    ensures var c := b.(withdrawals := b.withdrawals[k := v]);
            && Gaps(c) == More(Less(Gaps(b), OfWithdrawal(v)),
                               if k in b.withdrawals then OfWithdrawal(b.withdrawals[k]) else NOTHING)
            && (Sound(b) && WithdrawalOk(v, b.accounts, k) ==> Sound(c))
  {
    hide PurseOk, EscrowOk, WithdrawalOk, ConversionOk, OrderOk;
    forall law { TotalSet(b.withdrawals, InWithdrawal(law), k, v); }
  }

  lemma WithdrawalGone(b: Books, k: Key, law: Law)
    requires k in b.withdrawals
    ensures Held(b.(withdrawals := b.withdrawals - {k}), law)
         == Held(b, law) - Pick(OfWithdrawal(b.withdrawals[k]), law)
  {
    TotalDrop(b.withdrawals, InWithdrawal(law), k);
  }

  lemma DropWithdrawal(b: Books, k: Key)
    requires k in b.withdrawals
    ensures var c := b.(withdrawals := b.withdrawals - {k});
            && Gaps(c) == More(Gaps(b), OfWithdrawal(b.withdrawals[k]))
            && (Sound(b) ==> Sound(c))
            && |c.withdrawals| < |b.withdrawals|
  {
    hide Gaps, Held, Sound;
    var c := b.(withdrawals := b.withdrawals - {k});
    forall law ensures Held(c, law) == Held(b, law) - Pick(OfWithdrawal(b.withdrawals[k]), law) {
      WithdrawalGone(b, k, law);
    }
    GapsMore(b, c, OfWithdrawal(b.withdrawals[k]));
    Smaller(b.withdrawals, k);
    if Sound(b) { SoundLess(b, c); }
  }

  lemma SetOrder(b: Books, id: nat, o: Order)
    ensures var c := b.(orders := b.orders[id := o]);
            && Gaps(c) == More(Less(Gaps(b), OfOrder(o)), if id in b.orders then OfOrder(b.orders[id]) else NOTHING)
            && (Sound(b) && OrderOk(o, b.accounts) ==> Sound(c))
  {
    hide PurseOk, EscrowOk, WithdrawalOk, ConversionOk, OrderOk;
    forall law { TotalSet(b.orders, InOrder(law), id, o); }
  }

  lemma OrderGone(b: Books, id: nat, law: Law)
    requires id in b.orders
    ensures Held(b.(orders := b.orders - {id}), law) == Held(b, law) - Pick(OfOrder(b.orders[id]), law)
  {
    TotalDrop(b.orders, InOrder(law), id);
  }

  lemma DropOrder(b: Books, id: nat)
    requires id in b.orders
    ensures var c := b.(orders := b.orders - {id});
            && Gaps(c) == More(Gaps(b), OfOrder(b.orders[id]))
            && (Sound(b) ==> Sound(c))
            && |c.orders| < |b.orders|
  {
    hide Gaps, Held, Sound;
    var c := b.(orders := b.orders - {id});
    forall law ensures Held(c, law) == Held(b, law) - Pick(OfOrder(b.orders[id]), law) { OrderGone(b, id, law); }
    GapsMore(b, c, OfOrder(b.orders[id]));
    Smaller(b.orders, id);
    if Sound(b) { SoundLess(b, c); }
  }

  lemma SetConversion(b: Books, k: Key, v: Conversion)
    ensures var c := b.(conversions := b.conversions[k := v]);
            && Gaps(c) == More(Less(Gaps(b), OfConversion(v)),
                               if k in b.conversions then OfConversion(b.conversions[k]) else NOTHING)
            && (Sound(b) && ConversionOk(v, b.accounts, k) ==> Sound(c))
  {
    hide PurseOk, EscrowOk, WithdrawalOk, ConversionOk, OrderOk;
    forall law { TotalSet(b.conversions, InConversion(law), k, v); }
  }

  lemma ConversionGone(b: Books, k: Key, law: Law)
    requires k in b.conversions
    ensures Held(b.(conversions := b.conversions - {k}), law)
         == Held(b, law) - Pick(OfConversion(b.conversions[k]), law)
  {
    TotalDrop(b.conversions, InConversion(law), k);
  }

  lemma DropConversion(b: Books, k: Key)
    requires k in b.conversions
    ensures var c := b.(conversions := b.conversions - {k});
            && Gaps(c) == More(Gaps(b), OfConversion(b.conversions[k]))
            && (Sound(b) ==> Sound(c))
            && |c.conversions| < |b.conversions|
  {
    hide Gaps, Held, Sound;
    var c := b.(conversions := b.conversions - {k});
    forall law ensures Held(c, law) == Held(b, law) - Pick(OfConversion(b.conversions[k]), law) {
      ConversionGone(b, k, law);
    }
    GapsMore(b, c, OfConversion(b.conversions[k]));
    Smaller(b.conversions, k);
    if Sound(b) { SoundLess(b, c); }
  }

  lemma SetFund(b: Books, k: nat, v: Fund)
    requires k in b.funds
    ensures var c := b.(funds := b.funds[k := v]);
            Gaps(c) == More(Less(Gaps(b), OfFund(v)), OfFund(b.funds[k])) && (Sound(b) ==> Sound(c))
  {
    hide PurseOk, EscrowOk, WithdrawalOk, ConversionOk, OrderOk;
    forall law { TotalSet(b.funds, InFund(law), k, v); }
  }

  lemma SetGlobals(b: Books, g: Globals)
    ensures var c := b.(globals := g);
            Gaps(c) == More(Gaps(b), Less(Recorded(g), Recorded(b.globals))) && (Sound(b) ==> Sound(c))
  {
    hide PurseOk, EscrowOk, WithdrawalOk, ConversionOk, OrderOk;
  }

  // ----- building books -----

  predicate Empty(b: Books)
  {
    && b.accounts == map[] && b.escrows == map[] && b.conversions == map[] && b.withdrawals == map[]
    && b.orders == map[] && b.funds == map[]
  }

  lemma HoldsNothing(b: Books, law: Law)
    requires Empty(b)
    ensures Held(b, law) == 0
  {
    hide InPurse, InEscrow, InConversion, InWithdrawal, InOrder, InFund, Total;
    TotalNone(b.accounts, InPurse(law));
    TotalNone(b.escrows, InEscrow(law));
    TotalNone(b.conversions, InConversion(law));
    TotalNone(b.withdrawals, InWithdrawal(law));
    TotalNone(b.orders, InOrder(law));
    TotalNone(b.funds, InFund(law));
  }

  lemma Balanced(b: Books)
    requires Empty(b)
    ensures Gaps(b) == Recorded(b.globals) && Sound(b)
  {
    hide Held;
    HoldsNothing(b, DeltaLaw);
    HoldsNothing(b, DbdLaw);
    HoldsNothing(b, VestsLaw);
    HoldsNothing(b, PendingLaw);
  }

  lemma AddPurse(b: Books, n: Name, p: Purse)
    requires n !in b.accounts
    ensures var c := b.(accounts := b.accounts[n := p]);
            Gaps(c) == Less(Gaps(b), OfPurse(p)) && (Sound(b) && PurseOk(p) ==> Sound(c))
  {
    hide Sound, Recorded, OfPurse;
    forall law { TotalSet(b.accounts, InPurse(law), n, p); }
    if Sound(b) && PurseOk(p) { SoundWith(b, n, p); }
  }

  lemma AddFund(b: Books, k: nat, f: Fund)
    requires k !in b.funds
    ensures var c := b.(funds := b.funds[k := f]);
            Gaps(c) == Less(Gaps(b), OfFund(f)) && (Sound(b) ==> Sound(c))
  {
    hide PurseOk, EscrowOk, WithdrawalOk, ConversionOk, OrderOk;
    forall law { TotalSet(b.funds, InFund(law), k, f); }
  }
}
