/**
 What payments make of balances. An account that is owed amounts of both tokens by several entries of a
 table ends up with their sums and the interest that was due, whatever the order of payment.
 */
module Settlement {
  import opened Common
  import opened OrderMath
  import opened Orders
  import opened Holdings
  import opened Bookkeeping

  type Accounts = map<Name, Purse>

  datatype Wallets = Wallets(accounts: Accounts, globals: Globals)

  function Paid(accounts: Accounts, n: Name, s: Symbol, x: int, now: int, rate: int): Accounts
    requires n in accounts
  {
    accounts[n := Adjusted(accounts[n], s, x, now, rate).0]
  }

  function Saved(accounts: Accounts, n: Name, s: Symbol, x: int, now: int, rate: int): Accounts
    requires n in accounts
  {
    accounts[n := AdjustedSavings(accounts[n], s, x, now, rate).0]
  }

  function PaidBoth(accounts: Accounts, n: Name, delta: int, dbd: int, now: int, rate: int): Accounts
    requires n in accounts
  {
    Paid(Paid(accounts, n, Delta, delta, now, rate), n, Dbd, dbd, now, rate)
  }

  /** `adjust_balance` on accounts and totals. */
  function Deposited(w: Wallets, n: Name, s: Symbol, x: int, now: int, rate: int): Wallets
    requires n in w.accounts
  {
    var (p, interest) := Adjusted(w.accounts[n], s, x, now, rate);
    Wallets(w.accounts[n := p], w.globals.(dbdSupply := w.globals.dbdSupply + interest))
  }

  /** A DELTA adjustment touches the DELTA balance alone. */
  lemma DeltaOnly(p: Purse, x: int, now: int, rate: int)
    ensures Adjusted(p, Delta, x, now, rate) == (p.(delta := p.delta + x), 0)
  {
  }

  // ----- several payments to one account -----

  /** Amounts of both tokens, and how many payments of DBD they come in. */
  datatype Due = Due(delta: int, dbd: int, payments: int)

  const NO_DUE: Due := Due(0, 0, 0)

  function DueOf(s: Symbol, x: int): Due
  {
    if s == Delta then Due(x, 0, 0) else Due(0, x, 1)
  }

  function Both(a: Due, b: Due): Due
  {
    Due(a.delta + b.delta, a.dbd + b.dbd, a.payments + b.payments)
  }

  /** DBD only comes in payments. */
  predicate DueOk(d: Due)
  {
    d.payments >= 0 && (d.payments == 0 ==> d.dbd == 0)
  }

  /** A purse after what is due has been paid to it, with the interest on DBD if it was paid any. */
  function Received(p: Purse, d: Due, now: int, rate: int): Purse
  {
    var pot := if d.payments == 0 then p.dbd else Accrued(p.dbd, now, rate).0;
    p.(delta := p.delta + d.delta, dbd := pot.(amount := pot.amount + d.dbd))
  }

  lemma PaidReceives(accounts: Accounts, n: Name, s: Symbol, x: int, now: int, rate: int)
    requires n in accounts
    ensures Paid(accounts, n, s, x, now, rate) == accounts[n := Received(accounts[n], DueOf(s, x), now, rate)]
    ensures DueOk(DueOf(s, x))
  {
    assert accounts[n].dbd == accounts[n].dbd.(amount := accounts[n].dbd.amount);
  }

  /** Interest that has been paid is not paid again in the same block. */
  lemma AccruedOnce(p: DbdPot, x: int, now: int, rate: int)
    ensures var q := Accrued(p, now, rate).0; Accrued(q.(amount := x), now, rate) == (q.(amount := x), 0)
  {
  }

  lemma ReceivedTwice(p: Purse, a: Due, b: Due, now: int, rate: int)
    requires DueOk(a) && DueOk(b)
    ensures Received(Received(p, a, now, rate), b, now, rate) == Received(p, Both(a, b), now, rate) && DueOk(Both(a, b))
  {
    var pot := Accrued(p.dbd, now, rate).0;
    AccruedOnce(p.dbd, pot.amount + a.dbd, now, rate);
    hide Accrued;
    assert p.dbd == p.dbd.(amount := p.dbd.amount);
  }

  // ----- what entries of a table owe -----

  function DeltaOwed<K, V>(owes: (Name, K, V) -> Due, n: Name): (K, V) -> int
  {
    (k: K, v: V) => owes(n, k, v).delta
  }

  function DbdOwed<K, V>(owes: (Name, K, V) -> Due, n: Name): (K, V) -> int
  {
    (k: K, v: V) => owes(n, k, v).dbd
  }

  function PaymentsOwed<K, V>(owes: (Name, K, V) -> Due, n: Name): (K, V) -> int
  {
    (k: K, v: V) => owes(n, k, v).payments
  }

  /** Everything that a table owes an account. */
  ghost function OwedTo<K(!new), V(!new)>(table: map<K, V>, owes: (Name, K, V) -> Due, n: Name): Due
  {
    Due(Owing(table, DeltaOwed(owes, n)), Owing(table, DbdOwed(owes, n)), Owing(table, PaymentsOwed(owes, n)))
  }

  lemma OwedWithout<K(!new), V(!new)>(table: map<K, V>, owes: (Name, K, V) -> Due, n: Name, k: K)
    requires k in table
    ensures OwedTo(table, owes, n) == Both(OwedTo(table - {k}, owes, n), owes(n, k, table[k]))
  {
    hide Owing;
    OwingDrop(table, DeltaOwed(owes, n), k);
    OwingDrop(table, DbdOwed(owes, n), k);
    OwingDrop(table, PaymentsOwed(owes, n), k);
  }

  lemma OwedNothing<K(!new), V(!new)>(table: map<K, V>, owes: (Name, K, V) -> Due, n: Name)
    requires forall k :: k in table ==> owes(n, k, table[k]) == NO_DUE
    ensures OwedTo(table, owes, n) == NO_DUE
  {
    hide Owing;
    OwingNothing(table, DeltaOwed(owes, n));
    OwingNothing(table, DbdOwed(owes, n));
    OwingNothing(table, PaymentsOwed(owes, n));
  }

  /** Every account has got `paid`, and what is left of the table owes the rest. */
  ghost predicate Settling<K(!new), V(!new)>(
    before: Accounts, accounts: Accounts, table: map<K, V>, left: map<K, V>,
    owes: (Name, K, V) -> Due, now: int, rate: int)
  {
    accounts.Keys == before.Keys
    && forall n :: n in before ==>
                     exists paid ::
                       SettlingFor(before[n], accounts[n], OwedTo(table, owes, n), OwedTo(left, owes, n),
                                   paid, now, rate)
  }

  ghost predicate SettlingFor(before: Purse, purse: Purse, all: Due, rest: Due, paid: Due, now: int, rate: int)
  {
    DueOk(paid) && all == Both(rest, paid) && purse == Received(before, paid, now, rate)
  }

  /** Every account has exactly what it had and what the table owed it, with the interest due. */
  ghost predicate Settled<K(!new), V(!new)>(
    before: Accounts, accounts: Accounts, table: map<K, V>, owes: (Name, K, V) -> Due, now: int, rate: int)
  {
    && accounts.Keys == before.Keys
    && forall n :: n in before ==> accounts[n] == Received(before[n], OwedTo(table, owes, n), now, rate)
  }

  lemma SettlingNone<K(!new), V(!new)>(accounts: Accounts, table: map<K, V>, owes: (Name, K, V) -> Due, now: int,
                                       rate: int)
    ensures Settling(accounts, accounts, table, table, owes, now, rate)
  {
    hide OwedTo;
    forall n | n in accounts
      ensures exists paid ::
                SettlingFor(accounts[n], accounts[n], OwedTo(table, owes, n), OwedTo(table, owes, n), paid, now, rate)
    {
      assert SettlingFor(accounts[n], accounts[n], OwedTo(table, owes, n), OwedTo(table, owes, n), NO_DUE, now, rate);
    }
  }

  lemma SettlingForNext(before: Purse, purse: Purse, all: Due, rest: Due, rest': Due, paid: Due, due: Due, now: int,
                        rate: int)
    requires SettlingFor(before, purse, all, rest, paid, now, rate) && rest == Both(rest', due) && DueOk(due)
    ensures SettlingFor(before, Received(purse, due, now, rate), all, rest', Both(paid, due), now, rate)
  {
    hide Received;
    ReceivedTwice(before, paid, due, now, rate);
  }

  lemma NothingReceived(p: Purse, now: int, rate: int)
    ensures Received(p, NO_DUE, now, rate) == p
  {
  }

  /** One entry leaves the table, and what it owed is paid to `who`. */
  lemma SettlingNext<K(!new), V(!new)>(
    before: Accounts, accounts: Accounts, table: map<K, V>, left: map<K, V>,
    owes: (Name, K, V) -> Due, now: int, rate: int, k: K, who: Name, due: Due)
    requires Settling(before, accounts, table, left, owes, now, rate) && k in left && who in accounts && DueOk(due)
    requires forall n :: owes(n, k, left[k]) == if n == who then due else NO_DUE
    ensures Settling(before, accounts[who := Received(accounts[who], due, now, rate)], table, left - {k}, owes, now,
                     rate)
  {
    hide OwedTo, Received, SettlingFor;
    var after := accounts[who := Received(accounts[who], due, now, rate)];
    forall n | n in before
      ensures exists paid ::
                SettlingFor(before[n], after[n], OwedTo(table, owes, n), OwedTo(left - {k}, owes, n), paid, now, rate)
    {
      var all, rest, rest' := OwedTo(table, owes, n), OwedTo(left, owes, n), OwedTo(left - {k}, owes, n);
      var paid :| SettlingFor(before[n], accounts[n], all, rest, paid, now, rate);
      OwedWithout(left, owes, n, k);
      var mine := owes(n, k, left[k]);
      SettlingForNext(before[n], accounts[n], all, rest, rest', paid, mine, now, rate);
      NothingReceived(accounts[n], now, rate);
      assert SettlingFor(before[n], after[n], all, rest', Both(paid, mine), now, rate);
    }
  }

  lemma SettlingDone<K(!new), V(!new)>(
    before: Accounts, accounts: Accounts, table: map<K, V>, left: map<K, V>,
    owes: (Name, K, V) -> Due, now: int, rate: int)
    requires Settling(before, accounts, table, left, owes, now, rate)
    requires forall n, k :: k in left ==> owes(n, k, left[k]) == NO_DUE
    ensures Settled(before, accounts, table, owes, now, rate)
  {
    hide OwedTo;
    forall n | n in before ensures accounts[n] == Received(before[n], OwedTo(table, owes, n), now, rate) {
      var paid :| SettlingFor(before[n], accounts[n], OwedTo(table, owes, n), OwedTo(left, owes, n), paid, now, rate);
      OwedNothing(left, owes, n);
    }
  }

  // ----- the tables -----

  /** A withdrawal from savings that is due owes its receiver the amount. */
  function WithdrawalOwes(now: nat): (Name, Key, Withdrawal) -> Due
  {
    (n: Name, k: Key, w: Withdrawal) => if w.due <= now && w.to == n then DueOf(w.symbol, w.amount) else NO_DUE
  }

  /** An escrow that was not approved in time. */
  predicate Lapsed(e: Escrow, now: nat)
  {
    !(e.toApproved && e.agentApproved) && e.ratifyBy <= now
  }

  /** Everything in an escrow: the two amounts and the fee. */
  function EscrowDue(e: Escrow): Due
  {
    Both(Both(DueOf(Delta, e.delta), DueOf(Dbd, e.dbd)), DueOf(e.feeSymbol, e.fee))
  }

  /** A lapsed escrow owes everything in it to its sender. */
  function EscrowOwes(now: nat): (Name, Key, Escrow) -> Due
  {
    (n: Name, k: Key, e: Escrow) => if Lapsed(e, now) && k.0 == n then EscrowDue(e) else NO_DUE
  }

  /** An expired order owes its seller what is left for sale. */
  function OrderOwes(now: nat): (Name, nat, Order) -> Due
  {
    (n: Name, id: nat, o: Order) => if o.expiration < now && o.seller == n then DueOf(o.sells, o.forSale) else NO_DUE
  }

  /** A conversion that is due owes its owner DELTA at the median price. */
  function ConversionOwes(now: nat, median: Price): (Name, Key, Conversion) -> Due
  {
    (n: Name, k: Key, c: Conversion) =>
      var issued := Exchanged(c.amount, median.quote, median.base);
      if c.due <= now && k.0 == n && issued.Ok? then DueOf(Delta, issued.value) else NO_DUE
  }

  /** The conversion of no due request aborts. */
  ghost predicate Convertible(conversions: map<Key, Conversion>, now: nat, median: Price)
  {
    forall k :: k in conversions && conversions[k].due <= now ==>
                  Exchanged(conversions[k].amount, median.quote, median.base).Ok?
  }

  lemma ConvertibleNext(left: map<Key, Conversion>, now: nat, median: Price, k: Key)
    requires k in left && left[k].due <= now
    ensures Convertible(left, now, median)
       <==> Exchanged(left[k].amount, median.quote, median.base).Ok? && Convertible(left - {k}, now, median)
  {
    hide Exchanged;
    forall x | x in left && x != k ensures x in left - {k} && left[x] == (left - {k})[x] { }
  }

  lemma NothingDue(left: map<Key, Conversion>, now: nat, median: Price)
    requires forall k :: k in left ==> left[k].due > now
    ensures Convertible(left, now, median)
  {
  }

  lemma ConversionDue(now: nat, median: Price, k: Key, c: Conversion, n: Name)
    ensures var issued := Exchanged(c.amount, median.quote, median.base);
            c.due <= now && issued.Ok? ==>
              ConversionOwes(now, median)(n, k, c) == if n == k.0 then DueOf(Delta, issued.value) else NO_DUE
    ensures c.due > now ==> ConversionOwes(now, median)(n, k, c) == NO_DUE
  {
  }

  /** A request is worth its DBD at the median's amount of DELTA for its amount of DBD, rounded down. */
  lemma ConversionExact(now: nat, median: Price, k: Key, c: Conversion, n: Name)
    ensures var due := ConversionOwes(now, median)(n, k, c);
            if c.due <= now && n == k.0 && Convertible(map[k := c], now, median)
            then due == Due(due.delta, 0, 0) && RoundedDown(due.delta, c.amount, median.quote, median.base)
            else due == NO_DUE
    ensures Convertible(map[k := c], now, median) <==>
              (c.due <= now ==> && median.base > 0 && median.quote >= 0 && c.amount >= 0
                                && c.amount * median.quote < TWO63 * median.base)
  {
    hide Exchanged;
    ExchangedExact(c.amount, median.quote, median.base);
    assert Convertible(map[k := c], now, median) <==>
           (c.due <= now ==> Exchanged(c.amount, median.quote, median.base).Ok?) by {
      assert k in map[k := c];
    }
  }

  // ----- which entries are left -----

  /** Only entries that may leave have left. */
  ghost predicate Leaves<K(!new), V>(table: map<K, V>, left: map<K, V>, mayLeave: V -> bool)
  {
    && (forall k :: k in left ==> k in table && left[k] == table[k])
    && forall k :: k in table && !mayLeave(table[k]) ==> k in left
  }

  lemma LeavesNone<K(!new), V>(table: map<K, V>, mayLeave: V -> bool)
    ensures Leaves(table, table, mayLeave)
  {
  }

  lemma LeavesNext<K(!new), V>(table: map<K, V>, left: map<K, V>, mayLeave: V -> bool, k: K)
    requires Leaves(table, left, mayLeave) && k in left && mayLeave(left[k])
    ensures Leaves(table, left - {k}, mayLeave)
  {
  }

  lemma LeavesAll<K(!new), V>(table: map<K, V>, left: map<K, V>, mayLeave: V -> bool)
    requires Leaves(table, left, mayLeave) && forall k :: k in left ==> !mayLeave(left[k])
    ensures left == map k | k in table && !mayLeave(table[k]) :: table[k]
  {
  }
}
