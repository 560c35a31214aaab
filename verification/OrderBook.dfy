/**
 The internal market over the ledger: limit orders, matched against the book when they are placed.

 Whatever orders are placed, cancelled or expire, no two orders that a search can find are left to trade
 with each other, every order left still sells something for something, and the gaps between what is
 recorded and what is held do not change. Orders take from and pay into the same balances as everything
 else, so that a fill in DBD also pays the interest that has come due.
 */
module OrderBook {
  import opened Common
  import opened OrderMath
  import opened Orders
  import opened Holdings
  import opened Bookkeeping
  import opened Settlement
  import opened Ledger

  const MAX_EXPIRATION: nat := 60 * 60 * 24 * 28

  // ----- what matching does to balances and book -----

  datatype Tables = Tables(wallets: Wallets, book: Book)

  datatype Clock = Clock(now: int, rate: int)

  function PaidTo(t: Tables, n: Name, s: Symbol, x: int, c: Clock): Tables
  {
    if n in t.wallets.accounts then t.(wallets := Deposited(t.wallets, n, s, x, c.now, c.rate)) else t
  }

  /** What is left of an order, back with its seller. */
  function Refunded(t: Tables, id: nat, c: Clock): Tables
    requires id in t.book
  {
    var o := t.book[id];
    PaidTo(t, o.seller, o.sells, o.forSale, c).(book := t.book - {id})
  }

  /** An order that pays `pays` and receives `receives`. */
  function Filled(t: Tables, id: nat, pays: int, receives: int, c: Clock): Tables
    requires id in t.book && t.book[id].price.base > 0
  {
    var o := t.book[id];
    var paid := PaidTo(t, o.seller, Other(o.sells), receives, c);
    if pays == o.forSale then paid.(book := t.book - {id})
    else
      var rest := paid.(book := t.book[id := o.(forSale := o.forSale - pays)]);
      if Floor(o.forSale - pays, o.price.quote, o.price.base) == 0 then Refunded(rest, id, c) else rest
  }

  /** One match of the incoming order with a resting one, at the resting order's price. */
  function Traded(t: Tables, incoming: nat, resting: nat, c: Clock): Tables
  {
    if !Tradable(t.book, incoming, resting) then t
    else
      var trade := Match(t.book[incoming].forSale, t.book[resting].forSale, t.book[resting].price).value;
      var half := Filled(t, incoming, trade.newPays, trade.oldPays, c);
      Filled(half, resting, trade.oldPays, trade.newPays, c)
  }

  predicate Tradable(book: Book, incoming: nat, resting: nat)
  {
    && incoming in book && resting in book && incoming != resting
    && Alive(book[incoming].forSale, book[incoming].price) && Alive(book[resting].forSale, book[resting].price)
    && Match(book[incoming].forSale, book[resting].forSale, book[resting].price).Ok?
  }

  /** Matching the incoming order with each resting order in turn. */
  function FilledInTurn(t: Tables, incoming: nat, fills: seq<nat>, c: Clock): Tables
  {
    if fills == [] then t
    else Traded(FilledInTurn(t, incoming, fills[..|fills| - 1], c), incoming, fills[|fills| - 1], c)
  }

  lemma NoneInTurn(t: Tables, incoming: nat, c: Clock)
    ensures FilledInTurn(t, incoming, [], c) == t
  {
  }

  lemma FilledInTurnNext(t: Tables, incoming: nat, fills: seq<nat>, next: nat, c: Clock)
    ensures FilledInTurn(t, incoming, fills + [next], c)
         == Traded(FilledInTurn(t, incoming, fills, c), incoming, next, c)
  {
    assert (fills + [next])[..|fills|] == fills;
  }

  // ----- what a trade comes to -----

  /** A purse that has grown by these amounts; whoever gets DBD also gets the interest due, once. */
  predicate Gained(p: Purse, q: Purse, delta: int, dbd: int, c: Clock)
  {
    && q == p.(delta := p.delta + delta, dbd := q.dbd)
    && ((q.dbd == p.dbd && dbd == 0)
        || var pot := Accrued(p.dbd, c.now, c.rate).0; q.dbd == pot.(amount := pot.amount + dbd))
  }

  lemma GainedTwice(p: Purse, q: Purse, r: Purse, delta: int, dbd: int, delta': int, dbd': int, c: Clock)
    requires Gained(p, q, delta, dbd, c) && Gained(q, r, delta', dbd', c)
    ensures Gained(p, r, delta + delta', dbd + dbd', c)
  {
    assert Accrued(p.dbd, c.now, c.rate).0.updated == c.now;
  }

  /** What is left of the order is worth no unit of the other token. */
  predicate Spent(o: Order, pays: int)
  {
    (o.forSale - pays) * o.price.quote < o.price.base
  }

  /** What an account gets in a token when an order is filled: the price, and a refund if the order is then spent. */
  function Got(o: Order, n: Name, s: Symbol, pays: int, receives: int): int
  {
    if n != o.seller then 0
    else if s != o.sells then receives
    else if Spent(o, pays) then o.forSale - pays
    else 0
  }

  /**
   A trade at the resting order's price: what moves is fair, both sellers get what the other one pays, with a
   refund of what is left of a spent order; spent orders are gone, and nothing else changes.
   */
  ghost predicate TradedFairly(t: Tables, v: Tables, incoming: nat, resting: nat, trade: Trade, c: Clock)
    requires incoming in t.book && resting in t.book
  {
    var a, b := t.book[incoming], t.book[resting];
    && FairTrade(a.forSale, b.forSale, b.price, trade)
    && (forall id :: id in v.book <==> && id in t.book && (id == incoming ==> !Spent(a, trade.newPays))
                                       && (id == resting ==> !Spent(b, trade.oldPays)))
    && (forall id :: id in v.book ==>
          var paid := if id == incoming then trade.newPays else if id == resting then trade.oldPays else 0;
          v.book[id] == t.book[id].(forSale := t.book[id].forSale - paid))
    && v.wallets.globals == t.wallets.globals.(dbdSupply := v.wallets.globals.dbdSupply)
    && v.wallets.accounts.Keys == t.wallets.accounts.Keys
    && forall n :: n in t.wallets.accounts ==>
         Gained(t.wallets.accounts[n], v.wallets.accounts[n],
                Got(a, n, Delta, trade.newPays, trade.oldPays) + Got(b, n, Delta, trade.oldPays, trade.newPays),
                Got(a, n, Dbd, trade.newPays, trade.oldPays) + Got(b, n, Dbd, trade.oldPays, trade.newPays), c)
  }

  lemma PaidToGains(t: Tables, seller: Name, s: Symbol, x: int, c: Clock, n: Name)
    requires seller in t.wallets.accounts && n in t.wallets.accounts
    ensures var v := PaidTo(t, seller, s, x, c);
            && v.book == t.book && v.wallets.accounts.Keys == t.wallets.accounts.Keys
            && v.wallets.globals == t.wallets.globals.(dbdSupply := v.wallets.globals.dbdSupply)
            && Gained(t.wallets.accounts[n], v.wallets.accounts[n], if n == seller && s == Delta then x else 0,
                      if n == seller && s == Dbd then x else 0, c)
  {
    hide Accrued;
  }

  lemma SpentMeans(o: Order, pays: int)
    requires PriceOk(o.price) && pays <= o.forSale
    ensures Spent(o, pays) <==> pays == o.forSale || Floor(o.forSale - pays, o.price.quote, o.price.base) == 0
  {
    FloorGalois(o.forSale - pays, o.price.quote, o.price.base, 1);
    FloorSigned(o.forSale - pays, o.price.quote, o.price.base);
  }

  lemma FilledGains(t: Tables, id: nat, pays: int, receives: int, c: Clock, n: Name)
    requires id in t.book && PriceOk(t.book[id].price) && pays <= t.book[id].forSale
    requires t.book[id].seller in t.wallets.accounts && n in t.wallets.accounts
    ensures var o, v := t.book[id], Filled(t, id, pays, receives, c);
            && v.book == (if Spent(o, pays) then t.book - {id} else t.book[id := o.(forSale := o.forSale - pays)])
            && v.wallets.accounts.Keys == t.wallets.accounts.Keys
            && v.wallets.globals == t.wallets.globals.(dbdSupply := v.wallets.globals.dbdSupply)
            && Gained(t.wallets.accounts[n], v.wallets.accounts[n], Got(o, n, Delta, pays, receives),
                      Got(o, n, Dbd, pays, receives), c)
  {
    hide PaidTo, Gained, Floor, Spent;
    var o := t.book[id];
    SpentMeans(o, pays);
    PaidToGains(t, o.seller, Other(o.sells), receives, c, n);
    var paid := PaidTo(t, o.seller, Other(o.sells), receives, c);
    var rest := paid.(book := t.book[id := o.(forSale := o.forSale - pays)]);
    PaidToGains(rest, o.seller, o.sells, o.forSale - pays, c, n);
    if pays != o.forSale && Spent(o, pays) {
      var v := Filled(t, id, pays, receives, c);
      GainedTwice(t.wallets.accounts[n], paid.wallets.accounts[n], v.wallets.accounts[n],
                  if n == o.seller && Other(o.sells) == Delta then receives else 0,
                  if n == o.seller && Other(o.sells) == Dbd then receives else 0,
                  if n == o.seller && o.sells == Delta then o.forSale - pays else 0,
                  if n == o.seller && o.sells == Dbd then o.forSale - pays else 0, c);
      assert t.book[id := o.(forSale := o.forSale - pays)] - {id} == t.book - {id};
    }
  }

  /** Matching two live orders that cross is such a trade. */
  lemma TradedIsFair(t: Tables, incoming: nat, resting: nat, c: Clock)
    requires incoming in t.book && resting in t.book && Opposed(t.book[incoming], t.book[resting])
    requires Alive(t.book[incoming].forSale, t.book[incoming].price)
    requires Alive(t.book[resting].forSale, t.book[resting].price)
    requires t.book[incoming].seller in t.wallets.accounts && t.book[resting].seller in t.wallets.accounts
    ensures var a, b := t.book[incoming], t.book[resting];
            && Match(a.forSale, b.forSale, b.price).Ok?
            && var trade := Match(a.forSale, b.forSale, b.price).value;
               TradedFairly(t, Traded(t, incoming, resting, c), incoming, resting, trade, c)
  {
    hide Filled, Gained, Match, FairTrade, Spent, Got, Cross, Floor;
    var a, b := t.book[incoming], t.book[resting];
    MatchSettles(a.forSale, a.price, b.forSale, b.price);
    var trade := Match(a.forSale, b.forSale, b.price).value;
    var half := Filled(t, incoming, trade.newPays, trade.oldPays, c);
    var v := Traded(t, incoming, resting, c);
    FilledGains(t, incoming, trade.newPays, trade.oldPays, c, a.seller);
    FilledGains(half, resting, trade.oldPays, trade.newPays, c, a.seller);
    forall n | n in t.wallets.accounts
      ensures Gained(t.wallets.accounts[n], v.wallets.accounts[n],
                     Got(a, n, Delta, trade.newPays, trade.oldPays) + Got(b, n, Delta, trade.oldPays, trade.newPays),
                     Got(a, n, Dbd, trade.newPays, trade.oldPays) + Got(b, n, Dbd, trade.oldPays, trade.newPays), c)
    {
      FilledGains(t, incoming, trade.newPays, trade.oldPays, c, n);
      FilledGains(half, resting, trade.oldPays, trade.newPays, c, n);
      GainedTwice(t.wallets.accounts[n], half.wallets.accounts[n], v.wallets.accounts[n],
                  Got(a, n, Delta, trade.newPays, trade.oldPays), Got(a, n, Dbd, trade.newPays, trade.oldPays),
                  Got(b, n, Delta, trade.oldPays, trade.newPays), Got(b, n, Dbd, trade.oldPays, trade.newPays), c);
    }
  }

  /** Accounts and book once the amount for sale has left the seller's balance. */
  function Placed(t: Tables, id: nat, order: Order, c: Clock): Tables
  {
    PaidTo(t, order.seller, order.sells, -order.forSale, c).(book := t.book[id := order])
  }

  function OrderExpired(now: nat): Order -> bool
  {
    (o: Order) => o.expiration < now
  }

  class Exchange {
    const db: Db
    var nextId: nat

    ghost predicate Valid()
      reads this, db
    {
      db.Valid() && Orderly(db.orders, nextId)
    }

    function Now(): Clock
      reads db
    {
      Clock(db.now, db.interestRate)
    }

    function State(): Tables
      reads db
    {
      Tables(Wallets(db.accounts, db.globals), db.orders)
    }

    constructor (db: Db)
      requires db.Valid() && db.orders == map[]
      ensures Valid() && this.db == db && nextId == 0
    {
      this.db, nextId := db, 0;
    }

    /** A payment to an account that exists. */
    method Credit(name: Name, s: Symbol, amount: int)
      requires db.Valid() && name in db.accounts && amount >= 0
      modifies db`accounts, db`globals
      ensures db.Valid() && State() == PaidTo(old(State()), name, s, amount, Now())
      ensures db.accounts.Keys == old(db.accounts).Keys
      ensures Gaps(db.All()) == Less(old(Gaps(db.All())), One(s, amount))
    {
      hide Gaps, Sound, Adjusted;
      SoundPurse(db.All(), name);
      var ok := db.AdjustBalance(name, s, amount);
    }

    /** `cancel_order` */
    method CancelOrder(id: nat)
      requires db.Valid() && id in db.orders
      modifies db`accounts, db`globals, db`orders
      ensures db.Valid() && State() == Refunded(old(State()), id, Now())
      ensures db.accounts.Keys == old(db.accounts).Keys && |db.orders| < |old(db.orders)|
      ensures Gaps(db.All()) == old(Gaps(db.All()))
    {
      hide Gaps, Sound, PaidTo;
      var order := db.orders[id];
      SoundOrder(db.All(), id);
      Credit(order.seller, order.sells, order.forSale);
      KeepsBook(old(State()), order.seller, order.sells, order.forSale, Now());
      DropOrder(db.All(), id);
      db.orders := db.orders - {id};
    }

    /** `fill_order`: the order is paid, and removed when nothing worth selling is left of it. */
    method FillOrder(id: nat, pays: int, receives: int) returns (filled: bool)
      requires db.Valid() && id in db.orders && 1 <= pays <= db.orders[id].forSale && receives >= 0
      modifies db`accounts, db`globals, db`orders
      ensures db.Valid() && db.accounts.Keys == old(db.accounts).Keys
      ensures old(db.orders)[id].price.base > 0 && State() == Filled(old(State()), id, pays, receives, Now())
      ensures filled == FillsUp(old(db.orders)[id], pays)
      ensures db.orders == AfterFill(old(db.orders), id, pays)
      ensures Gaps(db.All()) == More(Less(old(Gaps(db.All())), One(Other(old(db.orders)[id].sells), receives)),
                                     One(old(db.orders)[id].sells, pays))
    {
      hide Gaps, Sound, PaidTo, Floor;
      var order := db.orders[id];
      SoundOrder(db.All(), id);
      Credit(order.seller, Other(order.sells), receives);
      KeepsBook(old(State()), order.seller, Other(order.sells), receives, Now());
      if pays == order.forSale {
        DropOrder(db.All(), id);
        db.orders := db.orders - {id};
        return true;
      }
      filled := Reduce(id, pays);
    }

    /** What is left of an order, or a refund of it. */
    method Reduce(id: nat, pays: int) returns (removed: bool)
      requires db.Valid() && id in db.orders && 1 <= pays < db.orders[id].forSale
      modifies db`accounts, db`globals, db`orders
      ensures db.Valid() && db.accounts.Keys == old(db.accounts).Keys
      ensures var o := old(db.orders)[id];
              && o.price.base > 0
              && var rest := old(State()).(book := old(db.orders)[id := o.(forSale := o.forSale - pays)]);
                 && removed == (Floor(o.forSale - pays, o.price.quote, o.price.base) == 0)
                 && State() == (if removed then Refunded(rest, id, Now()) else rest)
      ensures Gaps(db.All()) == More(old(Gaps(db.All())), One(old(db.orders)[id].sells, pays))
    {
      hide Gaps, Sound, PaidTo, Floor;
      var order := db.orders[id];
      SoundOrder(db.All(), id);
      var left := order.(forSale := order.forSale - pays);
      FloorMonotone(left.forSale, order.forSale, order.price.quote, order.price.base);
      FloorSigned(left.forSale, order.price.quote, order.price.base);
      var worth := ToQuote(left.forSale, order.price);
      if worth.value == 0 {
        ReduceAndDrop(id, left.forSale);
        return true;
      }
      SetOrder(db.All(), id, left);
      db.orders := db.orders[id := left];
      return false;
    }

    /** The remainder, which buys nothing, goes back to the seller at once. */
    method ReduceAndDrop(id: nat, left: int)
      requires db.Valid() && id in db.orders && 0 <= left
      modifies db`accounts, db`globals, db`orders
      ensures db.Valid() && db.accounts.Keys == old(db.accounts).Keys
      ensures var o := old(db.orders)[id];
              State() == Refunded(old(State()).(book := old(db.orders)[id := o.(forSale := left)]), id, Now())
      ensures var o := old(db.orders)[id]; Gaps(db.All()) == More(old(Gaps(db.All())), One(o.sells, o.forSale - left))
    {
      hide Gaps, Sound, PaidTo;
      var order := db.orders[id];
      SoundOrder(db.All(), id);
      DropOrder(db.All(), id);
      db.orders := db.orders - {id};
      ghost var t := State();
      Credit(order.seller, order.sells, left);
      PaidApart(t, old(db.orders)[id := order.(forSale := left)], order.seller, order.sells, left, Now());
      assert old(db.orders)[id := order.(forSale := left)] - {id} == old(db.orders) - {id};
    }

    /** `match`: both orders are filled, at the resting order's price. */
    method MatchOrders(incoming: nat, resting: nat) returns (t: Trade, newFilled: bool, oldFilled: bool)
      requires db.Valid() && incoming in db.orders && resting in db.orders
      requires Opposed(db.orders[incoming], db.orders[resting])
      modifies db`accounts, db`globals, db`orders
      ensures db.Valid() && Gaps(db.All()) == old(Gaps(db.All())) && db.accounts.Keys == old(db.accounts).Keys
      ensures Shrinks(old(db.orders), db.orders)
      ensures newFilled || oldFilled
      ensures newFilled <==> incoming !in db.orders
      ensures oldFilled <==> resting !in db.orders
      ensures forall id :: id in old(db.orders) && id != incoming && id != resting ==>
                             id in db.orders && db.orders[id] == old(db.orders)[id]
      ensures State() == Traded(old(State()), incoming, resting, Now())
      ensures var a, b := old(db.orders)[incoming], old(db.orders)[resting];
              && 1 <= t.newPays <= a.forSale && 1 <= t.oldPays <= b.forSale && a.price.base > 0 && b.price.base > 0
              && t.oldPays >= Floor(t.newPays, a.price.quote, a.price.base)
              && t.newPays >= Floor(t.oldPays, b.price.quote, b.price.base)
      ensures FairTrade(old(db.orders)[incoming].forSale, old(db.orders)[resting].forSale,
                        old(db.orders)[resting].price, t)
      ensures TradedFairly(old(State()), State(), incoming, resting, t, Now())
    {
      hide Gaps, Sound, Floor, Match, Cross, Filled, FillsUp, FairTrade, TradedFairly;
      var a, b := db.orders[incoming], db.orders[resting];
      SoundOrder(db.All(), incoming);
      SoundOrder(db.All(), resting);
      MatchSettles(a.forSale, a.price, b.forSale, b.price);
      t := Match(a.forSale, b.forSale, b.price).value;
      TradedIsFair(State(), incoming, resting, Now());
      newFilled := FillOrder(incoming, t.newPays, t.oldPays);
      oldFilled := FillOrder(resting, t.oldPays, t.newPays);
      FillsUpWhole(a);
      FillsUpWhole(b);
    }

    /** The first order in the searched range of the price index. */
    method FindBest(order: Order) returns (best: Option<nat>)
      requires Live(db.orders)
      ensures best.None? ==> forall x :: x in db.orders ==> !Meets(order, db.orders[x])
      ensures best.Some? ==> best.value in db.orders && Meets(order, db.orders[best.value])
      ensures best.Some? ==> forall x :: x in db.orders && Meets(order, db.orders[x]) ==>
                                           x == best.value || Ahead(db.orders, best.value, x)
    {
      hide Meets;
      var book := db.orders;
      CandidatesMeet(book, order);
      var todo := Candidates(book, order);
      best := None;
      ghost var all := todo;
      while todo != {}
        invariant todo <= all
        invariant best.None? ==> todo == all
        invariant best.Some? ==> best.value in all
        invariant best.Some? ==> forall x :: x in all - todo ==> x == best.value || Ahead(book, best.value, x)
        decreases todo
      {
        var id :| id in todo;
        if best.None? || Ahead(book, id, best.value) {
          forall x | x in all - todo && best.Some? && x != best.value ensures Ahead(book, id, x) {
            AheadTransitive(book, id, best.value, x);
          }
          best := Some(id);
        }
        todo := todo - {id};
      }
    }

    /** `apply_order` */
    method ApplyOrder(incoming: nat) returns (fills: seq<nat>)
      requires db.Valid() && incoming in db.orders && UncrossedBut(db.orders, incoming)
      modifies db`accounts, db`globals, db`orders
      ensures db.Valid() && Gaps(db.All()) == old(Gaps(db.All()))
      ensures Uncrossed(db.orders) && Shrinks(old(db.orders), db.orders)
      ensures InTurn(old(db.orders), old(db.orders)[incoming], fills)
      ensures Progress(old(db.orders), db.orders, incoming, fills, incoming !in db.orders)
      ensures NoneOpposedBut(old(db.orders), incoming) ==>
                (NoneOpposed(db.orders) <==> incoming !in db.orders || AllListed(old(db.orders), incoming))
      ensures State() == FilledInTurn(old(State()), incoming, fills, Now())
    {
      hide Gaps, Sound, Meets, Ahead, InTurn, Progress, Shrinks, FilledInTurn, Traded, UncrossedBut, Uncrossed, Live,
           Floor, NoneOpposed, NoneOpposedBut, AllListed;
      fills := [];
      var order := db.orders[incoming];
      var finished := false;
      ghost var start, book := State(), db.orders;
      Nothing(book, order, incoming);
      NoneInTurn(start, incoming, Now());
      while !finished
        invariant db.Valid() && Gaps(db.All()) == old(Gaps(db.All()))
        invariant Shrinks(book, db.orders) && db.orders.Keys <= book.Keys
        invariant finished <==> incoming !in db.orders
        invariant incoming in db.orders ==>
                    db.orders[incoming].sells == order.sells && db.orders[incoming].price == order.price
        invariant InTurn(book, order, fills) && Progress(book, db.orders, incoming, fills, finished)
        invariant State() == FilledInTurn(start, incoming, fills, Now())
        decreases |db.orders|
      {
        SoundLive(db.All());
        var best := FindBest(order);
        if best.None? { break; }
        ghost var before := db.orders;
        NextInTurn(book, db.orders, incoming, fills, best.value);
        FilledInTurnNext(start, incoming, fills, best.value, Now());
        MeetsOpposed(order, db.orders[incoming], db.orders[best.value]);
        var _, newFilled, oldFilled := MatchOrders(incoming, best.value);
        Terms(before, db.orders, incoming);
        ProgressStep(book, before, db.orders, incoming, fills, best.value);
        ShrinksTwice(book, before, db.orders);
        Fewer(before.Keys, db.orders.Keys, if newFilled then incoming else best.value);
        fills := fills + [best.value];
        finished := newFilled;
      }
      NothingLeft(book, db.orders, incoming);
      if NoneOpposedBut(book, incoming) { LeftOpposed(book, db.orders, incoming, fills); }
    }

    /** What is asked of an order before the book is touched. */
    predicate Acceptable(order: Order)
      reads db
    {
      && PriceOk(order.price)
      && order.forSale >= 0 && ToQuote(order.forSale, order.price).Ok? && ToQuote(order.forSale, order.price).value > 0
      && db.now < order.expiration <= db.now + MAX_EXPIRATION
      && order.seller in db.accounts && Liquid(db.accounts[order.seller], order.sells) >= order.forSale
      && Named(db.orders, order.seller, order.orderId) == {}
    }

    /**
     `limit_order_create2`; `limit_order_create` is the case in which the price is the amount
     to sell over the least amount to receive. A negative amount never gets past the
     conversion, whose unsigned product does not fit 64 bits then.
     */
    method CreateOrder(order: Order, fillOrKill: bool) returns (ok: bool, fills: seq<nat>)
      requires Valid() && -TWO63 <= order.forSale < TWO63
      modifies this, db`accounts, db`globals, db`orders
      ensures Valid() && Gaps(db.All()) == old(Gaps(db.All()))
      ensures ok ==> old(Acceptable(order))
      ensures !ok ==> db.All() == old(db.All()) && nextId == old(nextId)
      ensures old(Acceptable(order)) ==>
                var id, placed := old(nextId), Placed(old(State()), old(nextId), order, Now());
                var tried := FilledInTurn(placed, id, fills, Now());
                && InTurn(placed.book, order, fills) && Uncrossed(tried.book)
                && Progress(placed.book, tried.book, id, fills, id !in tried.book)
                && (ok <==> !fillOrKill || id !in tried.book)
                && (ok ==> State() == tried)
                && (NoneOpposed(old(db.orders)) ==>
                      (NoneOpposed(tried.book) <==> id !in tried.book || AllListed(placed.book, id)))
    {
      hide InTurn, Progress, FilledInTurn, Uncrossed, UncrossedBut, Shrinks, Gaps, Sound, Live, Unique, Floor, PaidTo,
           NoneOpposed, NoneOpposedBut, AllListed;
      ok, fills := false, [];
      if !Acceptable(order) { return; }
      var accounts, orders, globals, id := db.accounts, db.orders, db.globals, nextId;
      if NoneOpposed(db.orders) { PlacedUnopposed(db.orders, id, order); }
      Place(order);
      ghost var placed := db.orders;
      fills := ApplyOrder(id);
      OrderlyAfter(placed, db.orders, db.All(), nextId);
      ok := !fillOrKill || id !in db.orders;
      if !ok {
        db.accounts, db.orders, db.globals, nextId := accounts, orders, globals, id;
      }
    }

    /** The amount moves from the owner's balance into a new order. */
    method Place(order: Order)
      requires Valid() && Acceptable(order) && order.forSale < TWO63
      modifies this, db`accounts, db`globals, db`orders
      ensures db.Valid() && Gaps(db.All()) == old(Gaps(db.All())) && nextId == old(nextId) + 1
      ensures State() == Placed(old(State()), old(nextId), order, Now())
      ensures db.orders == old(db.orders)[old(nextId) := order]
      ensures UncrossedBut(db.orders, old(nextId)) && Unique(db.orders) && forall id :: id in db.orders ==> id < nextId
    {
      hide Gaps, Sound, Cross, Floor, Adjusted;
      FloorSigned(order.forSale, order.price.quote, order.price.base);
      FloorOfNothing(order.forSale, order.price.quote, order.price.base);
      PlacedOk(db.orders, nextId, order);
      var ok := db.AdjustBalance(order.seller, order.sells, -order.forSale);
      SetOrder(db.All(), nextId, order);
      db.orders := db.orders[nextId := order];
      nextId := nextId + 1;
    }

    /** A cancelled order leaves the rest of the book as it was. */
    method Withdraw(id: nat)
      requires Valid() && id in db.orders
      modifies db`accounts, db`globals, db`orders
      ensures Valid() && Gaps(db.All()) == old(Gaps(db.All()))
      ensures db.orders == old(db.orders) - {id} && |db.orders| < |old(db.orders)|
      ensures State() == Refunded(old(State()), id, Now())
      ensures var o := old(db.orders)[id];
              && o.seller in old(db.accounts)
              && db.accounts == Paid(old(db.accounts), o.seller, o.sells, o.forSale, db.now, db.interestRate)
              && db.globals == old(db.globals).(dbdSupply := db.globals.dbdSupply)
    {
      hide Gaps, Sound, Orderly, Adjusted;
      SoundOrder(db.All(), id);
      CancelOrder(id);
      Without(old(db.orders), nextId, id);
    }

    /** `limit_order_cancel` */
    method Cancel(owner: Name, orderId: nat) returns (ok: bool)
      requires Valid()
      modifies db`accounts, db`globals, db`orders
      ensures Valid() && Gaps(db.All()) == old(Gaps(db.All()))
      ensures ok <==> Named(old(db.orders), owner, orderId) != {}
      ensures ok ==> exists id :: && Named(old(db.orders), owner, orderId) == {id}
                                  && State() == Refunded(old(State()), id, Now())
      ensures !ok ==> db.All() == old(db.All())
    {
      hide Gaps, Sound, Refunded, Live, Uncrossed, PaidTo;
      var mine := Named(db.orders, owner, orderId);
      if mine == {} { return false; }
      var id :| id in mine;
      assert mine == {id};
      Withdraw(id);
      return true;
    }

    /** `clear_expired_orders` */
    method ClearExpired()
      requires Valid()
      modifies db`accounts, db`globals, db`orders
      ensures Valid() && Gaps(db.All()) == old(Gaps(db.All()))
      ensures var was := old(db.orders); db.orders == map id | id in was && was[id].expiration >= db.now :: was[id]
      ensures Settled(old(db.accounts), db.accounts, old(db.orders), OrderOwes(db.now), db.now, db.interestRate)
      ensures db.globals == old(db.globals).(dbdSupply := db.globals.dbdSupply)
    {
      hide Gaps, Sound, Orderly, Settling, Settled, Received, Leaves, Refunded, Paid, PaidTo;
      ghost var owes, expired, rate := OrderOwes(db.now), OrderExpired(db.now), db.interestRate;
      SettlingNone(db.accounts, db.orders, owes, db.now, rate);
      LeavesNone(db.orders, expired);
      while exists id :: id in db.orders && db.orders[id].expiration < db.now
        invariant Valid() && Gaps(db.All()) == old(Gaps(db.All()))
        invariant Leaves(old(db.orders), db.orders, expired)
        invariant Settling(old(db.accounts), db.accounts, old(db.orders), db.orders, owes, db.now, rate)
        invariant db.globals == old(db.globals).(dbdSupply := db.globals.dbdSupply)
        decreases |db.orders|
      {
        var id :| id in db.orders && db.orders[id].expiration < db.now;
        ghost var a, t, o := db.accounts, db.orders, db.orders[id];
        Withdraw(id);
        LeavesNext(old(db.orders), t, expired, id);
        PaidReceives(a, o.seller, o.sells, o.forSale, db.now, rate);
        SettlingNext(old(db.accounts), a, old(db.orders), t, owes, db.now, rate, id, o.seller,
                     DueOf(o.sells, o.forSale));
      }
      LeavesAll(old(db.orders), db.orders, expired);
      SettlingDone(old(db.accounts), db.accounts, old(db.orders), db.orders, owes, db.now, rate);
    }
  }

  // ----- the book through the operations -----

  predicate FillsUp(o: Order, pays: int)
    requires o.price.base > 0
  {
    pays == o.forSale || Floor(o.forSale - pays, o.price.quote, o.price.base) == 0
  }

  lemma FillsUpWhole(o: Order)
    requires o.price.base > 0
    ensures FillsUp(o, o.forSale)
  {
  }

  function AfterFill(book: Book, id: nat, pays: int): Book
    requires id in book && book[id].price.base > 0
  {
    if FillsUp(book[id], pays) then book - {id} else book[id := book[id].(forSale := book[id].forSale - pays)]
  }

  lemma KeepsBook(t: Tables, n: Name, s: Symbol, x: int, c: Clock)
    ensures PaidTo(t, n, s, x, c).book == t.book
  {
  }

  lemma PaidApart(t: Tables, book: Book, n: Name, s: Symbol, x: int, c: Clock)
    ensures PaidTo(t, n, s, x, c).wallets == PaidTo(t.(book := book), n, s, x, c).wallets
    ensures PaidTo(t, n, s, x, c).book == t.book
  {
  }

  lemma MeetsOpposed(order: Order, incoming: Order, resting: Order)
    requires Meets(order, resting) && incoming.sells == order.sells && incoming.price == order.price
    ensures Opposed(incoming, resting)
  {
  }

  lemma OrderlyAfter(placed: Book, book: Book, b: Books, nextId: nat)
    requires Unique(placed) && (forall id :: id in placed ==> id < nextId) && Shrinks(placed, book) && Uncrossed(book)
    requires Sound(b) && b.orders == book
    ensures Orderly(book, nextId)
  {
    hide Uncrossed;
    SoundLive(b);
    ShrinksOk(placed, book);
  }
}
