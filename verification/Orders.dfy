/**
 The book of limit orders: which orders can trade, in which turn an incoming order meets them, and
 what stays true of the book while orders are filled, placed and removed.
 */
module Orders {
  import opened Common
  import opened OrderMath

  datatype Order = Order(seller: Name, orderId: nat, sells: Symbol, forSale: int, price: Price, expiration: nat)

  type Book = map<nat, Order>

  function Other(s: Symbol): Symbol
  {
    if s == Delta then Dbd else Delta
  }

  predicate Opposed(a: Order, b: Order)
  {
    a.sells != b.sells && Cross(a.price, b.price)
  }

  /** An incoming order can trade with a resting one that its search finds. */
  predicate Meets(order: Order, resting: Order)
  {
    Opposed(order, resting) && Listed(resting.price)
  }

  /** Better price first, then the older order. */
  predicate Ahead(book: Book, x: nat, y: nat)
    requires x in book && y in book
  {
    Better(book[x].price, book[y].price) || (!Better(book[y].price, book[x].price) && x < y)
  }

  /** Every order still sells something for something. */
  ghost predicate Live(book: Book)
  {
    forall id :: id in book ==> Alive(book[id].forSale, book[id].price)
  }

  ghost predicate Unique(book: Book)
  {
    forall x, y ::
      x in book && y in book && book[x].seller == book[y].seller && book[x].orderId == book[y].orderId ==> x == y
  }

  /** No two listed orders, other than with `incoming`, could trade. */
  ghost predicate UncrossedBut(book: Book, incoming: nat)
  {
    forall x, y :: x in book && y in book && x != incoming && y != incoming && Listed(book[x].price) ==>
                     !Meets(book[x], book[y])
  }

  ghost predicate Uncrossed(book: Book)
  {
    forall x, y :: x in book && y in book && Listed(book[x].price) ==> !Meets(book[x], book[y])
  }

  /** What every operation on the market keeps. */
  ghost predicate Orderly(book: Book, nextId: nat)
  {
    && Live(book) && Unique(book) && Uncrossed(book)
    && forall id :: id in book ==> id < nextId
  }

  /** No two orders of the book, listed or not, could trade. */
  ghost predicate NoneOpposed(book: Book)
  {
    forall x, y :: x in book && y in book ==> !Opposed(book[x], book[y])
  }

  ghost predicate NoneOpposedBut(book: Book, incoming: nat)
  {
    forall x, y :: x in book && y in book && x != incoming && y != incoming ==> !Opposed(book[x], book[y])
  }

  /** The order could trade with resting ones only at prices that its search finds. */
  ghost predicate AllListed(book: Book, incoming: nat)
    requires incoming in book
  {
    forall x :: x in book && Opposed(book[incoming], book[x]) ==> Listed(book[x].price)
  }

  /** While no order sells more than the largest amount, no two orders of the book could trade at all. */
  lemma FullyUncrossed(book: Book, nextId: nat)
    requires Orderly(book, nextId) && forall id :: id in book ==> book[id].forSale <= MAX_SATOSHIS
    ensures NoneOpposed(book)
  {
    hide Opposed, Listed;
    forall x, y | x in book && y in book ensures !Opposed(book[x], book[y]) {
      BelowMaxPrice(book[x].forSale, book[x].price);
      BelowMaxPrice(book[y].forSale, book[y].price);
      assert !Meets(book[x], book[y]);
    }
  }

  /** The second book holds orders of the first, with the same terms and no more for sale. */
  ghost predicate Shrinks(before: Book, after: Book)
  {
    && after.Keys <= before.Keys
    && forall id :: id in after ==> after[id] == before[id].(forSale := after[id].forSale)
  }

  lemma AheadTransitive(book: Book, x: nat, y: nat, z: nat)
    requires x in book && y in book && z in book
    requires PriceOk(book[x].price) && PriceOk(book[y].price) && PriceOk(book[z].price)
    requires Ahead(book, x, y) && Ahead(book, y, z)
    ensures Ahead(book, x, z)
  {
    BetterTransitive(book[x].price, book[y].price, book[z].price);
  }

  /** The orders a new one may be matched with: those opposite to it and of a good enough price. */
  function Candidates(book: Book, order: Order): (r: set<nat>)
  {
    set id | id in book && book[id].sells != order.sells
             && AtLeast(MAX_PRICE, book[id].price) && AtLeast(book[id].price, Invert(order.price))
  }

  lemma CandidatesMeet(book: Book, order: Order)
    ensures forall id :: id in Candidates(book, order) <==> id in book && Meets(order, book[id])
  {
    forall id | id in book ensures id in Candidates(book, order) <==> Meets(order, book[id]) {
      SearchedRange(order.price, book[id].price);
    }
  }

  lemma ShrinksOk(before: Book, after: Book)
    requires Unique(before) && Shrinks(before, after)
    ensures Unique(after)
  {
  }

  lemma ShrinksTwice(a: Book, b: Book, c: Book)
    requires Shrinks(a, b) && Shrinks(b, c)
    ensures Shrinks(a, c)
  {
  }

  lemma NothingLeft(before: Book, book: Book, incoming: nat)
    requires incoming in before && UncrossedBut(before, incoming) && Shrinks(before, book)
    requires incoming in book ==> forall x :: x in book ==> !Meets(before[incoming], book[x])
    ensures Uncrossed(book)
  {
    forall x, y | x in book && y in book && Listed(book[x].price) ensures !Meets(book[x], book[y]) {
      assert Meets(book[x], book[y]) <==> Meets(before[x], before[y]);
      OpposedBoth(before[x], before[y]);
    }
  }

  /**
   An order that is used up, or that could only trade with orders its search finds, leaves no two orders that
   could trade; any other one does leave some.
   */
  lemma LeftOpposed(before: Book, book: Book, incoming: nat, fills: seq<nat>)
    requires incoming in before && NoneOpposedBut(before, incoming) && Shrinks(before, book)
    requires InTurn(before, before[incoming], fills)
    requires Progress(before, book, incoming, fills, incoming !in book)
    requires incoming in book ==> forall x :: x in book ==> !Meets(before[incoming], book[x])
    ensures NoneOpposed(book) <==> incoming !in book || AllListed(before, incoming)
  {
    hide Cross, Listed, Ahead;
    if incoming in book && AllListed(before, incoming) {
      forall x | x in book ensures !Opposed(book[incoming], book[x]) && !Opposed(book[x], book[incoming]) {
        OpposedBoth(book[incoming], book[x]);
        assert Opposed(book[incoming], book[x]) <==> Opposed(before[incoming], before[x]);
      }
    }
    if incoming in book && !AllListed(before, incoming) {
      var x :| x in before && Opposed(before[incoming], before[x]) && !Listed(before[x].price);
      assert x != incoming && x !in fills;
      assert Opposed(book[incoming], book[x]);
    }
  }

  lemma PlacedUnopposed(book: Book, id: nat, order: Order)
    requires NoneOpposed(book)
    ensures NoneOpposedBut(book[id := order], id)
  {
  }

  /** Orders that are removed do not make others trade. */
  lemma StillUnopposed(before: Book, book: Book)
    requires NoneOpposed(before) && Shrinks(before, book)
    ensures NoneOpposed(book)
  {
    forall x, y | x in book && y in book ensures !Opposed(book[x], book[y]) {
      assert Opposed(book[x], book[y]) <==> Opposed(before[x], before[y]);
    }
  }

  /** A book whose first order is above the highest price: an incoming one that could trade with it does not find it. */
  lemma UnlistedOrder(seller: Name) returns (book: Book)
    ensures 0 in book && 1 in book && Orderly(book, 2)
    ensures Opposed(book[1], book[0]) && Candidates(book, book[1]) == {} && NoneOpposedBut(book, 1)
  {
    var many := MAX_SATOSHIS + 1;
    book := map[0 := Order(seller, 0, Delta, many, Price(many, 1), 0),
                1 := Order(seller, 1, Dbd, 1, Price(1, many), 0)];
  }

  lemma OpposedBoth(a: Order, b: Order)
    ensures Opposed(a, b) <==> Opposed(b, a)
  {
    assert a.price.base * b.price.base == b.price.base * a.price.base;
    assert a.price.quote * b.price.quote == b.price.quote * a.price.quote;
  }

  /** Orders that were not matched are as before, and matched ones are gone, save the last. */
  ghost predicate Progress(before: Book, book: Book, incoming: nat, fills: seq<nat>, finished: bool)
  {
    && (forall i :: 0 <= i < |fills| && (i < |fills| - 1 || !finished) ==> fills[i] !in book)
    && (forall id :: id in before && id != incoming && id !in fills ==> id in book && book[id] == before[id])
  }

  lemma ProgressStep(before: Book, book: Book, book': Book, incoming: nat, fills: seq<nat>, best: nat)
    requires Progress(before, book, incoming, fills, false) && Shrinks(book, book') && best in book && best != incoming
    requires incoming in book' ==> best !in book'
    requires forall id :: id in book && id != incoming && id != best ==> id in book' && book'[id] == book[id]
    ensures Progress(before, book', incoming, fills + [best], incoming !in book')
    ensures best !in fills
  {
  }

  lemma Fewer(a: set<nat>, b: set<nat>, x: nat)
    requires b <= a && x in a && x !in b
    ensures |b| < |a|
  {
    var rest := a - {x} - b;
    assert a == b + rest + {x};
  }

  /** The orders that were matched, in turn, against the book as it was. */
  ghost predicate InTurn(before: Book, order: Order, fills: seq<nat>)
  {
    && (forall i :: 0 <= i < |fills| ==> fills[i] in before && Meets(order, before[fills[i]]))
    && (forall i, j :: 0 <= i < j < |fills| ==> Ahead(before, fills[i], fills[j]))
    && (forall i, x :: 0 <= i < |fills| && x in before && Meets(order, before[x]) && x !in fills ==>
                         Ahead(before, fills[i], x))
  }

  lemma InTurnNext(before: Book, book: Book, order: Order, fills: seq<nat>, best: nat)
    requires InTurn(before, order, fills) && Shrinks(before, book)
    requires best in book && Meets(order, book[best]) && best !in fills
    requires forall x :: x in before && Meets(order, before[x]) && x !in fills ==> x in book
    requires forall x :: x in book && Meets(order, book[x]) ==> x == best || Ahead(book, best, x)
    ensures InTurn(before, order, fills + [best])
  {
    var longer := fills + [best];
    forall i, x | 0 <= i < |longer| && x in before && Meets(order, before[x]) && x !in longer
      ensures Ahead(before, longer[i], x)
    {
      if i == |fills| { assert x in book; }
    }
  }

  function Named(book: Book, owner: Name, orderId: nat): (r: set<nat>)
    ensures forall id :: id in r <==> id in book && book[id].seller == owner && book[id].orderId == orderId
  {
    set id | id in book && book[id].seller == owner && book[id].orderId == orderId
  }

  lemma PlacedOk(book: Book, nextId: nat, order: Order)
    requires Orderly(book, nextId) && Alive(order.forSale, order.price)
    requires Named(book, order.seller, order.orderId) == {}
    ensures var placed := book[nextId := order];
            && nextId !in book && Live(placed) && Unique(placed) && UncrossedBut(placed, nextId)
            && forall id :: id in placed ==> id < nextId + 1
  {
    var placed := book[nextId := order];
    forall x | x in book ensures !(book[x].seller == order.seller && book[x].orderId == order.orderId) {
      assert x !in Named(book, order.seller, order.orderId);
    }
  }

  lemma Nothing(book: Book, order: Order, incoming: nat)
    ensures InTurn(book, order, []) && Progress(book, book, incoming, [], false) && Shrinks(book, book)
  {
  }

  lemma Without(book: Book, nextId: nat, id: nat)
    requires Orderly(book, nextId) && id in book
    ensures Orderly(book - {id}, nextId) && |book - {id}| < |book|
  {
    hide Meets, Alive;
    assert (book - {id}).Keys == book.Keys - {id};
    Fewer(book.Keys, book.Keys - {id}, id);
  }

  lemma Terms(before: Book, after: Book, id: nat)
    requires Shrinks(before, after)
    ensures after.Keys <= before.Keys
    ensures id in after ==> after[id].sells == before[id].sells && after[id].price == before[id].price
  {
  }

  lemma NextInTurn(before: Book, book: Book, incoming: nat, fills: seq<nat>, best: nat)
    requires incoming in before && InTurn(before, before[incoming], fills) && Shrinks(before, book)
    requires Progress(before, book, incoming, fills, false)
    requires best in book && Meets(before[incoming], book[best])
    requires forall x :: x in book && Meets(before[incoming], book[x]) ==> x == best || Ahead(book, best, x)
    ensures InTurn(before, before[incoming], fills + [best])
  {
    InTurnNext(before, book, before[incoming], fills, best);
  }
}
