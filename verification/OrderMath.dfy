/**
 Prices and the arithmetic of one match between limit orders.

 A price is a ratio of two positive 64-bit amounts: `base` of what the order sells for
 `quote` of what it wants. Every conversion rounds down.
 */
module OrderMath {
  import opened Common

  /** Amounts are signed 64-bit integers. */
  const TWO63: int := 0x8000_0000_0000_0000
  const TWO64: int := 0x1_0000_0000_0000_0000
  const MAX_SATOSHIS: int := 4611686018427387903

  datatype Price = Price(base: int, quote: int)

  predicate PriceOk(p: Price)
  {
    0 < p.base < TWO63 && 0 < p.quote < TWO63
  }

  /** The 64-bit signed value of an unsigned 64-bit result. */
  function Signed(x: int): int
    requires 0 <= x < TWO64
  {
    if x < TWO63 then x else x - TWO64
  }

  function Floor(amount: int, times: int, over: int): int
    requires over > 0
  {
    amount * times / over
  }

  /** `asset * price` for a non-negative amount of the price's base. */
  function ToQuote(amount: int, p: Price): Outcome<int>
    requires amount >= 0 && PriceOk(p)
  {
    var x := Floor(amount, p.quote, p.base);
    if x >= TWO64 then Aborted else FloorSigned(amount, p.quote, p.base); Ok(Signed(x))
  }

  /** `asset * price` for a non-negative amount of the price's quote. */
  function ToBase(amount: int, p: Price): Outcome<int>
    requires amount >= 0 && PriceOk(p)
  {
    var x := Floor(amount, p.base, p.quote);
    if x >= TWO64 then Aborted else FloorSigned(amount, p.base, p.quote); Ok(Signed(x))
  }

  lemma FloorSigned(amount: int, times: int, over: int)
    requires amount >= 0 && times >= 0 && over > 0
    ensures Floor(amount, times, over) >= 0
  {
    assert amount * times >= 0;
  }

  lemma FloorOfNothing(amount: int, times: int, over: int)
    requires amount >= 0 && over > 0
    ensures Floor(amount, times, over) >= 1 ==> amount >= 1
  {
  }

  /** `x <= Floor(a, t, o)` says that `x` times `o` fits into `a * t`. */
  lemma FloorGalois(a: int, t: int, o: int, x: int)
    requires o > 0
    ensures x <= Floor(a, t, o) <==> x * o <= a * t
  {
    var q, r := a * t / o, a * t % o;
    assert a * t == q * o + r && 0 <= r < o;
    if x <= q { assert x * o <= q * o; }
    if x > q { assert x * o >= (q + 1) * o; assert (q + 1) * o == q * o + o; }
  }

  /** `x` is `amount * times / over` rounded down, said without dividing. */
  predicate RoundedDown(x: int, amount: int, times: int, over: int)
  {
    x * over <= amount * times < (x + 1) * over
  }

  lemma FloorRounds(amount: int, times: int, over: int)
    requires over > 0
    ensures RoundedDown(Floor(amount, times, over), amount, times, over)
  {
    var x := Floor(amount, times, over);
    FloorGalois(amount, times, over, x);
    FloorGalois(amount, times, over, x + 1);
  }

  /** Nothing else is. */
  lemma RoundedOnce(x: int, y: int, amount: int, times: int, over: int)
    requires over > 0 && RoundedDown(x, amount, times, over) && RoundedDown(y, amount, times, over)
    ensures x == y
  {
    if x < y { Scale(x + 1, y, over); }
    if y < x { Scale(y + 1, x, over); }
  }

  lemma Scale(x: int, y: int, k: int)
    requires k >= 0
    ensures x <= y ==> x * k <= y * k
  {
  }

  lemma Cancel(x: int, y: int, k: int)
    requires k > 0 && x * k <= y * k
    ensures x <= y
  {
    Scale(y + 1, x, k);
    assert (y + 1) * k == y * k + k;
  }

  lemma Distribute(a: int, b: int, k: int)
    ensures (a + b) * k == a * k + b * k
    ensures k * (a + b) == k * a + k * b
  {
  }

  lemma ScaleRight(k: int, x: int, y: int)
    requires k >= 0 && x <= y
    ensures k * x <= k * y
  {
  }

  /** The two sides offer each other at least what they ask for. */
  predicate Cross(a: Price, b: Price)
  {
    a.base * b.base >= a.quote * b.quote
  }

  /** Two orders cross exactly when some trade would give each at least its price. */
  lemma CrossMeans(a: Price, b: Price)
    requires PriceOk(a) && PriceOk(b)
    ensures Cross(a, b) <==>
            exists x, y :: x > 0 && y > 0 && y * a.base >= x * a.quote && x * b.base >= y * b.quote
  {
    if Cross(a, b) {
      assert a.quote * a.base >= a.base * a.quote && a.base * b.base >= a.quote * b.quote;
    }
    forall x, y | x > 0 && y > 0 && y * a.base >= x * a.quote && x * b.base >= y * b.quote ensures Cross(a, b) {
      BothPaid(x, y, a, b);
    }
  }

  lemma BothPaid(x: int, y: int, a: Price, b: Price)
    requires x > 0 && y > 0 && PriceOk(a) && PriceOk(b) && y * a.base >= x * a.quote && x * b.base >= y * b.quote
    ensures Cross(a, b)
  {
    Scale(y * b.quote, x * b.base, a.base);
    Scale(x * a.quote, y * a.base, b.quote);
    Swap(y, b.quote, a.base);
    Swap(x, b.base, a.base);
    Swap(x, a.quote, b.quote);
    Cancel(a.quote * b.quote, a.base * b.base, x);
  }

  /** The comparison that orders the book: better for the other side, first. */
  predicate Better(a: Price, b: Price)
  {
    b.quote * a.base > a.quote * b.base
  }

  predicate AtLeast(a: Price, b: Price)
  {
    b.quote * a.base >= a.quote * b.base
  }

  function Invert(p: Price): Price
  {
    Price(p.quote, p.base)
  }

  const MAX_PRICE: Price := Price(MAX_SATOSHIS, 1)

  /** The search of the book starts at the highest price, and does not find what is above it. */
  predicate Listed(p: Price)
  {
    AtLeast(MAX_PRICE, p)
  }

  /** An order of no more than the largest amount, whose remainder still buys something, is found. */
  lemma BelowMaxPrice(forSale: int, p: Price)
    requires 0 <= forSale <= MAX_SATOSHIS && PriceOk(p) && Floor(forSale, p.quote, p.base) >= 1
    ensures Listed(p)
  {
    FloorGalois(forSale, p.quote, p.base, 1);
    Scale(forSale, MAX_SATOSHIS, p.quote);
    hide Floor;
    assert p.quote * MAX_PRICE.base == MAX_SATOSHIS * p.quote;
  }

  /** The amounts one match moves. */
  datatype Trade = Trade(newPays: int, oldPays: int)

  /** `match`, at the price of the resting order. */
  function Match(newForSale: int, oldForSale: int, p: Price): (r: Outcome<Trade>)
    requires newForSale >= 0 && oldForSale >= 0 && PriceOk(p)
  {
    if newForSale == 0 || oldForSale == 0 then Aborted
    else
      match ToQuote(oldForSale, p)
      case Aborted => Aborted
      case Ok(worth) =>
        if newForSale <= worth then
          match ToBase(newForSale, p)
          case Aborted => Aborted
          case Ok(bought) => UsedUp(newForSale, oldForSale, Trade(newForSale, bought))
        else UsedUp(newForSale, oldForSale, Trade(worth, oldForSale))
  }

  /** The assertion that one of the two orders is used up. */
  function UsedUp(newForSale: int, oldForSale: int, t: Trade): Outcome<Trade>
  {
    if t.newPays == newForSale || t.oldPays == oldForSale then Ok(t) else Aborted
  }

  /** Both orders still sell something for something. */
  predicate Alive(forSale: int, p: Price)
  {
    && 1 <= forSale < TWO63 && PriceOk(p)
    && 1 <= Floor(forSale, p.quote, p.base) < TWO63
  }

  /** Selling less asks for no more. */
  lemma FloorMonotone(a: int, b: int, t: int, o: int)
    requires 0 <= a <= b && t >= 0 && o > 0
    ensures Floor(a, t, o) <= Floor(b, t, o)
  {
    FloorGalois(a, t, o, Floor(a, t, o));
    FloorGalois(b, t, o, Floor(a, t, o));
    assert a * t <= b * t;
  }

  /** Buying as much as the resting order asks for takes no more than it sells. */
  lemma BuysWithin(n: int, o: int, p: Price)
    requires 0 <= n && 0 <= o && PriceOk(p) && n <= Floor(o, p.quote, p.base)
    ensures Floor(n, p.base, p.quote) <= o
  {
    FloorGalois(o, p.quote, p.base, n);
    FloorGalois(n, p.base, p.quote, Floor(n, p.base, p.quote));
    Cancel(Floor(n, p.base, p.quote), o, p.quote);
  }

  /** A crossing order is worth at least what it asks for at its own price. */
  lemma WorthAtCross(n: int, own: Price, resting: Price)
    requires 0 <= n && PriceOk(own) && PriceOk(resting) && Cross(own, resting)
    ensures Floor(n, own.quote, own.base) <= Floor(n, resting.base, resting.quote)
  {
    var x := Floor(n, own.quote, own.base);
    FloorGalois(n, own.quote, own.base, x);
    FloorGalois(n, resting.base, resting.quote, x);
    CrossWorth(x, n, own.base, own.quote, resting.base, resting.quote);
  }

  /** `x / n <= q / b` and `q / b <= c / d` give `x / n <= c / d`. */
  lemma CrossWorth(x: int, n: int, b: int, q: int, c: int, d: int)
    requires n >= 0 && b > 0 && d > 0 && x * b <= n * q && q * d <= b * c
    ensures x * d <= n * c
  {
    Scale(x * b, n * q, d);
    Scale(q * d, b * c, n);
    Swap(x, b, d);
    Swap(n, q, d);
    Swap(n, b, c);
    assert (q * d) * n == n * (q * d) && (b * c) * n == n * (b * c);
    Cancel(x * d, n * c, b);
  }

  lemma Swap(x: int, y: int, z: int)
    ensures (x * y) * z == (x * z) * y == x * (y * z)
  {
  }

  /** What the resting order pays is worth no more than what it gets. */
  lemma RestingLimit(n: int, p: Price)
    requires 0 <= n && PriceOk(p)
    ensures Floor(Floor(n, p.base, p.quote), p.quote, p.base) <= n
  {
    FloorSigned(n, p.base, p.quote);
    var bought := Floor(n, p.base, p.quote);
    FloorGalois(n, p.base, p.quote, bought);
    var back := Floor(bought, p.quote, p.base);
    FloorGalois(bought, p.quote, p.base, back);
    Cancel(back, n, p.base);
  }

  /**
   What a trade moves at a price: the order that can be paid for in full is used up, and the other one gives
   or takes what that is worth, rounded down.
   */
  predicate FairTrade(newForSale: int, oldForSale: int, p: Price, t: Trade)
  {
    if newForSale * p.base <= oldForSale * p.quote
    then t.newPays == newForSale && RoundedDown(t.oldPays, t.newPays, p.base, p.quote)
    else t.oldPays == oldForSale && RoundedDown(t.newPays, t.oldPays, p.quote, p.base)
  }

  /** No other trade is fair. */
  lemma FairTradeOnce(newForSale: int, oldForSale: int, p: Price, t: Trade, u: Trade)
    requires PriceOk(p) && FairTrade(newForSale, oldForSale, p, t) && FairTrade(newForSale, oldForSale, p, u)
    ensures t == u
  {
    if newForSale * p.base <= oldForSale * p.quote {
      RoundedOnce(t.oldPays, u.oldPays, newForSale, p.base, p.quote);
    } else {
      RoundedOnce(t.newPays, u.newPays, oldForSale, p.quote, p.base);
    }
  }

  lemma MatchFair(newForSale: int, oldForSale: int, p: Price)
    requires newForSale >= 0 && oldForSale >= 0 && PriceOk(p) && Floor(oldForSale, p.quote, p.base) < TWO63
    requires Floor(newForSale, p.base, p.quote) < TWO63 || newForSale > Floor(oldForSale, p.quote, p.base)
    ensures Match(newForSale, oldForSale, p).Ok? ==>
              FairTrade(newForSale, oldForSale, p, Match(newForSale, oldForSale, p).value)
  {
    hide Floor;
    FloorGalois(oldForSale, p.quote, p.base, newForSale);
    FloorRounds(oldForSale, p.quote, p.base);
    FloorRounds(newForSale, p.base, p.quote);
    FloorSigned(oldForSale, p.quote, p.base);
    FloorSigned(newForSale, p.base, p.quote);
  }

  /** The incoming order's limit, when the resting order is used up. */
  lemma IncomingLimit(o: int, own: Price, resting: Price)
    requires 0 <= o && PriceOk(own) && PriceOk(resting) && Cross(own, resting)
    ensures Floor(Floor(o, resting.quote, resting.base), own.quote, own.base) <= o
  {
    FloorSigned(o, resting.quote, resting.base);
    var paid := Floor(o, resting.quote, resting.base);
    WorthAtCross(paid, own, resting);
    RestingLimit(o, Invert(resting));
  }

  /**
   A match between two live orders that cross never aborts. Both sides pay and get at
   least one unit, neither pays more than it sells, one of them is used up, and each gets
   at least what its own price asks for what it pays.
   */
  lemma MatchSettles(newForSale: int, own: Price, oldForSale: int, resting: Price)
    requires Alive(newForSale, own) && Alive(oldForSale, resting) && Cross(own, resting)
    ensures Match(newForSale, oldForSale, resting).Ok?
    ensures var t := Match(newForSale, oldForSale, resting).value;
            && 1 <= t.newPays <= newForSale && 1 <= t.oldPays <= oldForSale
            && (t.newPays == newForSale || t.oldPays == oldForSale)
            && t.oldPays >= Floor(t.newPays, own.quote, own.base)
            && t.newPays >= Floor(t.oldPays, resting.quote, resting.base)
    ensures FairTrade(newForSale, oldForSale, resting, Match(newForSale, oldForSale, resting).value)
  {
    hide FairTrade;
    var worth := Floor(oldForSale, resting.quote, resting.base);
    if newForSale <= worth {
      BuysWithin(newForSale, oldForSale, resting);
      WorthAtCross(newForSale, own, resting);
      RestingLimit(newForSale, resting);
      FloorSigned(newForSale, resting.base, resting.quote);
    } else {
      IncomingLimit(oldForSale, own, resting);
    }
    MatchFair(newForSale, oldForSale, resting);
  }

  /** The range of the book that is searched is exactly the listed orders that cross. */
  lemma SearchedRange(own: Price, resting: Price)
    ensures AtLeast(resting, Invert(own)) <==> Cross(own, resting)
  {
    assert own.base * resting.base == resting.base * own.base;
    assert own.quote * resting.quote == resting.quote * own.quote;
  }

  /** Crossing carries over to every better price. */
  lemma CrossBetter(own: Price, a: Price, b: Price)
    requires PriceOk(own) && PriceOk(a) && PriceOk(b) && AtLeast(a, b) && Cross(own, b)
    ensures Cross(own, a)
  {
    CrossWorth(own.quote, own.base, b.quote, b.base, a.base, a.quote);
  }

  lemma AtLeastTransitive(a: Price, b: Price, c: Price)
    requires PriceOk(a) && PriceOk(b) && PriceOk(c)
    ensures AtLeast(a, b) && AtLeast(b, c) ==> AtLeast(a, c)
  {
    if AtLeast(a, b) && AtLeast(b, c) { CrossBetter(Invert(c), a, b); }
  }

  lemma PaysAtLeast(a: Price, b: Price, n: nat)
    requires PriceOk(a) && PriceOk(b) && AtLeast(a, b)
    ensures Floor(n, a.base, a.quote) >= Floor(n, b.base, b.quote)
  {
    hide Floor;
    var x := Floor(n, b.base, b.quote);
    FloorGalois(n, b.base, b.quote, x);
    assert b.base * a.quote == a.quote * b.base;
    CrossWorth(x, n, b.quote, b.base, a.base, a.quote);
    FloorGalois(n, a.base, a.quote, x);
  }

  lemma PaysMore(a: Price, b: Price) returns (n: nat)
    requires PriceOk(a) && PriceOk(b) && Better(a, b)
    ensures Floor(n, a.base, a.quote) > Floor(n, b.base, b.quote)
  {
    hide Floor;
    n := a.quote * b.quote;
    var x := b.quote * a.base;
    Swap(a.quote, b.quote, a.base);
    Swap(a.quote, b.quote, b.base);
    assert x * a.quote == a.quote * x && a.quote * (b.quote * b.base) == (a.quote * b.base) * b.quote;
    FloorGalois(n, a.base, a.quote, x);
    FloorGalois(n, b.base, b.quote, a.quote * b.base + 1);
    Distribute(a.quote * b.base, 1, b.quote);
  }

  /** A resting order goes before another if for some amount it pays more, and then it pays no less for any. */
  lemma BetterPays(a: Price, b: Price)
    requires PriceOk(a) && PriceOk(b)
    ensures Better(a, b) <==> exists n: nat :: Floor(n, a.base, a.quote) > Floor(n, b.base, b.quote)
    ensures Better(a, b) ==> forall n: nat :: Floor(n, a.base, a.quote) >= Floor(n, b.base, b.quote)
  {
    hide Floor;
    if Better(a, b) {
      var n := PaysMore(a, b);
      forall n: nat ensures Floor(n, a.base, a.quote) >= Floor(n, b.base, b.quote) { PaysAtLeast(a, b, n); }
    } else {
      forall n: nat ensures Floor(n, b.base, b.quote) >= Floor(n, a.base, a.quote) { PaysAtLeast(b, a, n); }
    }
  }

  lemma BetterTransitive(a: Price, b: Price, c: Price)
    requires PriceOk(a) && PriceOk(b) && PriceOk(c) && AtLeast(a, b) && AtLeast(b, c)
    ensures AtLeast(a, c)
    ensures Better(a, b) || Better(b, c) ==> Better(a, c)
  {
    AtLeastTransitive(a, b, c);
    AtLeastTransitive(b, c, a);
    AtLeastTransitive(c, a, b);
  }
}
