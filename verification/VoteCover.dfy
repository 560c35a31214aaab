/**
 Every vesting share is counted exactly once: in the weight of the account without a proxy
 at the end of its chain, or, when the chain is longer than the depth bound, in the deepest
 slot of the proxied account where it stopped travelling.
 */
module VoteCover {
  import opened Common
  import opened Sums
  import opened ProxyForest

  ghost predicate NonNegative(accounts: Accounts)
  {
    forall x :: x in accounts ==> 0 <= accounts[x].vests
  }

  ghost function TotalVests(accounts: Accounts): int
  {
    Sum(accounts.Keys, a => Vests(accounts, a))
  }

  /** What the supply audit adds up for one account. */
  function Cover(a: Account): int
    requires |a.proxied| == MAX_DEPTH
  {
    if a.proxy == NO_PROXY then Weight(a) else a.proxied[MAX_DEPTH - 1]
  }

  ghost function CoverAt(accounts: Accounts, x: Name): int
  {
    if x in accounts && |accounts[x].proxied| == MAX_DEPTH then Cover(accounts[x]) else 0
  }

  /** The total that the chain compares with its vesting shares. */
  ghost function CoverTotal(accounts: Accounts): int
  {
    Sum(accounts.Keys, x => CoverAt(accounts, x))
  }

  lemma BelowNonNegative(accounts: Accounts, x: Name, k: nat)
    requires NonNegative(accounts)
    ensures 0 <= Below(accounts, x, k)
  {
    var f := a => On(accounts, x, k, a, Vests(accounts, a));
    SumMonotone({}, accounts.Keys, f, f);
  }

  lemma WeightNonNegative(accounts: Accounts, x: Name)
    requires WellFormed(accounts) && Counted(accounts) && NonNegative(accounts) && x in accounts
    ensures 0 <= Weight(accounts[x])
    ensures 0 <= Cover(accounts[x])
  {
    forall j | 0 <= j < MAX_DEPTH ensures 0 <= accounts[x].proxied[j] {
      BelowNonNegative(accounts, x, j + 1);
    }
    SumSeqFour(accounts[x].proxied);
  }

  /** Where a chain ends, in terms of hops. */
  lemma {:induction false} FindRootHops(accounts: Accounts, a: Name, depth: nat)
    requires WellFormed(accounts) && a in accounts && depth <= MAX_DEPTH
    ensures match FindRoot(accounts, a, depth)
            case Root(r, d) =>
              && depth <= d
              && Hop(accounts, a, d - depth) == r
              && (forall k :: 0 <= k < d - depth ==> Parent(accounts, Hop(accounts, a, k)) != NO_PROXY)
              && (forall k :: d - depth < k <= MAX_DEPTH - depth ==> Hop(accounts, a, k) == NO_PROXY)
            case TooDeep =>
              forall k :: 0 <= k <= MAX_DEPTH - depth ==> Parent(accounts, Hop(accounts, a, k)) != NO_PROXY
    decreases MAX_DEPTH - depth, accounts
  {
    var p := accounts[a].proxy;
    if p == NO_PROXY {
      forall k | 0 < k <= MAX_DEPTH - depth ensures Hop(accounts, a, k) == NO_PROXY {
        HopOfNone(accounts, k - 1);
      }
    } else if depth < MAX_DEPTH {
      FindRootHops(accounts, p, depth + 1);
      assert forall k :: 1 <= k <= MAX_DEPTH - depth ==> Hop(accounts, a, k) == Hop(accounts, p, k - 1);
      assert Hop(accounts, a, 0) == a;
    }
  }

  /** What the amount `v` held by `a` adds to the cover of `x`. */
  ghost function CoverOn(accounts: Accounts, x: Name, a: Name, v: int): int
  {
    if Parent(accounts, x) == NO_PROXY
    then On(accounts, x, 0, a, v) + On(accounts, x, 1, a, v) + On(accounts, x, 2, a, v)
         + On(accounts, x, 3, a, v) + On(accounts, x, 4, a, v)
    else On(accounts, x, 4, a, v)
  }

  /** The account that covers `a`. */
  ghost function CoveredBy(accounts: Accounts, a: Name): Name
    requires WellFormed(accounts) && a in accounts
  {
    match FindRoot(accounts, a, 0)
    case Root(r, _) => r
    case TooDeep => Hop(accounts, a, MAX_DEPTH)
  }

  lemma CoverOnOne(accounts: Accounts, x: Name, a: Name, v: int)
    requires WellFormed(accounts) && a in accounts && x in accounts
    ensures CoverOn(accounts, x, a, v) == if x == CoveredBy(accounts, a) then v else 0
  {
    FindRootHops(accounts, a, 0);
    match FindRoot(accounts, a, 0)
    case Root(r, d) =>
      assert forall k :: 0 <= k < d ==> Hop(accounts, a, k) != r;
    case TooDeep =>
  }

  lemma CoveredByExists(accounts: Accounts, a: Name)
    requires WellFormed(accounts) && a in accounts
    ensures CoveredBy(accounts, a) in accounts
  {
    FindRootHops(accounts, a, 0);
  }

  lemma OneCover(accounts: Accounts, a: Name, v: int)
    requires WellFormed(accounts) && a in accounts
    ensures Sum(accounts.Keys, x => CoverOn(accounts, x, a, v)) == v
  {
    var c := CoveredBy(accounts, a);
    CoveredByExists(accounts, a);
    var f := x => CoverOn(accounts, x, a, v);
    forall x | x in accounts.Keys ensures f(x) == if x == c then v else 0 {
      CoverOnOne(accounts, x, a, v);
    }
    SumRemove(accounts.Keys, c, f);
    SumZero(accounts.Keys - {c}, f);
  }

  lemma SumFive<T(!new)>(s: set<T>, a: T -> int, b: T -> int, c: T -> int, d: T -> int, e: T -> int, h: T -> int)
    requires forall x :: x in s ==> h(x) == a(x) + b(x) + c(x) + d(x) + e(x)
    ensures Sum(s, h) == Sum(s, a) + Sum(s, b) + Sum(s, c) + Sum(s, d) + Sum(s, e)
  {
    SumAdd(s, a, b, x => a(x) + b(x));
    SumAdd(s, x => a(x) + b(x), c, x => a(x) + b(x) + c(x));
    SumAdd(s, x => a(x) + b(x) + c(x), d, x => a(x) + b(x) + c(x) + d(x));
    SumAdd(s, x => a(x) + b(x) + c(x) + d(x), e, h);
  }

  lemma CoverAsSum(accounts: Accounts, x: Name)
    requires WellFormed(accounts) && Counted(accounts) && x in accounts
    ensures Cover(accounts[x]) == Sum(accounts.Keys, a => CoverOn(accounts, x, a, Vests(accounts, a)))
  {
    var h := a => CoverOn(accounts, x, a, Vests(accounts, a));
    var on0 := a => On(accounts, x, 0, a, Vests(accounts, a));
    var on4 := a => On(accounts, x, 4, a, Vests(accounts, a));
    if accounts[x].proxy == NO_PROXY {
      BelowZero(accounts, x);
      SumSeqFour(accounts[x].proxied);
      SumFive(accounts.Keys, on0,
              a => On(accounts, x, 1, a, Vests(accounts, a)),
              a => On(accounts, x, 2, a, Vests(accounts, a)),
              a => On(accounts, x, 3, a, Vests(accounts, a)), on4, h);
      assert accounts[x].proxied[0] == Below(accounts, x, 1);
      assert accounts[x].proxied[1] == Below(accounts, x, 2);
      assert accounts[x].proxied[2] == Below(accounts, x, 3);
      assert accounts[x].proxied[3] == Below(accounts, x, 4);
    } else {
      SumExt(accounts.Keys, h, on4);
      assert accounts[x].proxied[3] == Below(accounts, x, 4);
    }
  }

  ghost function Share(accounts: Accounts, x: Name, a: Name): int
  {
    CoverOn(accounts, x, a, Vests(accounts, a))
  }

  lemma ShareRow(accounts: Accounts, x: Name, row: Name -> int)
    requires WellFormed(accounts) && Counted(accounts) && x in accounts
    requires forall a :: a in accounts ==> row(a) == Share(accounts, x, a)
    ensures Sum(accounts.Keys, row) == CoverAt(accounts, x)
  {
    CoverAsSum(accounts, x);
    SumExt(accounts.Keys, a => CoverOn(accounts, x, a, Vests(accounts, a)), row);
  }

  lemma ShareColumn(accounts: Accounts, a: Name, column: Name -> int)
    requires WellFormed(accounts) && a in accounts
    requires forall x :: x in accounts ==> column(x) == Share(accounts, x, a)
    ensures Sum(accounts.Keys, column) == Vests(accounts, a)
  {
    OneCover(accounts, a, Vests(accounts, a));
    SumExt(accounts.Keys, x => CoverOn(accounts, x, a, Vests(accounts, a)), column);
  }

  /** The audit's vote total equals the vesting shares outstanding. */
  lemma EveryShareOnce(accounts: Accounts)
    requires WellFormed(accounts) && Counted(accounts)
    ensures CoverTotal(accounts) == TotalVests(accounts)
  {
    var keys := accounts.Keys;
    var row := x => a => Share(accounts, x, a);
    var col := a => x => Share(accounts, x, a);
    var rows := x => CoverAt(accounts, x);
    var cols := a => Vests(accounts, a);
    forall x | x in keys ensures rows(x) == Sum(keys, row(x)) {
      ShareRow(accounts, x, row(x));
    }
    forall a | a in keys ensures cols(a) == Sum(keys, col(a)) {
      ShareColumn(accounts, a, col(a));
    }
    SumSwap(keys, keys, row, col, rows, cols);
  }
}
