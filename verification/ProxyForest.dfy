/**
 Accounts linked by witness-voting proxies, and the recount that the chain maintains
 incrementally: `Below(accounts, x, k)` is the total vesting shares held by the accounts
 exactly `k` proxy hops below `x`. The depth-bounded propagation of a weight change up the
 proxy chain is `Credit`; this module shows what it adds to every slot and how the recount
 reacts when an account leaves or joins a chain.
 */
module ProxyForest {
  import opened Common
  import opened Sums

  /** An account without a proxy votes for itself. */
  const NO_PROXY: Name := ""

  /** How many proxy hops a vote travels. */
  const MAX_DEPTH: nat := 4

  datatype Account = Account(
    vests: int,
    proxy: Name,
    proxied: seq<int>,
    canVote: bool,
    votedFor: int)

  type Accounts = map<Name, Account>

  function SumSeq(s: seq<int>): int
  {
    if s == [] then 0 else s[0] + SumSeq(s[1..])
  }

  /** The weight with which an account without a proxy votes. */
  function Weight(a: Account): int
  {
    a.vests + SumSeq(a.proxied)
  }

  /** The account's own shares followed by everything proxied to it, by distance. */
  function Full(a: Account): seq<int>
  {
    [a.vests] + a.proxied
  }

  function Neg(s: seq<int>): (r: seq<int>)
    ensures |r| == |s| && forall i :: 0 <= i < |s| ==> r[i] == -s[i]
  {
    seq(|s|, i requires 0 <= i < |s| => -s[i])
  }

  ghost predicate WellFormed(accounts: Accounts)
  {
    && NO_PROXY !in accounts
    && forall x {:trigger accounts[x]} :: x in accounts ==>
         && |accounts[x].proxied| == MAX_DEPTH
         && (accounts[x].proxy == NO_PROXY || accounts[x].proxy in accounts)
  }

  function Parent(accounts: Accounts, x: Name): Name
  {
    if x in accounts then accounts[x].proxy else NO_PROXY
  }

  /** The account `k` proxy hops above `x`, or NO_PROXY. */
  ghost function Hop(accounts: Accounts, x: Name, k: nat): Name
    decreases k, accounts
  {
    if k == 0 then x else Hop(accounts, Parent(accounts, x), k - 1)
  }

  ghost predicate Acyclic(accounts: Accounts)
  {
    forall x, k: nat :: x in accounts && k >= 1 ==> Hop(accounts, x, k) != x
  }

  /** What an amount `v` held by `a` contributes to the accounts `k` hops below `x`. */
  ghost function On(accounts: Accounts, x: Name, k: nat, a: Name, v: int): int
  {
    if Hop(accounts, a, k) == x then v else 0
  }

  ghost function Vests(accounts: Accounts, a: Name): int
  {
    if a in accounts then accounts[a].vests else 0
  }

  /** The recount. */
  ghost function Below(accounts: Accounts, x: Name, k: nat): int
  {
    Sum(accounts.Keys, a => On(accounts, x, k, a, Vests(accounts, a)))
  }

  ghost function BelowSeq(accounts: Accounts, x: Name): (b: seq<int>)
    ensures |b| == MAX_DEPTH + 1
    ensures forall k :: 0 <= k <= MAX_DEPTH ==> b[k] == Below(accounts, x, k)
  {
    seq(MAX_DEPTH + 1, k requires 0 <= k => Below(accounts, x, k))
  }

  /** Every slot agrees with the recount. */
  ghost predicate Counted(accounts: Accounts)
    requires WellFormed(accounts)
  {
    forall x, j :: x in accounts && 0 <= j < MAX_DEPTH ==>
                     accounts[x].proxied[j] == Below(accounts, x, j + 1)
  }

  /** The two account tables differ in their proxied slots at most. */
  ghost predicate SameShape(a: Accounts, b: Accounts)
  {
    && a.Keys == b.Keys
    && forall x :: x in a ==> b[x] == a[x].(proxied := b[x].proxied) && |b[x].proxied| == |a[x].proxied|
  }

  lemma {:induction false} HopOfNone(accounts: Accounts, k: nat)
    requires NO_PROXY !in accounts
    ensures Hop(accounts, NO_PROXY, k) == NO_PROXY
  {
    if k > 0 { HopOfNone(accounts, k - 1); }
  }

  lemma {:induction false} HopAgree(a: Accounts, b: Accounts, x: Name, k: nat)
    requires forall y :: Parent(a, y) == Parent(b, y)
    ensures Hop(a, x, k) == Hop(b, x, k)
    decreases k, a
  {
    if k > 0 { HopAgree(a, b, Parent(a, x), k - 1); }
  }

  /** The recount looks only at proxies and vesting shares. */
  lemma BelowAgree(a: Accounts, b: Accounts, x: Name, k: nat)
    requires a.Keys == b.Keys
    requires forall y :: y in a ==> a[y].proxy == b[y].proxy && a[y].vests == b[y].vests
    ensures Below(a, x, k) == Below(b, x, k)
  {
    forall y | y in a.Keys
      ensures On(a, x, k, y, Vests(a, y)) == On(b, x, k, y, Vests(b, y))
    {
      HopAgree(a, b, y, k);
    }
    SumExt(a.Keys, y => On(a, x, k, y, Vests(a, y)), y => On(b, x, k, y, Vests(b, y)));
  }

  lemma BelowZero(accounts: Accounts, x: Name)
    requires x in accounts
    ensures Below(accounts, x, 0) == accounts[x].vests
  {
    var f := a => On(accounts, x, 0, a, Vests(accounts, a));
    SumRemove(accounts.Keys, x, f);
    SumZero(accounts.Keys - {x}, f);
  }

  lemma FullIsRecount(accounts: Accounts, x: Name)
    requires WellFormed(accounts) && Counted(accounts) && x in accounts
    ensures Full(accounts[x]) == BelowSeq(accounts, x)
  {
    BelowZero(accounts, x);
    forall k | 0 <= k <= MAX_DEPTH
      ensures Full(accounts[x])[k] == BelowSeq(accounts, x)[k]
    {
      if k > 0 { assert Full(accounts[x])[k] == accounts[x].proxied[k - 1]; }
    }
  }

  // ----- propagation up the proxy chain -----

  /** `slots[i + depth] += delta[i]` for every slot that exists. */
  function AddShifted(slots: seq<int>, delta: seq<int>, depth: nat): (r: seq<int>)
    requires |slots| == MAX_DEPTH && |delta| == MAX_DEPTH + 1
    ensures |r| == |slots|
    ensures forall j :: 0 <= j < |slots| ==> r[j] == slots[j] + (if j >= depth then delta[j - depth] else 0)
  {
    seq(|slots|, j requires 0 <= j < |slots| => slots[j] + if j >= depth then delta[j - depth] else 0)
  }

  function CreditOne(accounts: Accounts, p: Name, delta: seq<int>, depth: nat): (r: Accounts)
    requires WellFormed(accounts) && p in accounts
    requires |delta| == MAX_DEPTH + 1
    ensures SameShape(accounts, r) && WellFormed(r)
    ensures forall z :: Parent(r, z) == Parent(accounts, z)
  {
    accounts[p := accounts[p].(proxied := AddShifted(accounts[p].proxied, delta, depth))]
  }

  /** Adding `delta` to the slots of the accounts above `a`, starting `depth` hops up. */
  function Credit(accounts: Accounts, a: Name, delta: seq<int>, depth: nat): (r: Accounts)
    requires WellFormed(accounts) && a in accounts
    requires |delta| == MAX_DEPTH + 1 && depth <= MAX_DEPTH
    ensures SameShape(accounts, r) && WellFormed(r)
    decreases MAX_DEPTH - depth, accounts
  {
    var p := accounts[a].proxy;
    if p == NO_PROXY || depth == MAX_DEPTH then accounts
    else Credit(CreditOne(accounts, p, delta, depth), p, delta, depth + 1)
  }

  datatype Reached = Root(name: Name, depth: nat) | TooDeep

  /** Where the chain starting at `a` ends, if the depth bound allows. */
  function FindRoot(accounts: Accounts, a: Name, depth: nat): (r: Reached)
    requires WellFormed(accounts) && a in accounts
    requires depth <= MAX_DEPTH
    ensures r.Root? ==> r.name in accounts && accounts[r.name].proxy == NO_PROXY && depth <= r.depth <= MAX_DEPTH
    ensures accounts[a].proxy == NO_PROXY ==> r == Root(a, depth)
    ensures r.Root? && r.name == a && accounts[a].proxy != NO_PROXY ==> false
    decreases MAX_DEPTH - depth, accounts
  {
    var p := accounts[a].proxy;
    if p == NO_PROXY then Root(a, depth)
    else if depth == MAX_DEPTH then TooDeep
    else FindRoot(accounts, p, depth + 1)
  }

  /** What slot `k - 1` of `x` gains when `delta` travels up from `y`. */
  ghost function Gain(accounts: Accounts, y: Name, delta: seq<int>, x: Name, k: nat): int
    requires k <= |delta|
    decreases k, accounts
  {
    var p := Parent(accounts, y);
    if k == 0 || p == NO_PROXY then 0
    else (if p == x then delta[k - 1] else 0) + Gain(accounts, p, delta, x, k - 1)
  }

  lemma {:induction false} GainAgree(a: Accounts, b: Accounts, y: Name, delta: seq<int>, x: Name, k: nat)
    requires k <= |delta|
    requires forall z :: Parent(a, z) == Parent(b, z)
    ensures Gain(a, y, delta, x, k) == Gain(b, y, delta, x, k)
    decreases k, a
  {
    if k > 0 && Parent(a, y) != NO_PROXY { GainAgree(a, b, Parent(a, y), delta, x, k - 1); }
  }

  lemma {:induction false} GainNeg(accounts: Accounts, y: Name, delta: seq<int>, x: Name, k: nat)
    requires k <= |delta|
    ensures Gain(accounts, y, Neg(delta), x, k) == -Gain(accounts, y, delta, x, k)
    decreases k, accounts
  {
    if k > 0 && Parent(accounts, y) != NO_PROXY { GainNeg(accounts, Parent(accounts, y), delta, x, k - 1); }
  }

  /** What slot `j` of `x` gains when `delta`, already `depth` hops up, travels on from `y`. */
  ghost function SlotGain(accounts: Accounts, y: Name, delta: seq<int>, depth: nat, x: Name, j: nat): int
    requires j < |delta|
  {
    if j < depth then 0 else Gain(accounts, y, delta, x, j + 1 - depth)
  }

  /** The slots after propagation, in closed form. */
  lemma {:induction false} CreditGain(accounts: Accounts, a: Name, delta: seq<int>, depth: nat, x: Name, j: nat)
    requires WellFormed(accounts) && a in accounts && x in accounts
    requires |delta| == MAX_DEPTH + 1 && depth <= MAX_DEPTH && j < MAX_DEPTH
    ensures Credit(accounts, a, delta, depth)[x].proxied[j] ==
            accounts[x].proxied[j] + SlotGain(accounts, a, delta, depth, x, j)
    decreases MAX_DEPTH - depth, accounts
  {
    hide CreditOne, Hop;
    var p := accounts[a].proxy;
    if p != NO_PROXY && depth < MAX_DEPTH {
      var credited := CreditOne(accounts, p, delta, depth);
      CreditGain(credited, p, delta, depth + 1, x, j);
      SlotGainStep(accounts, a, delta, depth, x, j);
    }
  }

  lemma SlotGainStep(accounts: Accounts, a: Name, delta: seq<int>, depth: nat, x: Name, j: nat)
    requires WellFormed(accounts) && a in accounts && x in accounts
    requires |delta| == MAX_DEPTH + 1 && depth < MAX_DEPTH && j < MAX_DEPTH
    requires accounts[a].proxy != NO_PROXY
    ensures var p := accounts[a].proxy;
            var credited := CreditOne(accounts, p, delta, depth);
            credited[x].proxied[j] + SlotGain(credited, p, delta, depth + 1, x, j) ==
            accounts[x].proxied[j] + SlotGain(accounts, a, delta, depth, x, j)
  {
    var p := accounts[a].proxy;
    var credited := CreditOne(accounts, p, delta, depth);
    if j >= depth {
      GainAgree(accounts, credited, p, delta, x, j - depth);
    }
  }

  lemma CreditSlot(accounts: Accounts, a: Name, delta: seq<int>, x: Name, j: nat)
    requires WellFormed(accounts) && a in accounts && x in accounts
    requires |delta| == MAX_DEPTH + 1 && j < MAX_DEPTH
    ensures Credit(accounts, a, delta, 0)[x].proxied[j] == accounts[x].proxied[j] + Gain(accounts, a, delta, x, j + 1)
  {
    CreditGain(accounts, a, delta, 0, x, j);
  }

  /** The sum of the first `n` entries. */
  function Take(delta: seq<int>, n: nat): int
    requires n <= |delta|
  {
    if n == 0 then 0 else Take(delta, n - 1) + delta[n - 1]
  }

  lemma {:induction false} TakeNeg(delta: seq<int>, n: nat)
    requires n <= |delta|
    ensures Take(Neg(delta), n) == -Take(delta, n)
  {
    if n > 0 { TakeNeg(delta, n - 1); }
  }

  lemma {:induction false} SumSeqAppend(s: seq<int>, x: int)
    ensures SumSeq(s + [x]) == SumSeq(s) + x
  {
    if s != [] {
      assert (s + [x])[1..] == s[1..] + [x];
      SumSeqAppend(s[1..], x);
    }
  }

  lemma {:induction false} TakeAll(s: seq<int>, n: nat)
    requires n <= |s|
    ensures Take(s, n) == SumSeq(s[..n])
  {
    if n > 0 {
      TakeAll(s, n - 1);
      assert s[..n] == s[..n - 1] + [s[n - 1]];
      SumSeqAppend(s[..n - 1], s[n - 1]);
    }
  }

  lemma WeightIsTake(a: Account)
    requires |a.proxied| == MAX_DEPTH
    ensures Weight(a) == Take(Full(a), MAX_DEPTH + 1)
  {
    TakeAll(Full(a), MAX_DEPTH + 1);
    assert Full(a)[..MAX_DEPTH + 1] == Full(a);
  }

  ghost function GainTotal(accounts: Accounts, y: Name, delta: seq<int>, x: Name, m: nat): int
    requires m <= |delta|
  {
    if m == 0 then 0 else GainTotal(accounts, y, delta, x, m - 1) + Gain(accounts, y, delta, x, m)
  }

  lemma {:induction false} GainTotalStep(accounts: Accounts, y: Name, delta: seq<int>, x: Name, m: nat)
    requires m < |delta|
    requires Parent(accounts, y) != NO_PROXY
    ensures GainTotal(accounts, y, delta, x, m + 1) ==
            (if Parent(accounts, y) == x then Take(delta, m + 1) else 0)
            + GainTotal(accounts, Parent(accounts, y), delta, x, m)
  {
    var p := Parent(accounts, y);
    assert Gain(accounts, y, delta, x, m + 1) == (if p == x then delta[m] else 0) + Gain(accounts, p, delta, x, m);
    if m == 0 {
      assert GainTotal(accounts, y, delta, x, 0) == 0;
      assert Take(delta, 1) == Take(delta, 0) + delta[0];
    } else {
      GainTotalStep(accounts, y, delta, x, m - 1);
    }
  }

  lemma {:induction false} GainTotalOfRoot(accounts: Accounts, y: Name, delta: seq<int>, x: Name, m: nat)
    requires m <= |delta|
    requires Parent(accounts, y) == NO_PROXY
    ensures GainTotal(accounts, y, delta, x, m) == 0
  {
    if m > 0 { GainTotalOfRoot(accounts, y, delta, x, m - 1); }
  }

  /** What the chain above `a` hands to the witnesses of `x`. */
  function Gift(accounts: Accounts, a: Name, delta: seq<int>, depth: nat, x: Name): int
    requires WellFormed(accounts) && a in accounts
    requires |delta| == MAX_DEPTH + 1 && depth <= MAX_DEPTH
  {
    match FindRoot(accounts, a, depth)
    case Root(r, d) => if r == x then Take(delta, MAX_DEPTH + 1 - d) else 0
    case TooDeep => 0
  }

  /** An account without a proxy gains exactly what the source hands to its witnesses. */
  lemma {:induction false} RootGain(accounts: Accounts, a: Name, delta: seq<int>, depth: nat, x: Name)
    requires WellFormed(accounts) && a in accounts && x in accounts
    requires |delta| == MAX_DEPTH + 1 && depth <= MAX_DEPTH
    requires accounts[x].proxy == NO_PROXY && x != a
    ensures GainTotal(accounts, a, delta, x, MAX_DEPTH - depth) == Gift(accounts, a, delta, depth, x)
    decreases MAX_DEPTH - depth, accounts
  {
    var p := accounts[a].proxy;
    if p == NO_PROXY {
      GainTotalOfRoot(accounts, a, delta, x, MAX_DEPTH - depth);
    } else if depth < MAX_DEPTH {
      GainTotalStep(accounts, a, delta, x, MAX_DEPTH - depth - 1);
      if p == x {
        GainTotalOfRoot(accounts, p, delta, x, MAX_DEPTH - depth - 1);
      } else {
        RootGain(accounts, p, delta, depth + 1, x);
      }
    }
  }

  lemma SumSeqFour(s: seq<int>)
    requires |s| == MAX_DEPTH
    ensures SumSeq(s) == s[0] + s[1] + s[2] + s[3]
  {
    assert s[..4] == s;
    TakeAll(s, 4);
    calc {
      Take(s, 4);
      Take(s, 3) + s[3];
      Take(s, 2) + s[2] + s[3];
      Take(s, 1) + s[1] + s[2] + s[3];
    }
  }

  lemma SlotTotal(accounts: Accounts, a: Name, delta: seq<int>, x: Name, before: seq<int>, after: seq<int>)
    requires |delta| == MAX_DEPTH + 1 && |before| == |after| == MAX_DEPTH
    requires forall j :: 0 <= j < MAX_DEPTH ==> after[j] == before[j] + Gain(accounts, a, delta, x, j + 1)
    ensures SumSeq(after) == SumSeq(before) + GainTotal(accounts, a, delta, x, MAX_DEPTH)
  {
    SumSeqFour(before);
    SumSeqFour(after);
    calc {
      GainTotal(accounts, a, delta, x, 4);
      GainTotal(accounts, a, delta, x, 3) + Gain(accounts, a, delta, x, 4);
      GainTotal(accounts, a, delta, x, 2) + Gain(accounts, a, delta, x, 3) + Gain(accounts, a, delta, x, 4);
      GainTotal(accounts, a, delta, x, 1)
      + Gain(accounts, a, delta, x, 2) + Gain(accounts, a, delta, x, 3) + Gain(accounts, a, delta, x, 4);
      GainTotal(accounts, a, delta, x, 0) + Gain(accounts, a, delta, x, 1)
      + Gain(accounts, a, delta, x, 2) + Gain(accounts, a, delta, x, 3) + Gain(accounts, a, delta, x, 4);
    }
  }

  /** The weight of an account without a proxy after propagation. */
  lemma CreditWeight(accounts: Accounts, a: Name, delta: seq<int>, x: Name)
    requires WellFormed(accounts) && a in accounts && x in accounts
    requires |delta| == MAX_DEPTH + 1
    ensures Weight(Credit(accounts, a, delta, 0)[x]) ==
            Weight(accounts[x]) + GainTotal(accounts, a, delta, x, MAX_DEPTH)
  {
    var before, after := accounts[x].proxied, Credit(accounts, a, delta, 0)[x].proxied;
    forall j | 0 <= j < MAX_DEPTH ensures after[j] == before[j] + Gain(accounts, a, delta, x, j + 1) {
      CreditSlot(accounts, a, delta, x, j);
    }
    SlotTotal(accounts, a, delta, x, before, after);
  }

  // ----- how the recount reacts -----

  function Detach(accounts: Accounts, a: Name): Accounts
    requires a in accounts
  {
    accounts[a := accounts[a].(proxy := NO_PROXY)]
  }

  /** The part of `v`, held by `b`, that reaches `x` through `acct`. */
  ghost function Through(accounts: Accounts, acct: Name, y: Name, x: Name, k: nat, b: Name, v: int): int
    decreases k, accounts
  {
    var p := Parent(accounts, y);
    if k == 0 || p == NO_PROXY then 0
    else (if p == x then On(accounts, acct, k - 1, b, v) else 0) + Through(accounts, acct, p, x, k - 1, b, v)
  }

  lemma {:induction false} ThroughSelf(accounts: Accounts, acct: Name, y: Name, x: Name, k: nat, v: int)
    requires WellFormed(accounts) && Acyclic(accounts) && acct in accounts && x in accounts
    requires k >= 1
    ensures Through(accounts, acct, y, x, k, acct, v) == On(accounts, x, k, y, v)
    decreases k, accounts
  {
    var p := Parent(accounts, y);
    if p == NO_PROXY {
      HopOfNone(accounts, k - 1);
    } else if k > 1 {
      assert Hop(accounts, acct, k - 1) != acct;
      ThroughSelf(accounts, acct, p, x, k - 1, v);
    } else {
      assert Hop(accounts, p, 0) == p && Hop(accounts, acct, 0) == acct;
      assert Through(accounts, acct, p, x, 0, acct, v) == 0;
    }
  }

  lemma {:induction false} ThroughParent(accounts: Accounts, acct: Name, y: Name, x: Name, k: nat, b: Name, v: int)
    requires b != acct && k >= 1
    ensures Through(accounts, acct, y, x, k, b, v) == Through(accounts, acct, y, x, k - 1, Parent(accounts, b), v)
    decreases k, accounts
  {
    var p := Parent(accounts, y);
    if p != NO_PROXY && k > 1 {
      ThroughParent(accounts, acct, p, x, k - 1, b, v);
    }
  }

  /** One account's contribution before and after `acct` leaves its proxy. */
  lemma {:induction false} DetachOn(accounts: Accounts, acct: Name, x: Name, k: nat, b: Name, v: int)
    requires WellFormed(accounts) && Acyclic(accounts) && acct in accounts && x in accounts
    ensures On(accounts, x, k, b, v) ==
            On(Detach(accounts, acct), x, k, b, v) + Through(accounts, acct, acct, x, k, b, v)
    decreases k, accounts
  {
    if k > 0 {
      if b == acct {
        HopOfNone(Detach(accounts, acct), k - 1);
        ThroughSelf(accounts, acct, acct, x, k, v);
      } else {
        ThroughParent(accounts, acct, acct, x, k, b, v);
        DetachOn(accounts, acct, x, k - 1, Parent(accounts, b), v);
      }
    }
  }

  lemma {:induction false} ThroughSum(accounts: Accounts, acct: Name, y: Name, x: Name, k: nat, delta: seq<int>)
    requires k <= |delta|
    requires forall i :: 0 <= i < |delta| ==> delta[i] == Below(accounts, acct, i)
    ensures Sum(accounts.Keys, b => Through(accounts, acct, y, x, k, b, Vests(accounts, b))) ==
            Gain(accounts, y, delta, x, k)
    decreases k, accounts
  {
    var p := Parent(accounts, y);
    var h := b => Through(accounts, acct, y, x, k, b, Vests(accounts, b));
    if k == 0 || p == NO_PROXY {
      SumZero(accounts.Keys, h);
    } else {
      var rest := b => Through(accounts, acct, p, x, k - 1, b, Vests(accounts, b));
      ThroughSum(accounts, acct, p, x, k - 1, delta);
      if p == x {
        SumAdd(accounts.Keys, b => On(accounts, acct, k - 1, b, Vests(accounts, b)), rest, h);
      } else {
        SumExt(accounts.Keys, h, rest);
      }
    }
  }

  /** Leaving a proxy takes from each account above exactly what `Gain` says. */
  lemma DetachBelow(accounts: Accounts, acct: Name, x: Name, k: nat)
    requires WellFormed(accounts) && Acyclic(accounts) && acct in accounts && x in accounts
    requires k <= MAX_DEPTH
    ensures Below(accounts, x, k) ==
            Below(Detach(accounts, acct), x, k) + Gain(accounts, acct, BelowSeq(accounts, acct), x, k)
  {
    var detached := Detach(accounts, acct);
    assert detached.Keys == accounts.Keys;
    forall b | b in accounts.Keys
      ensures On(accounts, x, k, b, Vests(accounts, b)) ==
              On(detached, x, k, b, Vests(detached, b)) + Through(accounts, acct, acct, x, k, b, Vests(accounts, b))
    {
      DetachOn(accounts, acct, x, k, b, Vests(accounts, b));
    }
    SumAdd(accounts.Keys,
           b => On(detached, x, k, b, Vests(detached, b)),
           b => Through(accounts, acct, acct, x, k, b, Vests(accounts, b)),
           b => On(accounts, x, k, b, Vests(accounts, b)));
    ThroughSum(accounts, acct, acct, x, k, BelowSeq(accounts, acct));
  }

  lemma {:induction false} HopOfHop(accounts: Accounts, x: Name, i: nat, j: nat)
    ensures Hop(accounts, Hop(accounts, x, i), j) == Hop(accounts, x, i + j)
    decreases i
  {
    if i > 0 { HopOfHop(accounts, Parent(accounts, x), i - 1, j); }
  }

  lemma {:induction false} GainUnreached(accounts: Accounts, y: Name, delta: seq<int>, x: Name, k: nat)
    requires k <= |delta|
    requires forall i: nat :: i >= 1 ==> Hop(accounts, y, i) != x
    ensures Gain(accounts, y, delta, x, k) == 0
    decreases k, accounts
  {
    var p := Parent(accounts, y);
    if k > 0 && p != NO_PROXY {
      assert Hop(accounts, y, 1) == p;
      forall i: nat | i >= 1 ensures Hop(accounts, p, i) != x {
        assert Hop(accounts, y, i + 1) == Hop(accounts, p, i);
      }
      GainUnreached(accounts, p, delta, x, k - 1);
    }
  }

  /** What is below an account does not depend on its own proxy. */
  lemma DetachBelowSelf(accounts: Accounts, acct: Name)
    requires WellFormed(accounts) && Acyclic(accounts) && acct in accounts
    ensures BelowSeq(accounts, acct) == BelowSeq(Detach(accounts, acct), acct)
  {
    forall k | 0 <= k <= MAX_DEPTH
      ensures Below(accounts, acct, k) == Below(Detach(accounts, acct), acct, k)
    {
      DetachBelow(accounts, acct, acct, k);
      GainUnreached(accounts, acct, BelowSeq(accounts, acct), acct, k);
    }
  }

  /** A change of one account's own shares, seen from `x`. */
  lemma VestsBelow(accounts: Accounts, changed: Accounts, a: Name, dv: int, x: Name, k: nat)
    requires a in accounts
    requires changed == accounts[a := accounts[a].(vests := accounts[a].vests + dv)]
    ensures Below(changed, x, k) == Below(accounts, x, k) + On(changed, x, k, a, dv)
  {
    assert changed.Keys == accounts.Keys;
    var f := b => On(accounts, x, k, b, Vests(accounts, b));
    var g := b => On(changed, x, k, b, Vests(changed, b));
    forall b | b in accounts.Keys
      ensures Hop(accounts, b, k) == Hop(changed, b, k)
    {
      HopAgree(accounts, changed, b, k);
    }
    SumUpdate(accounts.Keys, a, f, g);
  }

  function Only(dv: int): (r: seq<int>)
    ensures |r| == MAX_DEPTH + 1 && r[0] == dv && forall i :: 1 <= i <= MAX_DEPTH ==> r[i] == 0
  {
    [dv, 0, 0, 0, 0]
  }

  lemma {:induction false} OnlyGain(accounts: Accounts, y: Name, dv: int, x: Name, k: nat)
    requires WellFormed(accounts) && x in accounts
    requires 1 <= k <= MAX_DEPTH
    ensures Gain(accounts, y, Only(dv), x, k) == On(accounts, x, k, y, dv)
    decreases k, accounts
  {
    var p := Parent(accounts, y);
    if p == NO_PROXY {
      HopOfNone(accounts, k - 1);
    } else if k > 1 {
      OnlyGain(accounts, p, dv, x, k - 1);
    } else {
      assert Hop(accounts, p, 0) == p;
      assert Gain(accounts, p, Only(dv), x, 0) == 0;
    }
  }

  lemma {:induction false} OnlyTake(dv: int, n: nat)
    requires 1 <= n <= MAX_DEPTH + 1
    ensures Take(Only(dv), n) == dv
  {
    if n > 1 { OnlyTake(dv, n - 1); }
  }
}
