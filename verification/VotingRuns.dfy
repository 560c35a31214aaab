/**
 The operations of `Voting`, one by one and over whole runs: each keeps `Inv`, and the
 assertion that a witness may not have more votes than there are vesting shares never
 fires in the vote, proxy, decline and deposit operations.
 */
module VotingRuns {
  import opened Common
  import opened Sums
  import opened VirtualTime
  import opened ProxyForest
  import opened VoteCover
  import opened Voting
  import opened VotingProofs

  lemma CoreOf(st: State)
    requires Recounted(st)
    requires AllInStep(st.witnesses, st.now) && st.now <= MAX128 && 0 <= st.totalVests <= MAX_SHARES
    ensures Core(st)
  {
  }

  /** Every witness is within the bound that vote adjustment asserts. */
  ghost predicate Affordable(st: State)
  {
    forall w :: w in st.witnesses ==>
                  0 <= st.witnesses[w].votes <= st.totalVests && Wrap(st.witnesses[w].votes + 1) != 0
  }

  /** A recounted state whose shares match the total passes every vote assertion. */
  lemma RecountedAffordable(st: State)
    requires Recounted(st) && TotalVests(st.accounts) == st.totalVests <= MAX_SHARES
    ensures Affordable(st)
  {
    forall w | w in st.witnesses
      ensures 0 <= st.witnesses[w].votes <= st.totalVests && Wrap(st.witnesses[w].votes + 1) != 0
    {
      TallyBound(st, w);
      SmallVotesDivide(st.witnesses[w].votes);
    }
  }

  lemma AdjustPasses(st: State, a: Name, delta: seq<int>, next: State)
    requires WellFormed(st.accounts) && a in st.accounts && |delta| == MAX_DEPTH + 1
    requires next == Propagate(st, a, delta) && Affordable(next)
    ensures Adjust(st, a, delta) == Ok(next)
  {
    assert forall r :: Passed(next, r);
  }

  lemma AffordableInStep(st: State, a: Name, delta: seq<int>, next: State)
    requires WellFormed(st.accounts) && a in st.accounts && |delta| == MAX_DEPTH + 1
    requires next == Propagate(st, a, delta) && Affordable(next) && next.totalVests <= MAX_SHARES
    requires AllInStep(st.witnesses, st.now)
    ensures AllInStep(next.witnesses, next.now)
  {
    PropagateInStep(st, a, delta);
  }

  // ----- proxies -----

  /** Leaving every chain passes the assertions and keeps virtual time in step. */
  lemma LeavePasses(st: State, a: Name)
    requires Inv(st) && a in st.accounts
    ensures Adjust(st, a, Neg(Full(st.accounts[a]))) == Ok(Propagate(st, a, Neg(Full(st.accounts[a]))))
    ensures Inv(Leave(st, a))
    ensures VotedBy(Leave(st, a), a) == {}
  {
    LeaveRecounted(st, a);
    LeaveShape(st, a);
    RecountedAffordable(Leave(st, a));
    LeaveInStep(st, a);
    CoreOf(Leave(st, a));
  }

  lemma LeaveInStep(st: State, a: Name)
    requires WellFormed(st.accounts) && a in st.accounts
    requires AllInStep(st.witnesses, st.now)
    requires Affordable(Leave(st, a)) && st.totalVests <= MAX_SHARES
    ensures Adjust(st, a, Neg(Full(st.accounts[a]))) == Ok(Propagate(st, a, Neg(Full(st.accounts[a]))))
    ensures AllInStep(Leave(st, a).witnesses, st.now)
  {
    hide Propagate, Credit, FindRoot;
    var next := Propagate(st, a, Neg(Full(st.accounts[a])));
    LeaveShape(st, a);
    assert Affordable(next);
    AdjustPasses(st, a, Neg(Full(st.accounts[a])), next);
    AffordableInStep(st, a, Neg(Full(st.accounts[a])), next);
  }

  /** For an account with a proxy, clearing its vote records changes nothing. */
  lemma NothingToClear(st: State, a: Name)
    requires Recounted(st) && a in st.accounts && st.accounts[a].proxy != NO_PROXY
    ensures Without(st.votes, a) == st.votes
    ensures st.accounts[a].votedFor == 0
  {
    assert VotedBy(st, a) == {};
  }

  predicate ProxyAllowed(accounts: Accounts, a: Name, p: Name)
  {
    && a in accounts && p != a && accounts[a].proxy != p && accounts[a].canVote
    && (p == NO_PROXY || (p in accounts && ChainFits(accounts, p, {a, p})))
  }

  /** Clearing a proxy. */
  lemma ClearProxyKeeps(st: State, a: Name)
    requires Inv(st) && a in st.accounts && st.accounts[a].proxy != NO_PROXY && st.accounts[a].canVote
    ensures SetProxy(st, a, NO_PROXY) == Ok(Leave(st, a))
  {
    LeavePasses(st, a);
    NothingToClear(st, a);
    OwnSlots(st.accounts, a, Neg(Full(st.accounts[a])));
  }

  lemma LeftChainFits(st: State, a: Name, p: Name)
    requires Recounted(st) && a in st.accounts
    ensures var left := Propagate(st, a, Neg(Full(st.accounts[a])));
            ChainFits(left.accounts, p, {a, p}) == ChainFits(st.accounts, p, {a, p})
  {
    FitsAgree(st.accounts, Propagate(st, a, Neg(Full(st.accounts[a]))).accounts, p, {a, p});
  }

  lemma FitsApart(st: State, a: Name, p: Name, k: nat)
    requires Recounted(st) && a in st.accounts && p in st.accounts && p != a
    requires ChainFits(st.accounts, p, {a, p})
    ensures Hop(Leave(st, a).accounts, p, k) != a
  {
    LeaveShape(st, a);
    FitsAvoids(st.accounts, p, {a, p}, a, k);
    HopAgree(Leave(st, a).accounts, Detach(st.accounts, a), p, k);
    DetachHop(st.accounts, a, p, k);
  }

  /** Joining a chain passes the assertions and keeps the invariant. */
  lemma JoinKeeps(apart: State, joined: State, a: Name, p: Name)
    requires Inv(apart) && a in apart.accounts && p in apart.accounts
    requires apart.accounts[a].proxy == NO_PROXY && VotedBy(apart, a) == {}
    requires joined == WithAccount(apart, a, apart.accounts[a].(proxy := p))
    requires forall k: nat :: Hop(apart.accounts, p, k) != a
    ensures WellFormed(joined.accounts)
    ensures Adjust(joined, a, Full(apart.accounts[a])).Ok?
    ensures Inv(Adjust(joined, a, Full(apart.accounts[a])).value)
  {
    JoinRecounted(apart, joined, a, p);
    var next := Propagate(joined, a, Full(apart.accounts[a]));
    RecountedAffordable(next);
    AdjustPasses(joined, a, Full(apart.accounts[a]), next);
    AffordableInStep(joined, a, Full(apart.accounts[a]), next);
    CoreOf(next);
  }

  lemma SetNewProxyKeeps(st: State, a: Name, p: Name)
    requires Inv(st) && ProxyAllowed(st.accounts, a, p) && p != NO_PROXY
    ensures SetProxy(st, a, p).Ok? && Inv(SetProxy(st, a, p).value)
  {
    LeavePasses(st, a);
    LeaveRecounted(st, a);
    LeftChainFits(st, a, p);
    LeaveShape(st, a);
    var left := Leave(st, a);
    forall k: nat ensures Hop(left.accounts, p, k) != a { FitsApart(st, a, p, k); }
    var joined := WithAccount(left, a, left.accounts[a].(proxy := p));
    JoinKeeps(left, joined, a, p);
    SetProxyJoins(st, a, p, joined);
  }

  lemma SetProxyJoins(st: State, a: Name, p: Name, joined: State)
    requires WellFormed(st.accounts) && ProxyAllowed(st.accounts, a, p) && p != NO_PROXY
    requires Adjust(st, a, Neg(Full(st.accounts[a]))) == Ok(Propagate(st, a, Neg(Full(st.accounts[a]))))
    requires ChainFits(Propagate(st, a, Neg(Full(st.accounts[a]))).accounts, p, {a, p})
    requires joined == WithAccount(Leave(st, a), a, Leave(st, a).accounts[a].(proxy := p))
    requires WellFormed(joined.accounts)
    ensures SetProxy(st, a, p) == Adjust(joined, a, Full(st.accounts[a]))
  {
    hide Propagate, Adjust;
    var left := Propagate(st, a, Neg(Full(st.accounts[a])));
    var cleared := ClearVotes(left, a);
    assert WithAccount(cleared, a, cleared.accounts[a].(proxy := p)) == joined;
  }

  /** Setting or clearing a proxy succeeds exactly when its own conditions hold. */
  lemma SetProxyKeeps(st: State, a: Name, p: Name)
    requires Inv(st)
    ensures SetProxy(st, a, p).Ok? <==> ProxyAllowed(st.accounts, a, p)
    ensures SetProxy(st, a, p).Ok? ==> Inv(SetProxy(st, a, p).value)
  {
    if ProxyAllowed(st.accounts, a, p) {
      if p == NO_PROXY {
        ClearProxyKeeps(st, a);
        LeavePasses(st, a);
      } else {
        SetNewProxyKeeps(st, a, p);
      }
    } else if a in st.accounts && p != a && st.accounts[a].proxy != p && st.accounts[a].canVote {
      LeftChainFits(st, a, p);
    }
  }

  /** Declining voting rights always goes through for an existing account. */
  lemma DeclineKeeps(st: State, a: Name)
    requires Inv(st)
    ensures DeclineVoting(st, a).Ok? <==> a in st.accounts
    ensures DeclineVoting(st, a).Ok? ==> Inv(DeclineVoting(st, a).value)
  {
    if a in st.accounts {
      LeavePasses(st, a);
      var left := Leave(st, a);
      DeclineLeaves(st, a);
      VoteRightsOnly(left, left.(accounts := left.accounts[a := left.accounts[a].(canVote := false)]), a);
    }
  }

  lemma DeclineLeaves(st: State, a: Name)
    requires WellFormed(st.accounts) && a in st.accounts
    requires Adjust(st, a, Neg(Full(st.accounts[a]))) == Ok(Propagate(st, a, Neg(Full(st.accounts[a]))))
    ensures var left := Leave(st, a);
            DeclineVoting(st, a) == Ok(left.(accounts := left.accounts[a := left.accounts[a].(canVote := false)]))
  {
    hide Propagate;
    var left := Leave(st, a);
    var declined := DeclineVoting(st, a).value;
    assert declined.accounts == left.accounts[a := left.accounts[a].(canVote := false)];
  }

  /** Voting rights play no part in the recount. */
  lemma VoteRightsOnly(st: State, next: State, a: Name)
    requires Inv(st) && a in st.accounts
    requires next == st.(accounts := st.accounts[a := st.accounts[a].(canVote := false)])
    ensures Inv(next)
  {
    hide Hop, Below, VotedBy;
    SameParentsAcyclic(st.accounts, next.accounts);
    CountedCopy(st.accounts, next.accounts);
    SameVotesCounted(st, next);
    forall w | w in next.witnesses ensures next.witnesses[w].votes == Tally(next, w) {
      TallyAgree(st, next, w);
    }
    TotalAgree(st.accounts, next.accounts);
  }

  lemma CountedCopy(a: Accounts, b: Accounts)
    requires WellFormed(a) && WellFormed(b) && Counted(a) && a.Keys == b.Keys
    requires forall x :: x in a ==> a[x].proxy == b[x].proxy && a[x].vests == b[x].vests && a[x].proxied == b[x].proxied
    ensures Counted(b)
  {
    CountedAgree(a, b);
  }

  // ----- votes -----

  predicate VoteAllowed(st: State, a: Name, w: Name, approve: bool)
  {
    && a in st.accounts && st.accounts[a].proxy == NO_PROXY && w in st.witnesses
    && (approve ==> st.accounts[a].canVote && (a, w) !in st.votes && st.accounts[a].votedFor < MAX_ACCOUNT_VOTES)
    && (!approve ==> (a, w) in st.votes)
  }

  /** The state with one vote record added or removed, before any assertion. */
  function Voted(st: State, a: Name, w: Name, add: bool): State
    requires a in st.accounts && w in st.witnesses
  {
    var weight := Weight(st.accounts[a]);
    st.(accounts := st.accounts[a := st.accounts[a].(votedFor := st.accounts[a].votedFor + if add then 1 else -1)],
        witnesses := st.witnesses[w := AdjustWitness(st.witnesses[w], if add then weight else -weight, st.now)],
        votes := if add then st.votes + {(a, w)} else st.votes - {(a, w)})
  }

  lemma VotedCount(st: State, a: Name, w: Name, add: bool)
    requires VotesCounted(st) && a in st.accounts && w in st.witnesses
    requires add <==> (a, w) !in st.votes
    ensures VotesCounted(Voted(st, a, w, add))
  {
    var next := Voted(st, a, w, add);
    forall x | x in next.accounts ensures next.accounts[x].votedFor == |VotedBy(next, x)| {
      if x == a {
        if add {
          assert VotedBy(next, x) == VotedBy(st, x) + {w};
          assert w !in VotedBy(st, x);
        } else {
          assert VotedBy(next, x) == VotedBy(st, x) - {w};
          assert (a, w).1 in VotedBy(st, x);
        }
      } else {
        assert VotedBy(next, x) == VotedBy(st, x);
      }
    }
  }

  lemma VotedTallied(st: State, a: Name, w: Name, add: bool)
    requires Tallied(st) && a in st.accounts && w in st.witnesses
    requires add <==> (a, w) !in st.votes
    ensures Tallied(Voted(st, a, w, add))
  {
    var next := Voted(st, a, w, add);
    forall u | u in next.witnesses ensures next.witnesses[u].votes == Tally(next, u) {
      if u == w {
        TallyUpdate(st, next, w, a);
      } else {
        TallyAgree(st, next, u);
      }
    }
  }

  lemma VotedRecounted(st: State, a: Name, w: Name, add: bool)
    requires Recounted(st) && a in st.accounts && w in st.witnesses && st.accounts[a].proxy == NO_PROXY
    requires add <==> (a, w) !in st.votes
    ensures Recounted(Voted(st, a, w, add))
    ensures TotalVests(Voted(st, a, w, add).accounts) == TotalVests(st.accounts)
  {
    hide Hop, Below, Tally, VotedBy;
    var next := Voted(st, a, w, add);
    SameParentsAcyclic(st.accounts, next.accounts);
    CountedCopy(st.accounts, next.accounts);
    VotedCount(st, a, w, add);
    VotedTallied(st, a, w, add);
    TotalAgree(st.accounts, next.accounts);
  }

  lemma VotedKeeps(st: State, a: Name, w: Name, add: bool)
    requires Inv(st) && a in st.accounts && w in st.witnesses && st.accounts[a].proxy == NO_PROXY
    requires add <==> (a, w) !in st.votes
    ensures var next := Voted(st, a, w, add);
            Inv(next) && next.witnesses[w].votes <= st.totalVests && Wrap(next.witnesses[w].votes + 1) != 0
  {
    hide Tally, Hop, Below, VotedBy;
    var next := Voted(st, a, w, add);
    VotedRecounted(st, a, w, add);
    RecountedAffordable(next);
    AdjustVotesInStep(st.witnesses[w], next.witnesses[w].votes - st.witnesses[w].votes, st.now);
    CoreOf(next);
  }

  /** A vote succeeds exactly when its own conditions hold. */
  lemma CastVoteKeeps(st: State, a: Name, w: Name, approve: bool)
    requires Inv(st)
    ensures CastVote(st, a, w, approve).Ok? <==> VoteAllowed(st, a, w, approve)
    ensures CastVote(st, a, w, approve).Ok? ==> Inv(CastVote(st, a, w, approve).value)
  {
    if VoteAllowed(st, a, w, approve) {
      VotedKeeps(st, a, w, approve);
      CastVoteIs(st, a, w, approve);
    }
  }

  lemma CastVoteIs(st: State, a: Name, w: Name, approve: bool)
    requires WellFormed(st.accounts) && VoteAllowed(st, a, w, approve)
    requires var next := Voted(st, a, w, approve);
             next.witnesses[w].votes <= st.totalVests && Wrap(next.witnesses[w].votes + 1) != 0
    ensures CastVote(st, a, w, approve) == Ok(Voted(st, a, w, approve))
  {
  }

  // ----- vesting shares -----

  lemma DepositKeeps(st: State, a: Name, amount: nat)
    requires Inv(st)
    ensures Deposit(st, a, amount).Ok? <==> a in st.accounts && st.totalVests + amount <= MAX_SHARES
    ensures Deposit(st, a, amount).Ok? ==> Inv(Deposit(st, a, amount).value)
  {
    hide Adjust, Hop, Below, VotedBy, Tally;
    if a in st.accounts && st.totalVests + amount <= MAX_SHARES {
      var raised := st.(totalVests := st.totalVests + amount);
      RaisedCore(st, raised);
      ChangeVestsKeeps(raised, a, amount);
      DepositPasses(raised, a, amount);
    }
  }

  lemma DepositPasses(st: State, a: Name, amount: nat)
    requires Core(st) && a in st.accounts && TotalVests(st.accounts) + amount == st.totalVests
    ensures ChangeVests(st, a, amount).Ok?
  {
    hide Adjust, Hop, Below, VotedBy;
    var changed := WithAccount(st, a, st.accounts[a].(vests := st.accounts[a].vests + amount));
    ChangedRecounted(st, changed, a, amount);
    var next := Propagate(changed, a, Only(amount));
    RecountedAffordable(next);
    AdjustPasses(changed, a, Only(amount), next);
  }

  lemma RaisedCore(st: State, raised: State)
    requires Core(st) && raised == st.(totalVests := raised.totalVests) && 0 <= raised.totalVests <= MAX_SHARES
    ensures Core(raised)
  {
    SameVotesCounted(st, raised);
    forall w | w in raised.witnesses ensures raised.witnesses[w].votes == Tally(raised, w) {
      TallyAgree(st, raised, w);
    }
  }

  lemma {:induction false} PayRoutesKeeps(st: State, routes: seq<(Name, nat)>)
    requires Core(st)
    ensures match PayRoutes(st, routes)
            case Ok(next) =>
              && Core(next) && next.totalVests == st.totalVests
              && TotalVests(next.accounts) == TotalVests(st.accounts) + RouteTotal(routes)
            case Aborted => true
    decreases |routes|
  {
    if routes != [] {
      ChangeVestsKeeps(st, routes[0].0, routes[0].1);
      match ChangeVests(st, routes[0].0, routes[0].1)
      case Ok(paid) => PayRoutesKeeps(paid, routes[1..]);
      case Aborted =>
    }
  }

  /** A power-down interval keeps the invariant whenever none of its assertions fails. */
  lemma PowerDownKeeps(st: State, a: Name, routes: seq<(Name, nat)>, sold: nat)
    requires Inv(st)
    ensures PowerDown(st, a, routes, sold).Ok? ==> Inv(PowerDown(st, a, routes, sold).value)
  {
    hide ChangeVests, Adjust, WellFormed, Acyclic, Counted, NonNegative, VotersSound, VotesCounted, Tallied, AllInStep,
         TotalVests, PayRoutes;
    if PowerDown(st, a, routes, sold).Ok? {
      PayRoutesKeeps(st, routes);
      ChargeKeeps(PayRoutes(st, routes).value, a, RouteTotal(routes), sold);
    }
  }

  lemma ChargeKeeps(paid: State, a: Name, routed: nat, sold: nat)
    requires Core(paid) && TotalVests(paid.accounts) == paid.totalVests + routed && sold <= paid.totalVests
    ensures match ChangeVests(paid.(totalVests := paid.totalVests - sold), a, -(routed + sold))
            case Ok(next) => Inv(next)
            case Aborted => true
  {
    hide ChangeVests;
    var lowered := paid.(totalVests := paid.totalVests - sold);
    RaisedCore(paid, lowered);
    ChangeVestsKeeps(lowered, a, -(routed + sold));
  }

  // ----- the null account -----

  lemma {:induction false} RootBelow(accounts: Accounts, cleared: Accounts, a: Name, x: Name, k: nat)
    requires WellFormed(accounts) && a in accounts && x in accounts && k >= 1 && accounts[a].proxy == NO_PROXY
    requires cleared == accounts[a := accounts[a].(vests := 0)]
    ensures Below(cleared, x, k) == Below(accounts, x, k)
  {
    VestsBelow(accounts, cleared, a, -accounts[a].vests, x, k);
    HopOfNone(cleared, k - 1);
  }

  lemma ClearedCounted(accounts: Accounts, cleared: Accounts, a: Name)
    requires WellFormed(accounts) && Counted(accounts) && a in accounts && accounts[a].proxy == NO_PROXY
    requires cleared == accounts[a := accounts[a].(vests := 0)]
    ensures WellFormed(cleared) && Counted(cleared)
  {
    forall x, j | x in cleared && 0 <= j < MAX_DEPTH ensures cleared[x].proxied[j] == Below(cleared, x, j + 1) {
      RootBelow(accounts, cleared, a, x, j + 1);
    }
  }

  /** Shares that vote for nobody and are proxied to nobody can go without any vote being adjusted. */
  lemma ClearVestsKeeps(st: State, a: Name)
    requires Inv(st) && a in st.accounts && st.accounts[a].proxy == NO_PROXY && VotedBy(st, a) == {}
    ensures ClearVests(st, a).Ok? && Inv(ClearVests(st, a).value)
  {
    hide Hop, Below, VotedBy, Tally;
    TotalAtLeast(st.accounts, a);
    var next := ClearVests(st, a).value;
    SameParentsAcyclic(st.accounts, next.accounts);
    ClearedCounted(st.accounts, next.accounts, a);
    SameVotesCounted(st, next);
    ClearedTallied(st, next, a);
    VestsTotal(st.accounts, a, next.accounts[a]);
  }

  lemma TotalAtLeast(accounts: Accounts, a: Name)
    requires a in accounts && NonNegative(accounts)
    ensures accounts[a].vests <= TotalVests(accounts)
  {
    SumAtLeast(accounts.Keys, a, x => Vests(accounts, x));
  }

  lemma ClearedTallied(st: State, next: State, a: Name)
    requires Tallied(st) && a in st.accounts && VotedBy(st, a) == {}
    requires next == WithAccount(st, a, st.accounts[a].(vests := 0)).(totalVests := next.totalVests)
    ensures Tallied(next)
  {
    forall w ensures (a, w) !in st.votes { assert (a, w) in st.votes ==> (a, w).1 in VotedBy(st, a); }
    forall w | w in next.witnesses ensures next.witnesses[w].votes == Tally(next, w) { TallyAgree(st, next, w); }
  }

  /** No step makes the null account vote. */
  lemma ApplyKeepsIdle(st: State, step: Step)
    requires Inv(st) && Idle(st)
    ensures Apply(st, step).Ok? ==> Idle(Apply(st, step).value)
  {
    hide Inv, Passed, PassTo, Credit, FindRoot, ChainFits, Advance, IsByFinish, Divisible;
    assert WellFormed(st.accounts) by { InvShape(st); }
    if Apply(st, step).Ok? {
      var next := Apply(st, step).value;
      StepLeavesNull(st, step);
      assert VotedBy(next, NULL_ACCOUNT) == VotedBy(st, NULL_ACCOUNT);
    }
  }

  lemma InvShape(st: State)
    requires Inv(st)
    ensures WellFormed(st.accounts) && VotersSound(st)
  {
  }

  /** The proxy and the votes of the null account are not touched by any step. */
  ghost predicate NullAlone(st: State, next: State)
  {
    && (NULL_ACCOUNT in st.accounts ==> NULL_ACCOUNT in next.accounts
                                        && next.accounts[NULL_ACCOUNT].proxy == st.accounts[NULL_ACCOUNT].proxy)
    && (NULL_ACCOUNT !in st.accounts && NULL_ACCOUNT in next.accounts ==> next.accounts[NULL_ACCOUNT].proxy == NO_PROXY)
    && forall w :: (NULL_ACCOUNT, w) in next.votes <==> (NULL_ACCOUNT, w) in st.votes
  }

  lemma AdjustLeavesNull(st: State, a: Name, delta: seq<int>)
    requires WellFormed(st.accounts) && a in st.accounts && |delta| == MAX_DEPTH + 1
    ensures Adjust(st, a, delta).Ok? ==>
              var next := Adjust(st, a, delta).value; NullAlone(st, next) && next.votes == st.votes
  {
    hide Passed, PassTo, Credit;
  }

  lemma NullTwice(a: State, b: State, c: State)
    requires NullAlone(a, b) && NullAlone(b, c)
    ensures NullAlone(a, c)
  {
  }

  /** A change of an account that keeps its proxy, or is not the null account. */
  lemma AccountLeavesNull(st: State, a: Name, account: Account)
    requires a in st.accounts && (a != NULL_ACCOUNT || account.proxy == st.accounts[a].proxy)
    ensures NullAlone(st, WithAccount(st, a, account))
  {
  }

  lemma VestsLeaveNull(st: State, a: Name, dv: int)
    requires WellFormed(st.accounts)
    ensures ChangeVests(st, a, dv).Ok? ==> NullAlone(st, ChangeVests(st, a, dv).value)
  {
    hide Adjust, Propagate, NullAlone, SameShape;
    if ChangeVests(st, a, dv).Ok? {
      var account := st.accounts[a].(vests := st.accounts[a].vests + dv);
      var changed := WithAccount(st, a, account);
      AccountLeavesNull(st, a, account);
      AdjustLeavesNull(changed, a, Only(dv));
      NullTwice(st, changed, ChangeVests(st, a, dv).value);
    }
  }

  lemma {:induction false} RoutesLeaveNull(st: State, routes: seq<(Name, nat)>)
    requires WellFormed(st.accounts)
    ensures PayRoutes(st, routes).Ok? ==> NullAlone(st, PayRoutes(st, routes).value)
    decreases |routes|
  {
    hide ChangeVests;
    if routes != [] {
      VestsLeaveNull(st, routes[0].0, routes[0].1);
      var paid := ChangeVests(st, routes[0].0, routes[0].1);
      if paid.Ok? { RoutesLeaveNull(paid.value, routes[1..]); }
    }
  }

  lemma ClearLeavesNull(st: State, a: Name)
    requires a in st.accounts && a != NULL_ACCOUNT
    ensures NullAlone(st, ClearVotes(st, a))
  {
  }

  lemma ProxyLeavesNull(st: State, a: Name, p: Name)
    requires WellFormed(st.accounts) && a != NULL_ACCOUNT
    ensures SetProxy(st, a, p).Ok? ==> NullAlone(st, SetProxy(st, a, p).value)
  {
    hide Adjust, Propagate, ChainFits, NullAlone;
    if SetProxy(st, a, p).Ok? {
      var full := Full(st.accounts[a]);
      AdjustLeavesNull(st, a, Neg(full));
      var left := Adjust(st, a, Neg(full)).value;
      if p == NO_PROXY {
        AccountLeavesNull(left, a, left.accounts[a].(proxy := p));
      } else {
        var cleared := ClearVotes(left, a);
        var joined := WithAccount(cleared, a, cleared.accounts[a].(proxy := p));
        ClearLeavesNull(left, a);
        AccountLeavesNull(cleared, a, cleared.accounts[a].(proxy := p));
        AdjustLeavesNull(joined, a, full);
        NullTwice(left, cleared, joined);
        NullTwice(left, joined, SetProxy(st, a, p).value);
      }
      NullTwice(st, left, SetProxy(st, a, p).value);
    }
  }

  lemma DeclineLeavesNull(st: State, a: Name)
    requires WellFormed(st.accounts) && a != NULL_ACCOUNT
    ensures DeclineVoting(st, a).Ok? ==> NullAlone(st, DeclineVoting(st, a).value)
  {
    hide Adjust, Propagate;
    if a in st.accounts { AdjustLeavesNull(st, a, Neg(Full(st.accounts[a]))); }
  }

  lemma PowerDownLeavesNull(st: State, a: Name, routes: seq<(Name, nat)>, sold: nat)
    requires WellFormed(st.accounts)
    ensures PowerDown(st, a, routes, sold).Ok? ==> NullAlone(st, PowerDown(st, a, routes, sold).value)
  {
    hide ChangeVests, PayRoutes;
    RoutesLeaveNull(st, routes);
    var paid := PayRoutes(st, routes);
    if paid.Ok? {
      VestsLeaveNull(paid.value.(totalVests := paid.value.totalVests - sold), a, -(RouteTotal(routes) + sold));
    }
  }

  lemma StepLeavesNull(st: State, step: Step)
    requires WellFormed(st.accounts) && Apply(st, step).Ok?
    ensures NullAlone(st, Apply(st, step).value)
  {
    hide SetProxy, DeclineVoting, ChangeVests, PowerDown, AdjustWitness, Advance, IsByFinish, Divisible;
    match step
    case ProxyStep(a, p) => ProxyLeavesNull(st, a, p);
    case DeclineStep(a) => DeclineLeavesNull(st, a);
    case DepositStep(a, amount) => VestsLeaveNull(st.(totalVests := st.totalVests + amount), a, amount);
    case PowerDownStep(a, routes, sold) => PowerDownLeavesNull(st, a, routes, sold);
    case _ =>
  }

  // ----- accounts, witnesses and schedules -----

  lemma {:induction false} NewHop(accounts: Accounts, a: Name, x: Name, k: nat)
    requires WellFormed(accounts) && a !in accounts && a != NO_PROXY
    requires x in accounts || x == NO_PROXY
    ensures Hop(accounts, x, k) in accounts || Hop(accounts, x, k) == NO_PROXY
    decreases k
  {
    if k > 0 { NewHop(accounts, a, Parent(accounts, x), k - 1); }
  }

  lemma NewBelow(accounts: Accounts, wider: Accounts, a: Name, x: Name, k: nat)
    requires WellFormed(accounts) && a !in accounts && a != NO_PROXY && k >= 1
    requires wider.Keys == accounts.Keys + {a}
    requires forall y :: y in accounts ==> wider[y] == accounts[y]
    requires wider[a].vests == 0 && wider[a].proxy == NO_PROXY
    ensures x in accounts ==> Below(wider, x, k) == Below(accounts, x, k)
    ensures x == a ==> Below(wider, x, k) == 0
  {
    var f := y => On(accounts, x, k, y, Vests(accounts, y));
    var g := y => On(wider, x, k, y, Vests(wider, y));
    forall y | y in accounts ensures f(y) == g(y) {
      HopAgree(accounts, wider, y, k);
    }
    SumInsert(accounts.Keys, a, g);
    if x == a {
      forall y | y in accounts ensures g(y) == 0 {
        HopAgree(accounts, wider, y, k);
        NewHop(accounts, a, y, k);
      }
      SumZero(accounts.Keys, g);
    } else {
      SumExt(accounts.Keys, f, g);
    }
  }

  lemma NewCounted(accounts: Accounts, wider: Accounts, a: Name)
    requires WellFormed(accounts) && Counted(accounts) && a !in accounts && a != NO_PROXY
    requires wider == accounts[a := Account(0, NO_PROXY, [0, 0, 0, 0], true, 0)]
    ensures WellFormed(wider) && Counted(wider)
    ensures TotalVests(wider) == TotalVests(accounts)
  {
    forall x, j | x in wider && 0 <= j < MAX_DEPTH ensures wider[x].proxied[j] == Below(wider, x, j + 1) {
      NewBelow(accounts, wider, a, x, j + 1);
    }
    assert wider.Keys == accounts.Keys + {a};
    SumInsert(accounts.Keys, a, y => Vests(wider, y));
    SumExt(accounts.Keys, y => Vests(accounts, y), y => Vests(wider, y));
  }

  lemma NewAcyclic(accounts: Accounts, wider: Accounts, a: Name)
    requires WellFormed(accounts) && Acyclic(accounts) && a !in accounts && a != NO_PROXY
    requires wider == accounts[a := Account(0, NO_PROXY, [0, 0, 0, 0], true, 0)]
    ensures Acyclic(wider)
  {
    forall x, k: nat | x in wider && k >= 1 ensures Hop(wider, x, k) != x {
      HopAgree(accounts, wider, x, k);
      if x == a { HopOfNone(accounts, k - 1); }
    }
  }

  lemma NewTally(st: State, next: State, a: Name, w: Name)
    requires a !in st.accounts && VotersSound(st)
    requires next.accounts.Keys == st.accounts.Keys + {a} && next.votes == st.votes
    requires forall x :: x in st.accounts ==> next.accounts[x] == st.accounts[x]
    ensures Tally(next, w) == Tally(st, w)
  {
    SumInsert(st.accounts.Keys, a, x => TallyTerm(next, w, x));
    SumExt(st.accounts.Keys, x => TallyTerm(st, w, x), x => TallyTerm(next, w, x));
  }

  lemma NewVotesCounted(st: State, next: State, a: Name)
    requires a !in st.accounts && VotersSound(st) && VotesCounted(st)
    requires next.accounts.Keys == st.accounts.Keys + {a} && next.votes == st.votes
    requires forall x :: x in st.accounts ==> next.accounts[x] == st.accounts[x]
    requires next.accounts[a].votedFor == 0
    ensures VotesCounted(next)
  {
    forall x | x in next.accounts ensures next.accounts[x].votedFor == |VotedBy(next, x)| {
      if x == a { assert VotedBy(next, x) == {}; } else { assert VotedBy(next, x) == VotedBy(st, x); }
    }
  }

  lemma NewRest(st: State, next: State, a: Name)
    requires NonNegative(st.accounts) && VotersSound(st) && a !in st.accounts
    requires next == WithAccount(st, a, Account(0, NO_PROXY, [0, 0, 0, 0], true, 0))
    ensures NonNegative(next.accounts) && VotersSound(next)
  {
  }

  lemma CreateAccountKeeps(st: State, a: Name)
    requires Inv(st)
    ensures CreateAccount(st, a).Ok? ==> Inv(CreateAccount(st, a).value)
  {
    hide WellFormed, Acyclic, Counted, NonNegative, VotersSound, VotesCounted, Tallied, AllInStep, TotalVests;
    if CreateAccount(st, a).Ok? {
      var next := CreateAccount(st, a).value;
      NewRest(st, next, a);
      NewCounted(st.accounts, next.accounts, a);
      NewAcyclic(st.accounts, next.accounts, a);
      NewVotesCounted(st, next, a);
      NewTallied(st, next, a);
    }
  }

  lemma NewTallied(st: State, next: State, a: Name)
    requires a !in st.accounts && VotersSound(st) && Tallied(st)
    requires next.accounts.Keys == st.accounts.Keys + {a} && next.votes == st.votes && next.witnesses == st.witnesses
    requires forall x :: x in st.accounts ==> next.accounts[x] == st.accounts[x]
    ensures Tallied(next)
  {
    forall w | w in next.witnesses ensures next.witnesses[w].votes == Tally(next, w) {
      NewTally(st, next, a, w);
    }
  }

  lemma SameTablesCore(st: State, next: State)
    requires Inv(st)
    requires next.accounts == st.accounts && next.votes == st.votes && next.totalVests == st.totalVests
    requires st.witnesses.Keys <= next.witnesses.Keys
    requires forall w :: w in st.witnesses ==> next.witnesses[w].votes == st.witnesses[w].votes
    requires forall w :: w in next.witnesses && w !in st.witnesses ==> next.witnesses[w].votes == 0
    requires AllInStep(next.witnesses, next.now) && next.now <= MAX128
    ensures Inv(next)
  {
    SameVotesCounted(st, next);
    forall w | w in next.witnesses ensures next.witnesses[w].votes == Tally(next, w) {
      TallyAgree(st, next, w);
      if w !in st.witnesses {
        SumZero(st.accounts.Keys, x => TallyTerm(next, w, x));
      }
    }
  }

  lemma UpdateWitnessKeeps(st: State, w: Name, hasKey: bool)
    requires Inv(st)
    ensures UpdateWitness(st, w, hasKey).Ok? ==> Inv(UpdateWitness(st, w, hasKey).value)
  {
    hide Hop, Below, Tally, VotedBy;
    if UpdateWitness(st, w, hasKey).Ok? {
      FreshInStep(hasKey, st.now);
      SameTablesCore(st, UpdateWitness(st, w, hasKey).value);
    }
  }

  lemma RescheduleKeeps(st: State, order: seq<Name>, count: nat)
    requires Inv(st)
    ensures Reschedule(st, order, count).Ok? ==> Inv(Reschedule(st, order, count).value)
  {
    if Reschedule(st, order, count).Ok? {
      AdvanceInStep(st.witnesses, order, count, st.now);
      SameTablesCore(st, Reschedule(st, order, count).value);
    }
  }

  /** What a schedule update does to the witnesses; it is refused for an order that is not that of the race. */
  lemma RescheduleRaces(st: State, order: seq<Name>, count: nat)
    requires Inv(st)
    ensures Reschedule(st, order, count).Ok? <==> count <= |order| && ByFinish(st.witnesses, order)
    ensures Reschedule(st, order, count).Ok? ==>
              var after, done := Reschedule(st, order, count).value, order[..count];
              && after == st.(witnesses := after.witnesses, now := after.now)
              && Raced(st.witnesses, after.witnesses, done, LastFinish(st.witnesses, done, st.now), after.now)
              && forall n :: n in st.witnesses ==> after.witnesses[n].kind == st.witnesses[n].kind
  {
    hide Advance, AllInStep, Divisible, Raced;
    InStepDivisible(st.witnesses, st.now);
    if Reschedule(st, order, count).Ok? { AdvanceInStep(st.witnesses, order, count, st.now); }
  }

  // ----- runs -----

  lemma ApplyKeepsInv(st: State, step: Step)
    requires Inv(st) && Idle(st)
    ensures Apply(st, step).Ok? ==> Inv(Apply(st, step).value)
  {
    match step
    case ProxyStep(a, p) => SetProxyKeeps(st, a, p);
    case VoteStep(a, w, approve) => CastVoteKeeps(st, a, w, approve);
    case DeclineStep(a) => DeclineKeeps(st, a);
    case DepositStep(a, amount) => DepositKeeps(st, a, amount);
    case PowerDownStep(a, routes, sold) => PowerDownKeeps(st, a, routes, sold);
    case AccountStep(a) => CreateAccountKeeps(st, a);
    case WitnessStep(w, hasKey) => UpdateWitnessKeeps(st, w, hasKey);
    case ScheduleStep(order, count) => RescheduleKeeps(st, order, count);
    case ClearNullStep => if NULL_ACCOUNT in st.accounts { ClearVestsKeeps(st, NULL_ACCOUNT); }
  }

  const Genesis: State := State(map[], {}, map[], 0, 0)

  lemma GenesisInv()
    ensures Inv(Genesis) && Idle(Genesis)
  {
  }

  /** `runs` to `last` from `first`: an aborted step leaves the state as it was. */
  ghost predicate Runs(first: State, steps: seq<Step>, last: State)
    decreases |steps|
  {
    if steps == [] then last == first
    else
      && WellFormed(first.accounts)
      && match Apply(first, steps[0])
         case Ok(next) => Runs(next, steps[1..], last)
         case Aborted => Runs(first, steps[1..], last)
  }

  lemma {:induction false} RunKeepsInv(first: State, steps: seq<Step>, last: State)
    requires Inv(first) && Idle(first) && Runs(first, steps, last)
    ensures Inv(last) && Idle(last)
    decreases |steps|
  {
    if steps != [] {
      ApplyKeepsInv(first, steps[0]);
      ApplyKeepsIdle(first, steps[0]);
      match Apply(first, steps[0])
      case Ok(next) => RunKeepsInv(next, steps[1..], last);
      case Aborted => RunKeepsInv(first, steps[1..], last);
    }
  }

  /** What the invariant promises after any run from genesis, spelled out. */
  lemma RunFromGenesis(steps: seq<Step>, last: State)
    requires Runs(Genesis, steps, last)
    ensures WellFormed(last.accounts) && Counted(last.accounts)
    ensures forall x, w :: x in last.accounts && last.accounts[x].proxy != NO_PROXY ==> (x, w) !in last.votes
    ensures forall w :: w in last.witnesses ==>
              && 0 <= last.witnesses[w].votes == Tally(last, w) <= last.totalVests
              && InStep(last.witnesses[w], last.now)
              && last.witnesses[w].position + last.witnesses[w].votes * (last.now - last.witnesses[w].lastUpdate) <= LAP
    ensures Acyclic(last.accounts)
    ensures CoverTotal(last.accounts) == last.totalVests
  {
    hide Inv, Runs, Hop, VotedBy, Below, Tally, InStep, Acyclic, Counted, WellFormed;
    GenesisInv();
    RunKeepsInv(Genesis, steps, last);
    InvRecount(last);
    InvRace(last);
    EveryShareCounted(last);
  }

  lemma InvRecount(last: State)
    requires Inv(last)
    ensures WellFormed(last.accounts) && Counted(last.accounts) && Acyclic(last.accounts)
    ensures forall x, w :: x in last.accounts && last.accounts[x].proxy != NO_PROXY ==> (x, w) !in last.votes
  {
    hide Below, Acyclic, AllInStep, Tallied, VotesCounted, TotalVests;
  }

  lemma InvRace(last: State)
    requires Inv(last)
    ensures forall w :: w in last.witnesses ==>
              && 0 <= last.witnesses[w].votes == Tally(last, w) <= last.totalVests
              && InStep(last.witnesses[w], last.now)
              && last.witnesses[w].position + last.witnesses[w].votes * (last.now - last.witnesses[w].lastUpdate) <= LAP
  {
    hide Below, Acyclic, Counted, WellFormed, VotesCounted, VotersSound, TotalVests, NonNegative, InStep, Tally;
    RecountedAffordable(last);
    forall w | w in last.witnesses
      ensures last.witnesses[w].position + last.witnesses[w].votes * (last.now - last.witnesses[w].lastUpdate) <= LAP
    {
      PositionBound(last.witnesses[w], last.now);
    }
  }

  lemma EveryShareCounted(last: State)
    requires Inv(last)
    ensures CoverTotal(last.accounts) == last.totalVests
  {
    hide Hop, Below, Tally, VotedBy;
    EveryShareOnce(last.accounts);
  }
}
