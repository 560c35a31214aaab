/** Every operation of `Voting` keeps the recount, and so does every run. */
module VotingProofs {
  import opened Common
  import opened Sums
  import opened VirtualTime
  import opened ProxyForest
  import opened VoteCover
  import opened Voting

  // ----- vote totals -----

  lemma TallyAgree(a: State, b: State, w: Name)
    requires a.accounts.Keys == b.accounts.Keys
    requires forall x :: x in a.accounts ==> TallyTerm(a, w, x) == TallyTerm(b, w, x)
    ensures Tally(a, w) == Tally(b, w)
  {
    SumExt(a.accounts.Keys, x => TallyTerm(a, w, x), x => TallyTerm(b, w, x));
  }

  /** Two states whose tallies differ in one voter only. */
  lemma TallyUpdate(a: State, b: State, w: Name, v: Name)
    requires a.accounts.Keys == b.accounts.Keys && v in a.accounts
    requires forall x :: x in a.accounts && x != v ==> TallyTerm(a, w, x) == TallyTerm(b, w, x)
    ensures Tally(b, w) == Tally(a, w) + TallyTerm(b, w, v) - TallyTerm(a, w, v)
  {
    SumUpdate(a.accounts.Keys, v, x => TallyTerm(a, w, x), x => TallyTerm(b, w, x));
  }

  /** What propagation does to the votes of one witness. */
  lemma VotesAfter(st: State, a: Name, delta: seq<int>, w: Name)
    requires WellFormed(st.accounts)
    requires a in st.accounts && w in st.witnesses && |delta| == MAX_DEPTH + 1
    ensures Propagate(st, a, delta).witnesses[w].votes == st.witnesses[w].votes +
            match FindRoot(st.accounts, a, 0)
            case Root(r, d) => if (r, w) in st.votes then Take(delta, MAX_DEPTH + 1 - d) else 0
            case TooDeep => 0
  {
    hide Credit, Wrap;
  }

  /** What propagation does to the tally term of a voter above the account it started from. */
  lemma TermAfter(st: State, a: Name, delta: seq<int>, w: Name, x: Name)
    requires WellFormed(st.accounts) && VotersSound(st)
    requires a in st.accounts && x in st.accounts && |delta| == MAX_DEPTH + 1
    requires st.accounts[a].proxy != NO_PROXY
    ensures TallyTerm(Propagate(st, a, delta), w, x) ==
            TallyTerm(st, w, x) + if (x, w) in st.votes then Gift(st.accounts, a, delta, 0, x) else 0
  {
    if (x, w) in st.votes {
      CreditWeight(st.accounts, a, delta, x);
      RootGain(st.accounts, a, delta, 0, x);
    }
  }

  lemma ProxiedTally(st: State, a: Name, delta: seq<int>, w: Name)
    requires WellFormed(st.accounts) && VotersSound(st)
    requires a in st.accounts && w in st.witnesses && |delta| == MAX_DEPTH + 1
    requires st.accounts[a].proxy != NO_PROXY
    ensures var next := Propagate(st, a, delta);
            next.witnesses[w].votes - st.witnesses[w].votes == Tally(next, w) - Tally(st, w)
  {
    var next := Propagate(st, a, delta);
    VotesAfter(st, a, delta, w);
    forall x | x in st.accounts
      ensures TallyTerm(next, w, x) ==
              TallyTerm(st, w, x) + if (x, w) in st.votes then Gift(st.accounts, a, delta, 0, x) else 0
    {
      TermAfter(st, a, delta, w, x);
    }
    match FindRoot(st.accounts, a, 0)
    case Root(r, d) =>
      TallyUpdate(st, next, w, r);
    case TooDeep =>
      TallyAgree(st, next, w);
  }

  lemma RootTally(st: State, a: Name, delta: seq<int>, w: Name)
    requires WellFormed(st.accounts)
    requires a in st.accounts && w in st.witnesses && |delta| == MAX_DEPTH + 1
    requires st.accounts[a].proxy == NO_PROXY
    ensures var next := Propagate(st, a, delta);
            && next.accounts == st.accounts
            && Tally(next, w) == Tally(st, w)
            && next.witnesses[w].votes - st.witnesses[w].votes ==
               if (a, w) in st.votes then Take(delta, MAX_DEPTH + 1) else 0
  {
    var next := Propagate(st, a, delta);
    TallyAgree(st, next, w);
  }

  lemma TallyNonNegative(st: State, w: Name)
    requires WellFormed(st.accounts) && Counted(st.accounts) && NonNegative(st.accounts)
    ensures 0 <= Tally(st, w)
  {
    forall x | x in st.accounts ensures 0 <= TallyTerm(st, w, x) {
      WeightNonNegative(st.accounts, x);
    }
    var f := x => TallyTerm(st, w, x);
    SumMonotone({}, st.accounts.Keys, f, f);
  }

  /** No witness can have more votes than there are vesting shares. */
  lemma TallyBound(st: State, w: Name)
    requires WellFormed(st.accounts) && Counted(st.accounts) && NonNegative(st.accounts)
    requires VotersSound(st)
    ensures 0 <= Tally(st, w) <= TotalVests(st.accounts)
  {
    TallyNonNegative(st, w);
    forall x | x in st.accounts
      ensures TallyTerm(st, w, x) <= CoverAt(st.accounts, x) && 0 <= CoverAt(st.accounts, x)
    {
      WeightNonNegative(st.accounts, x);
    }
    SumMonotone(st.accounts.Keys, st.accounts.Keys, x => TallyTerm(st, w, x), x => CoverAt(st.accounts, x));
    EveryShareOnce(st.accounts);
  }

  // ----- virtual time -----

  lemma PropagateInStep(st: State, a: Name, delta: seq<int>)
    requires WellFormed(st.accounts) && a in st.accounts && |delta| == MAX_DEPTH + 1
    requires AllInStep(st.witnesses, st.now)
    requires forall w :: w in st.witnesses ==> 0 <= Propagate(st, a, delta).witnesses[w].votes < MAX128
    ensures AllInStep(Propagate(st, a, delta).witnesses, st.now)
  {
    hide Credit, AdjustVotes;
    var next := Propagate(st, a, delta);
    forall w | w in next.witnesses ensures InStep(next.witnesses[w], st.now) {
      match FindRoot(st.accounts, a, 0)
      case Root(r, d) =>
        if (r, w) in st.votes {
          AdjustVotesInStep(st.witnesses[w], Take(delta, MAX_DEPTH + 1 - d), st.now);
        }
      case TooDeep =>
    }
  }

  lemma SmallVotesDivide(votes: int)
    requires 0 <= votes < MAX128
    ensures Wrap(votes + 1) != 0
  {
    WrapSmall(votes + 1);
  }

  // ----- a change of vesting shares -----

  lemma VestsSlot(accounts: Accounts, changed: Accounts, a: Name, dv: int, x: Name, j: nat)
    requires WellFormed(accounts) && a in accounts && x in accounts && j < MAX_DEPTH
    requires changed == accounts[a := accounts[a].(vests := accounts[a].vests + dv)]
    requires accounts[x].proxied[j] == Below(accounts, x, j + 1)
    ensures WellFormed(changed)
    ensures Credit(changed, a, Only(dv), 0)[x].proxied[j] == Below(changed, x, j + 1)
  {
    CreditSlot(changed, a, Only(dv), x, j);
    OnlyGain(changed, a, dv, x, j + 1);
    VestsBelow(accounts, changed, a, dv, x, j + 1);
  }

  lemma CountedAgree(a: Accounts, b: Accounts)
    requires WellFormed(b) && a.Keys == b.Keys
    requires forall x :: x in a ==> a[x].proxy == b[x].proxy && a[x].vests == b[x].vests
    requires forall x, j :: x in a && 0 <= j < MAX_DEPTH ==> b[x].proxied[j] == Below(a, x, j + 1)
    ensures Counted(b)
  {
    forall x, j | x in b && 0 <= j < MAX_DEPTH ensures b[x].proxied[j] == Below(b, x, j + 1) {
      BelowAgree(a, b, x, j + 1);
    }
  }

  lemma VestsCounted(accounts: Accounts, changed: Accounts, a: Name, dv: int)
    requires WellFormed(accounts) && Counted(accounts) && a in accounts
    requires changed == accounts[a := accounts[a].(vests := accounts[a].vests + dv)]
    ensures WellFormed(changed) && Counted(Credit(changed, a, Only(dv), 0))
  {
    var after := Credit(changed, a, Only(dv), 0);
    forall x, j | x in changed && 0 <= j < MAX_DEPTH
      ensures after[x].proxied[j] == Below(changed, x, j + 1)
    {
      VestsSlot(accounts, changed, a, dv, x, j);
    }
    CountedAgree(changed, after);
  }

  lemma SameParentsAcyclic(a: Accounts, b: Accounts)
    requires Acyclic(a) && a.Keys == b.Keys
    requires forall x :: Parent(a, x) == Parent(b, x)
    ensures Acyclic(b)
  {
    forall x, k: nat | x in b && k >= 1 ensures Hop(b, x, k) != x {
      HopAgree(a, b, x, k);
    }
  }

  lemma VestsTotal(accounts: Accounts, a: Name, account: Account)
    requires a in accounts
    ensures TotalVests(accounts[a := account]) == TotalVests(accounts) + account.vests - accounts[a].vests
  {
    var changed := accounts[a := account];
    assert changed.Keys == accounts.Keys;
    SumUpdate(accounts.Keys, a, x => Vests(accounts, x), x => Vests(changed, x));
  }

  lemma TotalAgree(a: Accounts, b: Accounts)
    requires a.Keys == b.Keys && forall x :: x in a ==> a[x].vests == b[x].vests
    ensures TotalVests(a) == TotalVests(b)
  {
    SumExt(a.Keys, x => Vests(a, x), x => Vests(b, x));
  }

  lemma VestsTallied(st: State, changed: State, a: Name, dv: int, w: Name)
    requires WellFormed(st.accounts) && VotersSound(st) && a in st.accounts && w in st.witnesses
    requires st.witnesses[w].votes == Tally(st, w)
    requires changed == WithAccount(st, a, st.accounts[a].(vests := st.accounts[a].vests + dv))
    ensures WellFormed(changed.accounts)
    ensures Propagate(changed, a, Only(dv)).witnesses[w].votes == Tally(Propagate(changed, a, Only(dv)), w)
  {
    TallyUpdate(st, changed, w, a);
    if st.accounts[a].proxy == NO_PROXY {
      RootTally(changed, a, Only(dv), w);
      OnlyTake(dv, MAX_DEPTH + 1);
    } else {
      ProxiedTally(changed, a, Only(dv), w);
    }
  }

  lemma VestsAllTallied(st: State, changed: State, a: Name, dv: int)
    requires WellFormed(st.accounts) && VotersSound(st) && a in st.accounts && Tallied(st)
    requires changed == WithAccount(st, a, st.accounts[a].(vests := st.accounts[a].vests + dv))
    ensures WellFormed(changed.accounts)
    ensures Tallied(Propagate(changed, a, Only(dv)))
  {
    hide Credit, FindRoot;
    var next := Propagate(changed, a, Only(dv));
    forall w | w in next.witnesses ensures next.witnesses[w].votes == Tally(next, w) {
      VestsTallied(st, changed, a, dv, w);
    }
  }

  lemma SameVotesCounted(a: State, b: State)
    requires VotesCounted(a) && a.votes == b.votes && a.accounts.Keys == b.accounts.Keys
    requires forall x :: x in a.accounts ==> a.accounts[x].votedFor == b.accounts[x].votedFor
    ensures VotesCounted(b)
  {
    forall x | x in b.accounts ensures b.accounts[x].votedFor == |VotedBy(b, x)| {
      assert VotedBy(a, x) == VotedBy(b, x);
    }
  }

  /** What `Core` says besides virtual time and bounds. */
  ghost predicate Recounted(st: State)
  {
    && WellFormed(st.accounts)
    && Acyclic(st.accounts)
    && Counted(st.accounts)
    && NonNegative(st.accounts)
    && VotersSound(st)
    && VotesCounted(st)
    && Tallied(st)
  }

  lemma ChangedRecounted(st: State, changed: State, a: Name, dv: int)
    requires Recounted(st) && a in st.accounts && 0 <= st.accounts[a].vests + dv
    requires changed == WithAccount(st, a, st.accounts[a].(vests := st.accounts[a].vests + dv))
    ensures WellFormed(changed.accounts)
    ensures Recounted(Propagate(changed, a, Only(dv)))
    ensures TotalVests(Propagate(changed, a, Only(dv)).accounts) == TotalVests(st.accounts) + dv
  {
    hide Hop, Below, Tally, VotedBy, Credit, FindRoot, WellFormed, Counted, Acyclic, VotesCounted;
    VestsCounted(st.accounts, changed.accounts, a, dv);
    var next := Propagate(changed, a, Only(dv));
    SameParentsAcyclic(st.accounts, next.accounts);
    SameVotesCounted(st, next);
    VestsAllTallied(st, changed, a, dv);
    VestsTotal(st.accounts, a, changed.accounts[a]);
    TotalAgree(changed.accounts, next.accounts);
  }

  lemma ChangeVestsKeeps(st: State, a: Name, dv: int)
    requires Core(st)
    ensures match ChangeVests(st, a, dv)
            case Ok(next) =>
              && Core(next) && next.totalVests == st.totalVests
              && TotalVests(next.accounts) == TotalVests(st.accounts) + dv
            case Aborted => true
  {
    hide InStep;
    match ChangeVests(st, a, dv)
    case Aborted =>
    case Ok(next) =>
      var changed := WithAccount(st, a, st.accounts[a].(vests := st.accounts[a].vests + dv));
      ChangedRecounted(st, changed, a, dv);
      ChangedInStep(changed, a, Only(dv), next);
  }

  lemma ChangedInStep(st: State, a: Name, delta: seq<int>, next: State)
    requires WellFormed(st.accounts) && a in st.accounts && |delta| == MAX_DEPTH + 1
    requires AllInStep(st.witnesses, st.now) && st.totalVests <= MAX_SHARES
    requires Adjust(st, a, delta) == Ok(next) && Recounted(next)
    ensures AllInStep(next.witnesses, next.now)
  {
    hide Hop, Below, Tally, VotedBy, Credit, FindRoot;
    forall w | w in next.witnesses ensures 0 <= next.witnesses[w].votes < MAX128 {
      TallyNonNegative(next, w);
      assert InStep(st.witnesses[w], st.now);
    }
    PropagateInStep(st, a, delta);
  }

  // ----- leaving and joining a proxy -----

  /** The state with `a` out of every chain and without vote records. */
  function Leave(st: State, a: Name): State
    requires WellFormed(st.accounts) && a in st.accounts
  {
    var next := Propagate(st, a, Neg(Full(st.accounts[a])));
    next.(accounts := next.accounts[a := next.accounts[a].(votedFor := 0, proxy := NO_PROXY)],
          votes := Without(next.votes, a))
  }

  lemma {:induction false} DetachHop(accounts: Accounts, a: Name, x: Name, k: nat)
    requires WellFormed(accounts) && a in accounts
    ensures Hop(Detach(accounts, a), x, k) == Hop(accounts, x, k) || Hop(Detach(accounts, a), x, k) == NO_PROXY
    decreases k
  {
    if k > 0 {
      if x == a { HopOfNone(Detach(accounts, a), k - 1); } else { DetachHop(accounts, a, Parent(accounts, x), k - 1); }
    }
  }

  lemma DetachAcyclic(accounts: Accounts, a: Name)
    requires WellFormed(accounts) && Acyclic(accounts) && a in accounts
    ensures Acyclic(Detach(accounts, a))
  {
    forall x, k: nat | x in accounts && k >= 1 ensures Hop(Detach(accounts, a), x, k) != x {
      DetachHop(accounts, a, x, k);
    }
  }

  lemma LeaveSlot(accounts: Accounts, a: Name, x: Name, j: nat)
    requires WellFormed(accounts) && Acyclic(accounts) && Counted(accounts)
    requires a in accounts && x in accounts && j < MAX_DEPTH
    ensures Credit(accounts, a, Neg(Full(accounts[a])), 0)[x].proxied[j] == Below(Detach(accounts, a), x, j + 1)
  {
    FullIsRecount(accounts, a);
    CreditSlot(accounts, a, Neg(Full(accounts[a])), x, j);
    GainNeg(accounts, a, Full(accounts[a]), x, j + 1);
    DetachBelow(accounts, a, x, j + 1);
  }

  /** An account's own slots are not touched by its leaving. */
  lemma OwnSlots(accounts: Accounts, a: Name, delta: seq<int>)
    requires WellFormed(accounts) && Acyclic(accounts) && a in accounts && |delta| == MAX_DEPTH + 1
    ensures Credit(accounts, a, delta, 0)[a] == accounts[a]
  {
    forall j | 0 <= j < MAX_DEPTH ensures Credit(accounts, a, delta, 0)[a].proxied[j] == accounts[a].proxied[j] {
      CreditSlot(accounts, a, delta, a, j);
      GainUnreached(accounts, a, delta, a, j + 1);
    }
    assert Credit(accounts, a, delta, 0)[a].proxied == accounts[a].proxied;
  }

  lemma LeaveSlots(accounts: Accounts, a: Name, credited: Accounts)
    requires WellFormed(accounts) && Acyclic(accounts) && Counted(accounts) && a in accounts
    requires credited == Credit(accounts, a, Neg(Full(accounts[a])), 0)
    ensures forall x, j :: x in credited && 0 <= j < MAX_DEPTH ==>
              credited[x].proxied[j] == Below(Detach(accounts, a), x, j + 1)
  {
    forall x, j | x in credited && 0 <= j < MAX_DEPTH
      ensures credited[x].proxied[j] == Below(Detach(accounts, a), x, j + 1)
    {
      LeaveSlot(accounts, a, x, j);
    }
  }

  lemma LeaveCounted(accounts: Accounts, a: Name, credited: Accounts, left: Accounts)
    requires WellFormed(accounts) && Acyclic(accounts) && Counted(accounts) && a in accounts
    requires credited == Credit(accounts, a, Neg(Full(accounts[a])), 0)
    requires WellFormed(left) && left.Keys == accounts.Keys
    requires forall x :: x in left ==>
               && left[x].proxied == credited[x].proxied
               && left[x].vests == accounts[x].vests
               && left[x].proxy == if x == a then NO_PROXY else accounts[x].proxy
    ensures Counted(left)
  {
    hide Hop, Below, Credit, FindRoot, Acyclic, Counted, Full, Neg, WellFormed, Detach;
    LeaveSlots(accounts, a, credited);
    DetachedShape(accounts, a, left);
    SlotsCounted(Detach(accounts, a), credited, left);
  }

  lemma DetachedShape(accounts: Accounts, a: Name, left: Accounts)
    requires a in accounts && left.Keys == accounts.Keys
    requires forall x :: x in left ==>
               && left[x].vests == accounts[x].vests
               && left[x].proxy == if x == a then NO_PROXY else accounts[x].proxy
    ensures var detached := Detach(accounts, a);
            && detached.Keys == left.Keys
            && forall x :: x in left ==> left[x].vests == detached[x].vests && left[x].proxy == detached[x].proxy
  {
  }

  lemma SlotsCounted(detached: Accounts, credited: Accounts, left: Accounts)
    requires WellFormed(left) && credited.Keys == detached.Keys == left.Keys
    requires forall x :: x in left ==>
               && left[x].proxied == credited[x].proxied
               && left[x].vests == detached[x].vests
               && left[x].proxy == detached[x].proxy
    requires forall x, j :: x in credited && 0 <= j < MAX_DEPTH && j < |credited[x].proxied| ==>
                              credited[x].proxied[j] == Below(detached, x, j + 1)
    ensures Counted(left)
  {
    hide Hop, Below;
    CountedAgree(detached, left);
  }

  lemma LeaveAcyclic(accounts: Accounts, a: Name, left: Accounts)
    requires WellFormed(accounts) && Acyclic(accounts) && a in accounts
    requires left.Keys == accounts.Keys
    requires forall x :: x in left ==> left[x].proxy == if x == a then NO_PROXY else accounts[x].proxy
    ensures Acyclic(left)
  {
    DetachAcyclic(accounts, a);
    SameParentsAcyclic(Detach(accounts, a), left);
  }

  lemma LeaveTallied(st: State, a: Name, next: State, left: State, w: Name)
    requires WellFormed(st.accounts) && VotersSound(st) && a in st.accounts && w in st.witnesses
    requires st.witnesses[w].votes == Tally(st, w)
    requires next == Propagate(st, a, Neg(Full(st.accounts[a])))
    requires left.accounts.Keys == next.accounts.Keys && left.witnesses == next.witnesses
    requires forall x :: x in left.accounts ==> left.accounts[x].vests == next.accounts[x].vests
                                                && left.accounts[x].proxied == next.accounts[x].proxied
    requires left.votes == Without(st.votes, a)
    ensures left.witnesses[w].votes == Tally(left, w)
  {
    hide Credit, FindRoot;
    var full := Full(st.accounts[a]);
    if st.accounts[a].proxy == NO_PROXY {
      RootTally(st, a, Neg(full), w);
      TakeNeg(full, MAX_DEPTH + 1);
      WeightIsTake(st.accounts[a]);
      TallyUpdate(next, left, w, a);
    } else {
      ProxiedTally(st, a, Neg(full), w);
      TallyAgree(next, left, w);
    }
  }

  lemma ClearedCount(st: State, next: State, a: Name)
    requires VotesCounted(st) && a in st.accounts
    requires next.accounts.Keys == st.accounts.Keys
    requires next.votes == Without(st.votes, a)
    requires next.accounts[a].votedFor == 0
    requires forall x :: x in st.accounts && x != a ==> next.accounts[x].votedFor == st.accounts[x].votedFor
    ensures VotesCounted(next)
  {
    forall x | x in next.accounts ensures next.accounts[x].votedFor == |VotedBy(next, x)| {
      if x == a {
        assert VotedBy(next, x) == {};
      } else {
        assert VotedBy(next, x) == VotedBy(st, x);
      }
    }
  }

  lemma LeaveShape(st: State, a: Name)
    requires WellFormed(st.accounts) && a in st.accounts
    ensures var next, left := Propagate(st, a, Neg(Full(st.accounts[a]))), Leave(st, a);
            && left.accounts.Keys == st.accounts.Keys && left.witnesses == next.witnesses
            && left.now == st.now && left.totalVests == st.totalVests
            && left.votes == Without(st.votes, a)
            && left.accounts[a].votedFor == 0
            && WellFormed(left.accounts)
            && forall x :: x in left.accounts ==>
                 && left.accounts[x].proxied == next.accounts[x].proxied
                 && left.accounts[x].vests == st.accounts[x].vests
                 && left.accounts[x].proxy == (if x == a then NO_PROXY else st.accounts[x].proxy)
                 && (x != a ==> left.accounts[x].votedFor == st.accounts[x].votedFor)
  {
  }

  lemma LeaveRecounted(st: State, a: Name)
    requires Recounted(st) && a in st.accounts
    ensures Recounted(Leave(st, a))
    ensures TotalVests(Leave(st, a).accounts) == TotalVests(st.accounts)
    ensures Full(Leave(st, a).accounts[a]) == Full(st.accounts[a])
  {
    hide Hop, Below, Tally, VotedBy, Leave;
    var next, left := Propagate(st, a, Neg(Full(st.accounts[a]))), Leave(st, a);
    LeaveShape(st, a);
    LeaveCounted(st.accounts, a, next.accounts, left.accounts);
    LeaveAcyclic(st.accounts, a, left.accounts);
    OwnSlots(st.accounts, a, Neg(Full(st.accounts[a])));
    ClearedCount(st, left, a);
    LeaveTalliedAll(st, a, next, left);
    TotalAgree(st.accounts, left.accounts);
  }

  lemma LeaveTalliedAll(st: State, a: Name, next: State, left: State)
    requires WellFormed(st.accounts) && VotersSound(st) && a in st.accounts
    requires Tallied(st)
    requires next == Propagate(st, a, Neg(Full(st.accounts[a])))
    requires left.accounts.Keys == next.accounts.Keys && left.witnesses == next.witnesses
    requires forall x :: x in left.accounts ==> left.accounts[x].vests == next.accounts[x].vests
                                                && left.accounts[x].proxied == next.accounts[x].proxied
    requires left.votes == Without(st.votes, a)
    ensures Tallied(left)
  {
    forall w | w in left.witnesses ensures left.witnesses[w].votes == Tally(left, w) {
      LeaveTallied(st, a, next, left, w);
    }
  }

  lemma {:induction false} FitsAvoids(accounts: Accounts, c: Name, chain: set<Name>, a: Name, k: nat)
    requires WellFormed(accounts) && a in accounts
    requires |chain| <= MAX_DEPTH && a in chain && c != a && ChainFits(accounts, c, chain)
    ensures Hop(accounts, c, k) != a
    decreases k
  {
    if k > 0 {
      var next := Parent(accounts, c);
      if next == NO_PROXY {
        HopOfNone(accounts, k - 1);
      } else {
        FitsAvoids(accounts, next, chain + {next}, a, k - 1);
      }
    }
  }

  lemma {:induction false} FitsAgree(a: Accounts, b: Accounts, c: Name, chain: set<Name>)
    requires |chain| <= MAX_DEPTH
    requires forall x :: Parent(a, x) == Parent(b, x)
    ensures ChainFits(a, c, chain) == ChainFits(b, c, chain)
    decreases MAX_DEPTH - |chain|
  {
    var next := Parent(a, c);
    if next != NO_PROXY && next !in chain && |chain| < MAX_DEPTH {
      FitsAgree(a, b, next, chain + {next});
    }
  }

  /** Hops from an account that never meets `a` ignore the proxy of `a`. */
  lemma {:induction false} HopAvoiding(apart: Accounts, joined: Accounts, a: Name, y: Name, k: nat)
    requires forall x :: x != a ==> Parent(apart, x) == Parent(joined, x)
    requires forall i: nat :: Hop(apart, y, i) != a
    ensures Hop(joined, y, k) == Hop(apart, y, k)
    decreases k
  {
    assert Hop(apart, y, 0) != a;
    if k > 0 {
      forall i: nat ensures Hop(apart, Parent(apart, y), i) != a {
        assert Hop(apart, y, i + 1) != a;
      }
      HopAvoiding(apart, joined, a, Parent(apart, y), k - 1);
    }
  }

  /** Hops that meet `a` after `i` steps continue from its new proxy. */
  lemma {:induction false} HopMeeting(apart: Accounts, joined: Accounts, a: Name, p: Name, y: Name, i: nat, k: nat)
    requires WellFormed(apart) && a in apart && apart[a].proxy == NO_PROXY
    requires forall x :: x != a ==> Parent(apart, x) == Parent(joined, x)
    requires Parent(joined, a) == p
    requires Hop(apart, y, i) == a
    ensures k <= i ==> Hop(joined, y, k) == Hop(apart, y, k)
    ensures k > i ==> Hop(joined, y, k) == Hop(joined, p, k - i - 1)
    decreases i
  {
    if i > 0 {
      if y == a { HopOfNone(apart, i - 1); assert false; }
      if k > 0 { HopMeeting(apart, joined, a, p, Parent(apart, y), i - 1, k - 1); }
    }
  }

  lemma JoinAcyclic(apart: Accounts, joined: Accounts, a: Name, p: Name)
    requires WellFormed(apart) && Acyclic(apart) && a in apart && p in apart
    requires apart[a].proxy == NO_PROXY
    requires joined == apart[a := apart[a].(proxy := p)]
    requires forall k: nat :: Hop(apart, p, k) != a
    ensures Acyclic(joined)
  {
    forall x, k: nat | x in joined && k >= 1 ensures Hop(joined, x, k) != x {
      if i: nat :| Hop(apart, x, i) == a {
        HopMeeting(apart, joined, a, p, x, i, k);
        if k > i {
          HopAvoiding(apart, joined, a, p, k - i - 1);
          HopOfHop(apart, p, k - i - 1, i);
        }
      } else {
        HopAvoiding(apart, joined, a, x, k);
      }
    }
  }

  lemma JoinShape(apart: Accounts, joined: Accounts, a: Name, p: Name)
    requires WellFormed(apart) && a in apart && p in apart && apart[a].proxy == NO_PROXY
    requires joined == apart[a := apart[a].(proxy := p)]
    ensures WellFormed(joined) && Detach(joined, a) == apart && Full(joined[a]) == Full(apart[a])
  {
  }

  lemma JoinSlot(apart: Accounts, joined: Accounts, a: Name, p: Name, x: Name, j: nat)
    requires WellFormed(apart) && Counted(apart) && a in apart && p in apart && x in apart && j < MAX_DEPTH
    requires apart[a].proxy == NO_PROXY
    requires joined == apart[a := apart[a].(proxy := p)] && Acyclic(joined)
    ensures WellFormed(joined)
    ensures Credit(joined, a, Full(apart[a]), 0)[x].proxied[j] == Below(joined, x, j + 1)
  {
    hide Hop, Below, Credit, FindRoot, Acyclic;
    JoinShape(apart, joined, a, p);
    DetachBelow(joined, a, x, j + 1);
    DetachBelowSelf(joined, a);
    FullIsRecount(apart, a);
    CreditSlot(joined, a, Full(apart[a]), x, j);
  }

  lemma JoinCounted(apart: Accounts, joined: Accounts, a: Name, p: Name)
    requires WellFormed(apart) && Counted(apart) && a in apart && p in apart
    requires apart[a].proxy == NO_PROXY
    requires joined == apart[a := apart[a].(proxy := p)] && Acyclic(joined)
    ensures WellFormed(joined)
    ensures Counted(Credit(joined, a, Full(apart[a]), 0))
  {
    var after := Credit(joined, a, Full(apart[a]), 0);
    forall x, j | x in joined && 0 <= j < MAX_DEPTH ensures after[x].proxied[j] == Below(joined, x, j + 1) {
      JoinSlot(apart, joined, a, p, x, j);
    }
    CountedAgree(joined, after);
  }

  lemma JoinVoters(apart: State, joined: State, a: Name, p: Name)
    requires VotersSound(apart) && a in apart.accounts
    requires VotedBy(apart, a) == {}
    requires joined == WithAccount(apart, a, apart.accounts[a].(proxy := p))
    ensures VotersSound(joined)
  {
    forall v | v in joined.votes ensures v.0 != a {
      assert v.0 == a ==> v.1 in VotedBy(apart, a);
    }
  }

  lemma JoinTallied(apart: State, joined: State, a: Name, p: Name)
    requires WellFormed(apart.accounts) && VotersSound(apart) && Tallied(apart)
    requires a in apart.accounts && p in apart.accounts && VotersSound(joined)
    requires joined == WithAccount(apart, a, apart.accounts[a].(proxy := p))
    ensures WellFormed(joined.accounts)
    ensures Tallied(Propagate(joined, a, Full(apart.accounts[a])))
  {
    var next := Propagate(joined, a, Full(apart.accounts[a]));
    forall w | w in next.witnesses ensures next.witnesses[w].votes == Tally(next, w) {
      TallyAgree(apart, joined, w);
      ProxiedTally(joined, a, Full(apart.accounts[a]), w);
    }
  }

  lemma JoinRecounted(apart: State, joined: State, a: Name, p: Name)
    requires Recounted(apart) && a in apart.accounts && p in apart.accounts
    requires apart.accounts[a].proxy == NO_PROXY && VotedBy(apart, a) == {}
    requires joined == WithAccount(apart, a, apart.accounts[a].(proxy := p))
    requires forall k: nat :: Hop(apart.accounts, p, k) != a
    ensures WellFormed(joined.accounts)
    ensures Recounted(Propagate(joined, a, Full(apart.accounts[a])))
    ensures TotalVests(Propagate(joined, a, Full(apart.accounts[a])).accounts) == TotalVests(apart.accounts)
  {
    JoinAcyclic(apart.accounts, joined.accounts, a, p);
    JoinVoters(apart, joined, a, p);
    JoinTallied(apart, joined, a, p);
    JoinSound(apart, joined, a, p);
  }

  lemma JoinSound(apart: State, joined: State, a: Name, p: Name)
    requires WellFormed(apart.accounts) && Counted(apart.accounts) && NonNegative(apart.accounts)
    requires VotesCounted(apart) && VotersSound(joined)
    requires a in apart.accounts && p in apart.accounts && apart.accounts[a].proxy == NO_PROXY
    requires joined == WithAccount(apart, a, apart.accounts[a].(proxy := p)) && Acyclic(joined.accounts)
    ensures WellFormed(joined.accounts)
    ensures var next := Propagate(joined, a, Full(apart.accounts[a]));
            && Acyclic(next.accounts) && Counted(next.accounts) && NonNegative(next.accounts)
            && VotersSound(next) && VotesCounted(next) && TotalVests(next.accounts) == TotalVests(apart.accounts)
  {
    hide FindRoot, Credit, Below, Hop;
    JoinCounted(apart.accounts, joined.accounts, a, p);
    var next := Propagate(joined, a, Full(apart.accounts[a]));
    SameParentsAcyclic(joined.accounts, next.accounts);
    SameVotesCounted(apart, next);
    TotalAgree(apart.accounts, next.accounts);
  }
}
