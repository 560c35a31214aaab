/**
 The voting tables as the database updates them in place. Each evaluator is proved to do
 what its function in `Voting` says, to leave the tables alone when it aborts, and to keep
 the invariant.
 */
module VotingDb {
  import opened Common
  import opened VirtualTime
  import opened ProxyForest
  import opened VoteCover
  import opened Voting
  import opened VotingProofs
  import opened VotingRuns
  import opened VotingRecords

  /** `Propagate` for a change that has already travelled `depth` hops. */
  function PropagateFrom(st: State, a: Name, delta: seq<int>, depth: nat): (next: State)
    requires WellFormed(st.accounts) && a in st.accounts && |delta| == MAX_DEPTH + 1 && depth <= MAX_DEPTH
  {
    var credited := Credit(st.accounts, a, delta, depth);
    match FindRoot(st.accounts, a, depth)
    case Root(r, d) => st.(accounts := credited, witnesses := PassTo(st, r, Take(delta, MAX_DEPTH + 1 - d)))
    case TooDeep => st.(accounts := credited)
  }

  ghost predicate PassesFrom(st: State, a: Name, delta: seq<int>, depth: nat)
    requires WellFormed(st.accounts) && a in st.accounts && |delta| == MAX_DEPTH + 1 && depth <= MAX_DEPTH
  {
    match FindRoot(st.accounts, a, depth)
    case Root(r, d) => Passed(PropagateFrom(st, a, delta, depth), r)
    case TooDeep => true
  }

  lemma FindRootAgree(a: Accounts, b: Accounts, x: Name, depth: nat)
    requires WellFormed(a) && WellFormed(b) && SameShape(a, b) && x in a && depth <= MAX_DEPTH
    ensures FindRoot(a, x, depth) == FindRoot(b, x, depth)
    decreases MAX_DEPTH - depth, a
  {
    var p := a[x].proxy;
    if p != NO_PROXY && depth < MAX_DEPTH { FindRootAgree(a, b, p, depth + 1); }
  }

  /** One hop up: the parent's slots are credited and the rest of the chain follows. */
  lemma PropagateUp(st: State, mid: State, a: Name, delta: seq<int>, depth: nat)
    requires WellFormed(st.accounts) && a in st.accounts && |delta| == MAX_DEPTH + 1 && depth < MAX_DEPTH
    requires st.accounts[a].proxy != NO_PROXY
    requires mid == st.(accounts := CreditOne(st.accounts, st.accounts[a].proxy, delta, depth))
    ensures WellFormed(mid.accounts) && mid.accounts.Keys == st.accounts.Keys
    ensures PropagateFrom(st, a, delta, depth) == PropagateFrom(mid, st.accounts[a].proxy, delta, depth + 1)
    ensures PassesFrom(st, a, delta, depth) <==> PassesFrom(mid, st.accounts[a].proxy, delta, depth + 1)
  {
    hide Passed, WellFormed;
    FindRootAgree(st.accounts, mid.accounts, st.accounts[a].proxy, depth + 1);
  }

  /** The end of the chain: the witnesses are adjusted, or the change has travelled too far. */
  lemma PropagateStop(st: State, a: Name, delta: seq<int>, depth: nat)
    requires WellFormed(st.accounts) && a in st.accounts && |delta| == MAX_DEPTH + 1 && depth <= MAX_DEPTH
    requires st.accounts[a].proxy == NO_PROXY || depth == MAX_DEPTH
    ensures var passed := st.(witnesses := PassTo(st, a, Take(delta, MAX_DEPTH + 1 - depth)));
            if st.accounts[a].proxy == NO_PROXY then
              && PropagateFrom(st, a, delta, depth) == passed
              && (PassesFrom(st, a, delta, depth) <==> Passed(passed, a))
            else PropagateFrom(st, a, delta, depth) == st && PassesFrom(st, a, delta, depth)
  {
    hide Passed, WellFormed;
  }

  lemma PropagateWhole(st: State, a: Name, delta: seq<int>)
    requires WellFormed(st.accounts) && a in st.accounts && |delta| == MAX_DEPTH + 1
    ensures PropagateFrom(st, a, delta, 0) == Propagate(st, a, delta)
    ensures Adjust(st, a, delta) == if PassesFrom(st, a, delta, 0) then Ok(Propagate(st, a, delta)) else Aborted
    ensures var next := Propagate(st, a, delta);
            && WellFormed(next.accounts)
            && next.accounts.Keys == st.accounts.Keys && next.witnesses.Keys == st.witnesses.Keys
  {
    hide Passed, Credit, FindRoot, WellFormed;
  }

  ghost predicate VotesKnown(st: State)
  {
    forall v :: v in st.votes ==> v.1 in st.witnesses
  }

  /** The witnesses after those in `todo` are the only ones of `r` still to be adjusted. */
  ghost predicate PartlyPassed(before: State, ws: Witnesses, r: Name, delta: int, todo: set<Name>)
  {
    && ws.Keys == before.witnesses.Keys
    && forall w :: w in ws ==>
         ws[w] == if (r, w) in before.votes && w !in todo then AdjustWitness(before.witnesses[w], delta, before.now)
                  else before.witnesses[w]
  }

  lemma PartlyStarts(before: State, r: Name, delta: int, todo: set<Name>)
    requires forall w :: (r, w) in before.votes ==> w in todo
    ensures PartlyPassed(before, before.witnesses, r, delta, todo)
  {
  }

  lemma PartlyStep(before: State, ws: Witnesses, r: Name, delta: int, todo: set<Name>, w: Name)
    requires PartlyPassed(before, ws, r, delta, todo) && w in todo && (r, w) in before.votes && w in ws
    ensures PartlyPassed(before, ws[w := AdjustWitness(ws[w], delta, before.now)], r, delta, todo - {w})
    ensures PassTo(before, r, delta)[w] == AdjustWitness(ws[w], delta, before.now)
  {
    hide AdjustWitness;
  }

  lemma PartlyDone(before: State, ws: Witnesses, r: Name, delta: int)
    requires PartlyPassed(before, ws, r, delta, {})
    ensures ws == PassTo(before, r, delta)
  {
    hide AdjustWitness;
  }

  /** When the steps go through. */
  lemma Allowed(st: State, step: Step)
    requires Inv(st) && Idle(st)
    ensures WellFormed(st.accounts)
    ensures step.ProxyStep? ==>
              (SetProxy(st, step.account, step.proxy).Ok? <==> ProxyAllowed(st.accounts, step.account, step.proxy))
    ensures step.VoteStep? ==>
              (CastVote(st, step.account, step.candidate, step.approve).Ok? <==>
               VoteAllowed(st, step.account, step.candidate, step.approve))
    ensures step.DeclineStep? ==> (DeclineVoting(st, step.account).Ok? <==> step.account in st.accounts)
    ensures step.DepositStep? ==>
              (Deposit(st, step.account, step.amount).Ok? <==>
               step.account in st.accounts && st.totalVests + step.amount <= MAX_SHARES)
    ensures step.AccountStep? ==>
              (CreateAccount(st, step.account).Ok? <==> step.account != NO_PROXY && step.account !in st.accounts)
    ensures step.WitnessStep? ==>
              (UpdateWitness(st, step.candidate, step.hasKey).Ok? <==> step.candidate in st.accounts)
    ensures step.ClearNullStep? ==> (ClearVests(st, NULL_ACCOUNT).Ok? <==> NULL_ACCOUNT in st.accounts)
  {
    hide Inv, SetProxy, CastVote, DeclineVoting, Deposit, VotedBy, ProxyAllowed, VoteAllowed;
    InvShape(st);
    match step
    case ProxyStep(a, p) => SetProxyKeeps(st, a, p);
    case VoteStep(a, w, approve) => CastVoteKeeps(st, a, w, approve);
    case DeclineStep(a) => DeclineKeeps(st, a);
    case DepositStep(a, amount) => DepositKeeps(st, a, amount);
    case ClearNullStep => if NULL_ACCOUNT in st.accounts { ClearVestsKeeps(st, NULL_ACCOUNT); }
    case _ =>
  }

  class Db {
    var accounts: Accounts
    var votes: set<(Name, Name)>
    var witnesses: Witnesses
    var now: nat
    var totalVests: int

    ghost function Model(): State
      reads this
    {
      State(accounts, votes, witnesses, now, totalVests)
    }

    ghost predicate Valid()
      reads this
    {
      Inv(Model())
    }

    constructor ()
      ensures Valid() && Model() == Genesis
    {
      accounts, votes, witnesses, now, totalVests := map[], {}, map[], 0, 0;
      new;
      GenesisInv();
    }

    /** `adjust_witness_vote` */
    method AdjustWitnessVote(w: Name, delta: int) returns (ok: bool)
      requires w in witnesses
      modifies this`witnesses
      ensures ok <==> var voted := AdjustWitness(old(witnesses)[w], delta, now);
                      voted.votes <= totalVests && Wrap(voted.votes + 1) != 0
      ensures ok ==> witnesses == old(witnesses)[w := AdjustWitness(old(witnesses)[w], delta, now)]
      ensures !ok ==> witnesses == old(witnesses)
    {
      var voted := AdjustWitness(witnesses[w], delta, now);
      if voted.votes > totalVests || Wrap(voted.votes + 1) == 0 { return false; }
      witnesses := witnesses[w := voted];
      return true;
    }

    /** `adjust_witness_votes`: every witness in the account's range of the vote index. */
    method AdjustWitnessVotes(r: Name, delta: int) returns (ok: bool)
      requires VotesKnown(Model())
      modifies this`witnesses
      ensures ok ==> witnesses == PassTo(old(Model()), r, delta)
      ensures ok <==> Passed(old(Model()).(witnesses := PassTo(old(Model()), r, delta)), r)
    {
      hide AdjustWitness, Wrap, PassTo, PartlyPassed;
      ghost var before := Model();
      var todo := set v | v in votes && v.0 == r :: v.1;
      PartlyStarts(before, r, delta, todo);
      while todo != {}
        invariant forall w :: w in todo ==> (r, w) in votes
        invariant PartlyPassed(before, witnesses, r, delta, todo) && witnesses.Keys == before.witnesses.Keys
        invariant forall w :: w in witnesses && (r, w) in votes && w !in todo ==>
                                witnesses[w].votes <= totalVests && Wrap(witnesses[w].votes + 1) != 0
        decreases todo
      {
        var w :| w in todo;
        assert (r, w).1 in witnesses;
        PartlyStep(before, witnesses, r, delta, todo, w);
        var passed := AdjustWitnessVote(w, delta);
        if !passed { return false; }
        todo := todo - {w};
      }
      forall w | w in witnesses && (r, w) in votes ensures w !in todo { }
      PartlyDone(before, witnesses, r, delta);
      return true;
    }

    /** `adjust_proxied_witness_votes`, for a change of a whole chain's weights. */
    method AdjustProxiedVotes(a: Name, delta: seq<int>, depth: nat) returns (ok: bool)
      requires WellFormed(accounts) && VotesKnown(Model())
      requires a in accounts && |delta| == MAX_DEPTH + 1 && depth <= MAX_DEPTH
      modifies this`accounts, this`witnesses
      ensures ok ==> Model() == PropagateFrom(old(Model()), a, delta, depth)
      ensures ok <==> PassesFrom(old(Model()), a, delta, depth)
      decreases MAX_DEPTH - depth
    {
      hide PropagateFrom, PassesFrom, Passed;
      ghost var start := Model();
      if accounts[a].proxy != NO_PROXY {
        if depth >= MAX_DEPTH {
          PropagateStop(start, a, delta, depth);
          return true;
        }
        var p := accounts[a].proxy;
        var slots := accounts[p].proxied;
        var i := MAX_DEPTH - depth;
        ghost var before := slots;
        while i > 0
          invariant 0 <= i <= MAX_DEPTH - depth && |slots| == MAX_DEPTH
          invariant forall j :: 0 <= j < MAX_DEPTH ==>
                      slots[j] == before[j] + if j >= i + depth then delta[j - depth] else 0
        {
          i := i - 1;
          slots := slots[i + depth := slots[i + depth] + delta[i]];
        }
        assert slots == AddShifted(before, delta, depth);
        accounts := accounts[p := accounts[p].(proxied := slots)];
        PropagateUp(start, Model(), a, delta, depth);
        ok := AdjustProxiedVotes(p, delta, depth + 1);
      } else {
        PropagateStop(start, a, delta, depth);
        ok := AdjustWitnessVotes(a, Take(delta, MAX_DEPTH + 1 - depth));
      }
    }

    /** `adjust_proxied_witness_votes`, for a change of one account's own shares. */
    method AdjustOwnVotes(a: Name, dv: int, depth: nat) returns (ok: bool)
      requires WellFormed(accounts) && VotesKnown(Model())
      requires a in accounts && depth <= MAX_DEPTH
      modifies this`accounts, this`witnesses
      ensures ok ==> Model() == PropagateFrom(old(Model()), a, Only(dv), depth)
      ensures ok <==> PassesFrom(old(Model()), a, Only(dv), depth)
      decreases MAX_DEPTH - depth
    {
      hide PropagateFrom, PassesFrom, Passed;
      ghost var start := Model();
      if accounts[a].proxy != NO_PROXY {
        if depth >= MAX_DEPTH {
          PropagateStop(start, a, Only(dv), depth);
          return true;
        }
        var p := accounts[a].proxy;
        var slots := accounts[p].proxied;
        assert slots[depth := slots[depth] + dv] == AddShifted(slots, Only(dv), depth);
        accounts := accounts[p := accounts[p].(proxied := slots[depth := slots[depth] + dv])];
        PropagateUp(start, Model(), a, Only(dv), depth);
        ok := AdjustOwnVotes(p, dv, depth + 1);
      } else {
        OnlyTake(dv, MAX_DEPTH + 1 - depth);
        PropagateStop(start, a, Only(dv), depth);
        ok := AdjustWitnessVotes(a, dv);
      }
    }

    /** `clear_witness_votes` */
    method ClearWitnessVotes(a: Name)
      requires a in accounts
      modifies this`votes, this`accounts
      ensures Model() == ClearVotes(old(Model()), a)
    {
      var todo := set v | v in votes && v.0 == a;
      while todo != {}
        invariant accounts == old(accounts)
        invariant forall v :: v in todo ==> v in old(votes) && v.0 == a
        invariant forall v :: v in votes <==> v in old(votes) && (v.0 != a || v in todo)
        decreases todo
      {
        var v :| v in todo;
        votes := votes - {v};
        todo := todo - {v};
      }
      assert votes == Without(old(votes), a);
      accounts := accounts[a := accounts[a].(votedFor := 0)];
    }

    /** The loop that rejects a proxy chain with a repeated account or too many accounts. */
    method ProxyChainFits(a: Name, p: Name) returns (ok: bool)
      requires WellFormed(accounts) && p in accounts
      ensures ok <==> ChainFits(accounts, p, {a, p})
    {
      var chain := {a, p};
      var c := p;
      while accounts[c].proxy != NO_PROXY
        invariant c in accounts && |chain| <= MAX_DEPTH
        invariant ChainFits(accounts, c, chain) == ChainFits(accounts, p, {a, p})
        decreases MAX_DEPTH - |chain|
      {
        var next := accounts[c].proxy;
        if next in chain { return false; }
        chain := chain + {next};
        c := next;
        if |chain| > MAX_DEPTH { return false; }
      }
      return true;
    }

    method Restore(accounts0: Accounts, votes0: set<(Name, Name)>, witnesses0: Witnesses)
      modifies this`accounts, this`votes, this`witnesses
      ensures accounts == accounts0 && votes == votes0 && witnesses == witnesses0
    {
      accounts, votes, witnesses := accounts0, votes0, witnesses0;
    }

    /** `account_witness_proxy_evaluator`, inside its undo session. */
    method SetWitnessProxy(a: Name, p: Name) returns (ok: bool)
      requires Valid()
      modifies this
      ensures Valid()
      ensures ok <==> ProxyAllowed(old(accounts), a, p)
      ensures ok ==> SetProxy(old(Model()), a, p) == Ok(Model())
      ensures !ok ==> Model() == old(Model())
    {
      ghost var start := Model();
      SetProxyKeeps(start, a, p);
      if a !in accounts || p == a || accounts[a].proxy == p || !accounts[a].canVote { return false; }
      var accounts0, votes0, witnesses0 := accounts, votes, witnesses;
      ok := ChangeProxy(a, p);
      if !ok {
        Restore(accounts0, votes0, witnesses0);
      }
    }

    /** The body of the proxy evaluator; what it leaves behind when it aborts is unwound by its caller. */
    method ChangeProxy(a: Name, p: Name) returns (ok: bool)
      requires WellFormed(accounts) && VotesKnown(Model())
      requires a in accounts && p != a && accounts[a].proxy != p && accounts[a].canVote
      modifies this`accounts, this`votes, this`witnesses
      ensures ok <==> SetProxy(old(Model()), a, p).Ok?
      ensures ok ==> SetProxy(old(Model()), a, p) == Ok(Model())
    {
      hide PropagateFrom, PassesFrom, Propagate, Passed;
      var full := Full(accounts[a]);
      PropagateWhole(Model(), a, Neg(full));
      ok := AdjustProxiedVotes(a, Neg(full), 0);
      if !ok { return; }
      if p == NO_PROXY {
        accounts := accounts[a := accounts[a].(proxy := p)];
        return true;
      }
      if p !in accounts { return false; }
      ok := ProxyChainFits(a, p);
      if !ok { return; }
      ClearWitnessVotes(a);
      accounts := accounts[a := accounts[a].(proxy := p)];
      PropagateWhole(Model(), a, full);
      ok := AdjustProxiedVotes(a, full, 0);
    }

    /** `account_witness_vote_evaluator` */
    method WitnessVote(a: Name, w: Name, approve: bool) returns (ok: bool)
      requires Valid()
      modifies this
      ensures Valid()
      ensures ok <==> VoteAllowed(old(Model()), a, w, approve)
      ensures ok ==> CastVote(old(Model()), a, w, approve) == Ok(Model())
      ensures !ok ==> Model() == old(Model())
    {
      hide Acyclic, Counted, NonNegative, VotersSound, VotesCounted, Tallied, AllInStep, TotalVests, AdjustWitness;
      CastVoteKeeps(Model(), a, w, approve);
      if a !in accounts || accounts[a].proxy != NO_PROXY || (approve && !accounts[a].canVote) || w !in witnesses {
        return false;
      }
      var weight := Weight(accounts[a]);
      if (a, w) !in votes {
        if !approve || accounts[a].votedFor >= MAX_ACCOUNT_VOTES { return false; }
        ok := AdjustWitnessVote(w, weight);
        if !ok { return; }
        votes := votes + {(a, w)};
        accounts := accounts[a := accounts[a].(votedFor := accounts[a].votedFor + 1)];
      } else {
        if approve { return false; }
        ok := AdjustWitnessVote(w, -weight);
        if !ok { return; }
        accounts := accounts[a := accounts[a].(votedFor := accounts[a].votedFor - 1)];
        votes := votes - {(a, w)};
      }
    }

    /** One account's part of `process_decline_voting_rights`. */
    method DeclineVotingRights(a: Name) returns (ok: bool)
      requires Valid()
      modifies this
      ensures Valid()
      ensures ok <==> a in old(accounts)
      ensures ok ==> DeclineVoting(old(Model()), a) == Ok(Model())
      ensures !ok ==> Model() == old(Model())
    {
      hide Acyclic, Counted, NonNegative, VotesCounted, Tallied, AllInStep, TotalVests, PropagateFrom, PassesFrom,
           Propagate, Passed;
      ghost var start := Model();
      DeclineKeeps(start, a);
      if a !in accounts { return false; }
      PropagateWhole(start, a, Neg(Full(accounts[a])));
      ok := AdjustProxiedVotes(a, Neg(Full(accounts[a])), 0);
      ClearWitnessVotes(a);
      accounts := accounts[a := accounts[a].(canVote := false, proxy := NO_PROXY)];
    }

    /** A change of shares and the votes that follow from it. */
    method ChangeShares(a: Name, dv: int) returns (ok: bool)
      requires WellFormed(accounts) && VotesKnown(Model())
      requires a in accounts && accounts[a].vests + dv >= 0
      modifies this`accounts, this`witnesses
      ensures ok <==> ChangeVests(old(Model()), a, dv).Ok?
      ensures ok ==> ChangeVests(old(Model()), a, dv) == Ok(Model())
    {
      hide PropagateFrom, PassesFrom, Propagate, Passed, Adjust;
      accounts := accounts[a := accounts[a].(vests := accounts[a].vests + dv)];
      PropagateWhole(Model(), a, Only(dv));
      ok := AdjustOwnVotes(a, dv, 0);
    }

    /** The vesting part of `create_vesting2` and `claim_reward_balance`. */
    method AddVests(a: Name, amount: nat) returns (ok: bool)
      requires Valid()
      modifies this
      ensures Valid()
      ensures ok <==> a in old(accounts) && old(totalVests) + amount <= MAX_SHARES
      ensures ok ==> Deposit(old(Model()), a, amount) == Ok(Model())
      ensures !ok ==> Model() == old(Model())
    {
      hide Acyclic, Counted, VotesCounted, Tallied, AllInStep, TotalVests, ChangeVests;
      DepositKeeps(Model(), a, amount);
      if a !in accounts || totalVests + amount > MAX_SHARES { return false; }
      totalVests := totalVests + amount;
      ok := ChangeShares(a, amount);
    }

    /** The vesting part of `clear_null_account_balance`. */
    method ClearNull() returns (ok: bool)
      requires Valid() && Idle(Model())
      modifies this`accounts, this`totalVests
      ensures Valid() && Idle(Model())
      ensures ok <==> NULL_ACCOUNT in old(accounts)
      ensures ok ==> ClearVests(old(Model()), NULL_ACCOUNT) == Ok(Model())
      ensures !ok ==> Model() == old(Model())
    {
      hide Inv, VotedBy;
      if NULL_ACCOUNT !in accounts { return false; }
      InvShape(Model());
      ClearVestsKeeps(Model(), NULL_ACCOUNT);
      ApplyKeepsIdle(Model(), ClearNullStep);
      totalVests := totalVests - accounts[NULL_ACCOUNT].vests;
      accounts := accounts[NULL_ACCOUNT := accounts[NULL_ACCOUNT].(vests := 0)];
      return true;
    }

    /**
     One interval of `process_vesting_withdrawals`: the routes that deposit shares, then the
     shares that are sold, then the account itself. The check made while votes are passed on
     may abort it.
     */
    method WithdrawVests(a: Name, routes: seq<(Name, nat)>, sold: nat) returns (ok: bool)
      requires Valid()
      modifies this
      ensures Valid()
      ensures ok <==> PowerDown(old(Model()), a, routes, sold).Ok?
      ensures ok ==> PowerDown(old(Model()), a, routes, sold) == Ok(Model())
      ensures !ok ==> Model() == old(Model())
    {
      hide Acyclic, Counted, NonNegative, VotesCounted, Tallied, AllInStep, TotalVests, PowerDown;
      PowerDownKeeps(Model(), a, routes, sold);
      var accounts0, votes0, witnesses0, totalVests0 := accounts, votes, witnesses, totalVests;
      ok := Withdraw(a, routes, sold);
      if !ok {
        Restore(accounts0, votes0, witnesses0);
        totalVests := totalVests0;
      }
    }

    method Withdraw(a: Name, routes: seq<(Name, nat)>, sold: nat) returns (ok: bool)
      requires WellFormed(accounts) && VotesKnown(Model())
      modifies this`accounts, this`witnesses, this`totalVests
      ensures ok <==> PowerDown(old(Model()), a, routes, sold).Ok?
      ensures ok ==> PowerDown(old(Model()), a, routes, sold) == Ok(Model())
    {
      hide ChangeVests, PayRoutes, RouteTotal, WellFormed;
      var total := RouteTotal(routes);
      if a !in accounts || total + sold > accounts[a].vests || sold > totalVests { return false; }
      ok := DepositRoutes(routes);
      if !ok { return; }
      totalVests := totalVests - sold;
      ok := ChangeIfHeld(a, -(total + sold));
    }

    method ChangeIfHeld(a: Name, dv: int) returns (ok: bool)
      requires WellFormed(accounts) && VotesKnown(Model())
      modifies this`accounts, this`witnesses
      ensures ok <==> ChangeVests(old(Model()), a, dv).Ok?
      ensures ok ==> ChangeVests(old(Model()), a, dv) == Ok(Model())
    {
      hide Adjust;
      if a !in accounts || accounts[a].vests + dv < 0 { return false; }
      ok := ChangeShares(a, dv);
    }

    method DepositRoutes(routes: seq<(Name, nat)>) returns (ok: bool)
      requires WellFormed(accounts) && VotesKnown(Model())
      modifies this`accounts, this`witnesses
      ensures ok <==> PayRoutes(old(Model()), routes).Ok?
      ensures ok ==> PayRoutes(old(Model()), routes) == Ok(Model()) && WellFormed(accounts) && VotesKnown(Model())
    {
      hide ChangeVests;
      var i := 0;
      assert routes[0..] == routes;
      while i < |routes|
        invariant 0 <= i <= |routes| && WellFormed(accounts) && VotesKnown(Model())
        invariant PayRoutes(old(Model()), routes) == PayRoutes(Model(), routes[i..])
      {
        ghost var before := Model();
        assert routes[i..][1..] == routes[i + 1..];
        ok := ChangeIfHeld(routes[i].0, routes[i].1);
        if !ok { return; }
        ChangeKeepsKnown(before, routes[i].0, routes[i].1);
        i := i + 1;
      }
      ok := true;
    }

    /** The voting fields of a new account. */
    method AddAccount(a: Name) returns (ok: bool)
      requires Valid()
      modifies this`accounts
      ensures Valid()
      ensures ok <==> a != NO_PROXY && a !in old(accounts)
      ensures ok ==> CreateAccount(old(Model()), a) == Ok(Model())
      ensures !ok ==> Model() == old(Model())
    {
      hide Acyclic, Counted, VotesCounted, Tallied, AllInStep, TotalVests;
      CreateAccountKeeps(Model(), a);
      if a == NO_PROXY || a in accounts { return false; }
      accounts := accounts[a := Account(0, NO_PROXY, [0, 0, 0, 0], true, 0)];
      return true;
    }

    /** `witness_update` */
    method SetWitness(w: Name, hasKey: bool) returns (ok: bool)
      requires Valid()
      modifies this`witnesses
      ensures Valid()
      ensures ok <==> w in old(accounts)
      ensures ok ==> UpdateWitness(old(Model()), w, hasKey) == Ok(Model())
      ensures !ok ==> Model() == old(Model())
    {
      hide Acyclic, Counted, VotesCounted, Tallied, AllInStep, TotalVests;
      UpdateWitnessKeeps(Model(), w, hasKey);
      if w !in accounts { return false; }
      witnesses := witnesses[w := if w in witnesses then witnesses[w].(hasKey := hasKey) else Fresh(hasKey)];
      return true;
    }

    /** The virtual-time part of a schedule update. */
    method Reschedule(order: seq<Name>, count: nat) returns (ok: bool)
      requires Valid()
      modifies this`witnesses, this`now
      ensures Valid()
      ensures var r := Voting.Reschedule(old(Model()), order, count);
              ok == r.Ok? && Model() == if ok then r.value else old(Model())
      ensures ok <==> count <= |order| && ByFinish(old(witnesses), order)
      ensures ok ==> var done := order[..count];
                     && Raced(old(witnesses), witnesses, done, LastFinish(old(witnesses), done, old(now)), now)
                     && forall n :: n in old(witnesses) ==> witnesses[n].kind == old(witnesses)[n].kind
    {
      hide Acyclic, Counted, VotesCounted, Tallied, AllInStep, TotalVests, Advance, IsByFinish, Divisible, Raced;
      RescheduleKeeps(Model(), order, count);
      RescheduleRaces(Model(), order, count);
      if count > |order| || !Divisible(witnesses) || !IsByFinish(witnesses, order) { return false; }
      var (ws, time) := Advance(witnesses, order, count, now);
      witnesses, now := ws, time;
      return true;
    }

    /** One step of a run, with everything it does undone if it aborts. */
    method Perform(step: Step) returns (ok: bool)
      requires Valid() && Idle(Model())
      modifies this
      ensures Valid() && Idle(Model())
      ensures var r := Apply(old(Model()), step); ok == r.Ok? && Model() == if ok then r.value else old(Model())
      ensures ok ==> Does(step, RecordsOf(old(Model())), RecordsOf(Model()))
    {
      hide Does, RecordsOf, Inv, Idle, SetProxy, CastVote, DeclineVoting, Deposit, PowerDown, ClearVests, CreateAccount,
           UpdateWitness, Voting.Reschedule, ProxyAllowed, VoteAllowed;
      InvShape(Model());
      ApplyKeepsIdle(Model(), step);
      Allowed(Model(), step);
      if Apply(Model(), step).Ok? { StepDoes(Model(), step); }
      if SignedBy(step, NULL_ACCOUNT) { return false; }
      match step
      case ProxyStep(a, p) => ok := SetWitnessProxy(a, p);
      case VoteStep(a, w, approve) => ok := WitnessVote(a, w, approve);
      case DeclineStep(a) => ok := DeclineVotingRights(a);
      case DepositStep(a, amount) => ok := AddVests(a, amount);
      case PowerDownStep(a, routes, sold) => ok := WithdrawVests(a, routes, sold);
      case AccountStep(a) => ok := AddAccount(a);
      case WitnessStep(w, hasKey) => ok := SetWitness(w, hasKey);
      case ScheduleStep(order, count) => ok := Reschedule(order, count);
      case ClearNullStep => ok := ClearNull();
    }
  }

  lemma ChangeKeepsKnown(st: State, a: Name, dv: int)
    requires WellFormed(st.accounts) && VotesKnown(st) && ChangeVests(st, a, dv).Ok?
    ensures VotesKnown(ChangeVests(st, a, dv).value)
  {
    hide Credit, FindRoot, Passed;
  }
}
