/**
 The records that witness voting is about: shares, proxies and voting rights of the accounts, the votes, and the
 keys of the witnesses. Each step changes what it says and nothing else of them; and all that the chain keeps
 beside them for counting follows from them alone, whatever the history.
 */
module VotingRecords {
  import opened Common
  import opened VirtualTime
  import opened ProxyForest
  import opened Voting
  import opened VotingProofs
  import opened VotingRuns
  import opened VotingShares

  datatype Right = Right(vests: int, proxy: Name, canVote: bool)

  datatype Records = Records(rights: map<Name, Right>, votes: set<(Name, Name)>, keys: map<Name, bool>,
                             totalVests: int)

  function RightOf(a: Account): Right
  {
    Right(a.vests, a.proxy, a.canVote)
  }

  function RecordsOf(st: State): Records
  {
    Records(map x | x in st.accounts :: RightOf(st.accounts[x]), st.votes,
            map w | w in st.witnesses :: st.witnesses[w].hasKey, st.totalVests)
  }

  /** The votes are no longer there of whoever names a proxy or declines to vote. */
  function Withdrawn(votes: set<(Name, Name)>, a: Name): set<(Name, Name)>
  {
    set v | v in votes && v.0 != a
  }

  /** What a step is for. */
  ghost predicate Does(step: Step, r: Records, next: Records)
  {
    match step
    case ProxyStep(a, p) =>
      && a in r.rights
      && next == r.(rights := r.rights[a := r.rights[a].(proxy := p)],
                    votes := if p == NO_PROXY then r.votes else Withdrawn(r.votes, a))
    case VoteStep(a, w, approve) =>
      next == r.(votes := if approve then r.votes + {(a, w)} else r.votes - {(a, w)})
    case DeclineStep(a) =>
      && a in r.rights
      && next == r.(rights := r.rights[a := r.rights[a].(proxy := NO_PROXY, canVote := false)],
                    votes := Withdrawn(r.votes, a))
    case DepositStep(a, amount) =>
      && a in r.rights
      && next == r.(rights := r.rights[a := r.rights[a].(vests := r.rights[a].vests + amount)],
                    totalVests := r.totalVests + amount)
    case PowerDownStep(a, routes, sold) =>
      && next == r.(rights := next.rights, totalVests := r.totalVests - sold)
      && next.rights.Keys == r.rights.Keys
      && forall n :: n in r.rights ==>
           var charged := if n == a then RouteTotal(routes) + sold else 0;
           next.rights[n] == r.rights[n].(vests := r.rights[n].vests + RoutedTo(routes, n) - charged)
    case AccountStep(a) => a !in r.rights && next == r.(rights := r.rights[a := Right(0, NO_PROXY, true)])
    case WitnessStep(w, hasKey) => next == r.(keys := r.keys[w := hasKey])
    case ScheduleStep(_, _) => next == r
    case ClearNullStep =>
      && NULL_ACCOUNT in r.rights
      && next == r.(rights := r.rights[NULL_ACCOUNT := r.rights[NULL_ACCOUNT].(vests := 0)],
                    totalVests := r.totalVests - r.rights[NULL_ACCOUNT].vests)
  }

  lemma AdjustRecords(st: State, a: Name, delta: seq<int>)
    requires WellFormed(st.accounts) && a in st.accounts && |delta| == MAX_DEPTH + 1
    ensures Adjust(st, a, delta).Ok? ==> RecordsOf(Adjust(st, a, delta).value) == RecordsOf(st)
  {
    hide Passed, Credit, FindRoot, Wrap, Take;
    if Adjust(st, a, delta).Ok? { PropagateRecords(st, a, delta); }
  }

  lemma PropagateRecords(st: State, a: Name, delta: seq<int>)
    requires WellFormed(st.accounts) && a in st.accounts && |delta| == MAX_DEPTH + 1
    ensures RecordsOf(Propagate(st, a, delta)) == RecordsOf(st)
  {
    hide Credit, FindRoot, Wrap, Take;
    var next := Propagate(st, a, delta);
    assert RecordsOf(next).rights == RecordsOf(st).rights;
    assert RecordsOf(next).keys == RecordsOf(st).keys;
  }

  lemma AccountRecords(st: State, a: Name, account: Account)
    ensures RecordsOf(WithAccount(st, a, account)) ==
            RecordsOf(st).(rights := RecordsOf(st).rights[a := RightOf(account)])
  {
    assert RecordsOf(WithAccount(st, a, account)).rights == RecordsOf(st).rights[a := RightOf(account)];
  }

  lemma ClearRecords(st: State, a: Name)
    requires a in st.accounts
    ensures RecordsOf(ClearVotes(st, a)) == RecordsOf(st).(votes := Withdrawn(st.votes, a))
  {
    assert RecordsOf(ClearVotes(st, a)).rights == RecordsOf(st).rights;
    assert Without(st.votes, a) == Withdrawn(st.votes, a);
  }

  lemma ProxyDoes(st: State, a: Name, p: Name)
    requires WellFormed(st.accounts) && SetProxy(st, a, p).Ok?
    ensures Does(ProxyStep(a, p), RecordsOf(st), RecordsOf(SetProxy(st, a, p).value))
  {
    hide Adjust, Propagate, ChainFits, RecordsOf, ClearVotes, WithAccount, Withdrawn, WellFormed;
    var full := Full(st.accounts[a]);
    FullSize(st, a);
    RightsThere(st, a);
    AdjustRecords(st, a, Neg(full));
    var left := Adjust(st, a, Neg(full)).value;
    RightsThere(left, a);
    if p == NO_PROXY {
      AccountRecords(left, a, left.accounts[a].(proxy := p));
    } else {
      ClearedShape(left, a);
      var cleared := ClearVotes(left, a);
      ClearRecords(left, a);
      RightsThere(cleared, a);
      var joined := WithAccount(cleared, a, cleared.accounts[a].(proxy := p));
      AccountRecords(cleared, a, cleared.accounts[a].(proxy := p));
      JoinedShape(cleared, a, p);
      AdjustRecords(joined, a, full);
    }
  }

  lemma RightsThere(st: State, a: Name)
    ensures a in RecordsOf(st).rights <==> a in st.accounts
    ensures a in st.accounts ==> RecordsOf(st).rights[a] == RightOf(st.accounts[a])
    ensures RecordsOf(st).votes == st.votes && RecordsOf(st).totalVests == st.totalVests
  {
  }

  lemma FullSize(st: State, a: Name)
    requires WellFormed(st.accounts) && a in st.accounts
    ensures |Full(st.accounts[a])| == MAX_DEPTH + 1
  {
  }

  lemma ClearedShape(st: State, a: Name)
    requires WellFormed(st.accounts) && a in st.accounts
    ensures var cleared := ClearVotes(st, a);
            && WellFormed(cleared.accounts) && cleared.accounts.Keys == st.accounts.Keys
            && cleared.accounts[a] == st.accounts[a].(votedFor := 0)
  {
  }

  lemma JoinedShape(st: State, a: Name, p: Name)
    requires WellFormed(st.accounts) && a in st.accounts && p in st.accounts
    ensures var joined := WithAccount(st, a, st.accounts[a].(proxy := p));
            WellFormed(joined.accounts) && joined.accounts.Keys == st.accounts.Keys
  {
  }

  lemma DeclineDoes(st: State, a: Name)
    requires WellFormed(st.accounts) && DeclineVoting(st, a).Ok?
    ensures Does(DeclineStep(a), RecordsOf(st), RecordsOf(DeclineVoting(st, a).value))
  {
    hide Adjust, Propagate, RecordsOf, ClearVotes, WithAccount, Withdrawn, WellFormed;
    var full := Full(st.accounts[a]);
    FullSize(st, a);
    RightsThere(st, a);
    AdjustRecords(st, a, Neg(full));
    var left := Adjust(st, a, Neg(full)).value;
    RightsThere(left, a);
    ClearedShape(left, a);
    var cleared := ClearVotes(left, a);
    ClearRecords(left, a);
    RightsThere(cleared, a);
    AccountRecords(cleared, a, cleared.accounts[a].(canVote := false, proxy := NO_PROXY));
  }

  lemma VoteDoes(st: State, a: Name, w: Name, approve: bool)
    requires WellFormed(st.accounts) && CastVote(st, a, w, approve).Ok?
    ensures Does(VoteStep(a, w, approve), RecordsOf(st), RecordsOf(CastVote(st, a, w, approve).value))
  {
    hide Wrap;
    var next := CastVote(st, a, w, approve).value;
    assert RecordsOf(next).rights == RecordsOf(st).rights;
    assert RecordsOf(next).keys == RecordsOf(st).keys;
  }

  lemma ChangeDoes(st: State, a: Name, dv: int)
    requires WellFormed(st.accounts) && ChangeVests(st, a, dv).Ok?
    ensures var r := RecordsOf(st);
            && a in r.rights
            && RecordsOf(ChangeVests(st, a, dv).value)
            == r.(rights := r.rights[a := r.rights[a].(vests := r.rights[a].vests + dv)])
  {
    hide Adjust, Propagate, SameShape, RecordsOf, WithAccount, WellFormed;
    RightsThere(st, a);
    var account := st.accounts[a].(vests := st.accounts[a].vests + dv);
    AccountRecords(st, a, account);
    ChangedShape(st, a, dv);
    ChangedThere(st, a, account);
    AdjustRecords(WithAccount(st, a, account), a, Only(dv));
  }

  lemma ChangedThere(st: State, a: Name, account: Account)
    ensures a in WithAccount(st, a, account).accounts
  {
  }

  lemma DepositDoes(st: State, a: Name, amount: nat)
    requires WellFormed(st.accounts) && Deposit(st, a, amount).Ok?
    ensures Does(DepositStep(a, amount), RecordsOf(st), RecordsOf(Deposit(st, a, amount).value))
  {
    hide ChangeVests, WellFormed;
    var raised := st.(totalVests := st.totalVests + amount);
    assert RecordsOf(raised) == RecordsOf(st).(totalVests := raised.totalVests);
    ChangeDoes(raised, a, amount);
  }

  lemma {:induction false} RoutesDo(st: State, routes: seq<(Name, nat)>)
    requires WellFormed(st.accounts) && PayRoutes(st, routes).Ok?
    ensures var r, next := RecordsOf(st), RecordsOf(PayRoutes(st, routes).value);
            && next == r.(rights := next.rights) && next.rights.Keys == r.rights.Keys
            && forall n :: n in r.rights ==>
                 next.rights[n] == r.rights[n].(vests := r.rights[n].vests + RoutedTo(routes, n))
    decreases |routes|
  {
    hide ChangeVests, RecordsOf;
    if routes != [] {
      ChangeDoes(st, routes[0].0, routes[0].1);
      RoutesDo(ChangeVests(st, routes[0].0, routes[0].1).value, routes[1..]);
    }
  }

  lemma PowerDownDoes(st: State, a: Name, routes: seq<(Name, nat)>, sold: nat)
    requires WellFormed(st.accounts) && PowerDown(st, a, routes, sold).Ok?
    ensures Does(PowerDownStep(a, routes, sold), RecordsOf(st), RecordsOf(PowerDown(st, a, routes, sold).value))
  {
    hide ChangeVests, PayRoutes, WellFormed;
    RoutesDo(st, routes);
    var paid := PayRoutes(st, routes).value;
    var less := paid.(totalVests := paid.totalVests - sold);
    assert RecordsOf(less) == RecordsOf(paid).(totalVests := less.totalVests);
    ChangeDoes(less, a, -(RouteTotal(routes) + sold));
  }

  lemma WitnessDoes(st: State, w: Name, hasKey: bool)
    requires UpdateWitness(st, w, hasKey).Ok?
    ensures Does(WitnessStep(w, hasKey), RecordsOf(st), RecordsOf(UpdateWitness(st, w, hasKey).value))
  {
    var next := UpdateWitness(st, w, hasKey).value;
    assert RecordsOf(next).keys == RecordsOf(st).keys[w := hasKey];
  }

  lemma RescheduleDoes(st: State, order: seq<Name>, count: nat)
    requires Reschedule(st, order, count).Ok?
    ensures RecordsOf(Reschedule(st, order, count).value) == RecordsOf(st)
  {
    hide Wrap, IsByFinish;
    var next := Reschedule(st, order, count).value;
    assert RecordsOf(next).keys == RecordsOf(st).keys;
  }

  /** Every step that is not aborted does what it is for, and nothing else to the records. */
  lemma StepDoes(st: State, step: Step)
    requires WellFormed(st.accounts) && Apply(st, step).Ok?
    ensures Does(step, RecordsOf(st), RecordsOf(Apply(st, step).value))
  {
    hide SetProxy, CastVote, DeclineVoting, Deposit, PowerDown, UpdateWitness, Reschedule, RecordsOf, WithAccount,
         WellFormed;
    match step
    case ProxyStep(a, p) => ProxyDoes(st, a, p);
    case VoteStep(a, w, approve) => VoteDoes(st, a, w, approve);
    case DeclineStep(a) => DeclineDoes(st, a);
    case DepositStep(a, amount) => DepositDoes(st, a, amount);
    case PowerDownStep(a, routes, sold) => PowerDownDoes(st, a, routes, sold);
    case AccountStep(a) =>
      RightsThere(st, a);
      AccountRecords(st, a, Account(0, NO_PROXY, [0, 0, 0, 0], true, 0));
    case WitnessStep(w, hasKey) => WitnessDoes(st, w, hasKey);
    case ScheduleStep(order, count) => RescheduleDoes(st, order, count);
    case ClearNullStep => ClearDoes(st);
  }

  lemma ClearDoes(st: State)
    requires ClearVests(st, NULL_ACCOUNT).Ok?
    ensures Does(ClearNullStep, RecordsOf(st), RecordsOf(ClearVests(st, NULL_ACCOUNT).value))
  {
    var next := ClearVests(st, NULL_ACCOUNT).value;
    assert RecordsOf(next).rights
        == RecordsOf(st).rights[NULL_ACCOUNT := RightOf(st.accounts[NULL_ACCOUNT].(vests := 0))];
  }

  /** States with the same records agree on every proxied slot, on how often each account votes and on every tally. */
  lemma RecountDecides(a: State, b: State)
    requires Inv(a) && Inv(b) && RecordsOf(a) == RecordsOf(b)
    ensures a.accounts == b.accounts && a.witnesses.Keys == b.witnesses.Keys
    ensures forall w :: w in a.witnesses ==> a.witnesses[w].votes == b.witnesses[w].votes
  {
    hide Below, Acyclic, AllInStep, Tally, VotersSound;
    SameRecords(a, b);
    forall x | x in a.accounts ensures a.accounts[x] == b.accounts[x] {
      forall j | 0 <= j < MAX_DEPTH ensures a.accounts[x].proxied[j] == b.accounts[x].proxied[j] {
        BelowAgree(a.accounts, b.accounts, x, j + 1);
      }
      assert a.accounts[x].proxied == b.accounts[x].proxied;
      assert VotedBy(a, x) == VotedBy(b, x);
      assert RightOf(a.accounts[x]) == RightOf(b.accounts[x]);
    }
    forall w | w in a.witnesses ensures a.witnesses[w].votes == b.witnesses[w].votes { TallyAgree(a, b, w); }
  }

  lemma SameRecords(a: State, b: State)
    requires RecordsOf(a) == RecordsOf(b)
    ensures a.accounts.Keys == b.accounts.Keys && a.witnesses.Keys == b.witnesses.Keys && a.votes == b.votes
    ensures forall x :: x in a.accounts ==> RightOf(a.accounts[x]) == RightOf(b.accounts[x])
  {
    var r, s := RecordsOf(a), RecordsOf(b);
    assert a.accounts.Keys == r.rights.Keys && b.accounts.Keys == s.rights.Keys;
    assert a.witnesses.Keys == r.keys.Keys && b.witnesses.Keys == s.keys.Keys;
    forall x | x in a.accounts ensures RightOf(a.accounts[x]) == RightOf(b.accounts[x]) {
      assert r.rights[x] == s.rights[x];
    }
  }

  /** Two runs from genesis that leave the same records leave the same counts, however they got there. */
  lemma HistoryDoesNotCount(steps: seq<Step>, last: State, steps': seq<Step>, last': State)
    requires Runs(Genesis, steps, last) && Runs(Genesis, steps', last') && RecordsOf(last) == RecordsOf(last')
    ensures last.accounts == last'.accounts && last.witnesses.Keys == last'.witnesses.Keys
    ensures forall w :: w in last.witnesses ==> last.witnesses[w].votes == last'.witnesses[w].votes
  {
    hide Runs, Inv, RecordsOf;
    GenesisInv();
    RunKeepsInv(Genesis, steps, last);
    RunKeepsInv(Genesis, steps', last');
    RecountDecides(last, last');
  }
}
