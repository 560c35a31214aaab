/**
 Witness voting through proxies, as a state machine over the operations that change it.

 The chain keeps three tables up to date by small increments: the slots of proxied shares
 per account, the vote total per witness, and the witness's place in the virtual-time race.
 `Inv` says what each of them means, by a recount from the proxies, vote records and vesting
 shares alone; `RunKeepsInv` proves it after every run, aborted operations included.
 */
module Voting {
  import opened Common
  import opened Sums
  import opened VirtualTime
  import opened ProxyForest
  import opened VoteCover

  const MAX_ACCOUNT_VOTES: nat := 30

  /** Shares are 64-bit signed integers. */
  const MAX_SHARES: nat := 0x7FFF_FFFF_FFFF_FFFE

  datatype State = State(
    accounts: Accounts,
    votes: set<(Name, Name)>,
    witnesses: Witnesses,
    now: nat,
    totalVests: int)

  // ----- what the tables mean -----

  ghost function TallyTerm(st: State, w: Name, x: Name): int
  {
    if x in st.accounts && (x, w) in st.votes then Weight(st.accounts[x]) else 0
  }

  /** The recount of a witness's votes. */
  ghost function Tally(st: State, w: Name): int
  {
    Sum(st.accounts.Keys, x => TallyTerm(st, w, x))
  }

  ghost function VotedBy(st: State, x: Name): set<Name>
  {
    set v | v in st.votes && v.0 == x :: v.1
  }

  ghost predicate VotersSound(st: State)
  {
    forall x, w :: (x, w) in st.votes ==>
                     && x in st.accounts
                     && st.accounts[x].proxy == NO_PROXY
                     && w in st.witnesses
  }

  ghost predicate VotesCounted(st: State)
  {
    forall x :: x in st.accounts ==> st.accounts[x].votedFor == |VotedBy(st, x)|
  }

  ghost predicate Tallied(st: State)
  {
    forall w :: w in st.witnesses ==> st.witnesses[w].votes == Tally(st, w)
  }

  /** Everything but the agreement of the share total with the accounts. */
  ghost predicate Core(st: State)
  {
    && WellFormed(st.accounts)
    && Acyclic(st.accounts)
    && Counted(st.accounts)
    && NonNegative(st.accounts)
    && VotersSound(st)
    && VotesCounted(st)
    && Tallied(st)
    && AllInStep(st.witnesses, st.now)
    && st.now <= MAX128
    && 0 <= st.totalVests <= MAX_SHARES
  }

  ghost predicate Inv(st: State)
  {
    && Core(st)
    && st.totalVests == TotalVests(st.accounts)
  }

  // ----- the operations -----

  function AdjustWitness(w: Witness, delta: int, now: nat): (r: Witness)
    ensures r.votes == w.votes + delta
  {
    if Wrap(w.votes + delta + 1) == 0 then w.(votes := w.votes + delta) else AdjustVotes(w, delta, now)
  }

  /** Adding `delta` to every witness that `r` votes for. */
  function PassTo(st: State, r: Name, delta: int): (ws: Witnesses)
    ensures ws.Keys == st.witnesses.Keys
    ensures forall w :: w in ws ==> ws[w] == if (r, w) in st.votes then AdjustWitness(st.witnesses[w], delta, st.now)
                                             else st.witnesses[w]
  {
    map w | w in st.witnesses ::
      if (r, w) in st.votes then AdjustWitness(st.witnesses[w], delta, st.now) else st.witnesses[w]
  }

  /** The assertions made while votes are passed on, and the division they contain. */
  predicate Passed(st: State, r: Name)
  {
    forall w :: w in st.witnesses && (r, w) in st.votes ==>
                  st.witnesses[w].votes <= st.totalVests && Wrap(st.witnesses[w].votes + 1) != 0
  }

  function Propagate(st: State, a: Name, delta: seq<int>): (next: State)
    requires WellFormed(st.accounts) && a in st.accounts && |delta| == MAX_DEPTH + 1
    ensures SameShape(st.accounts, next.accounts) && WellFormed(next.accounts)
    ensures next.witnesses.Keys == st.witnesses.Keys
  {
    var credited := Credit(st.accounts, a, delta, 0);
    match FindRoot(st.accounts, a, 0)
    case Root(r, d) => st.(accounts := credited, witnesses := PassTo(st, r, Take(delta, MAX_DEPTH + 1 - d)))
    case TooDeep => st.(accounts := credited)
  }

  /** Propagating a weight change up the chain of `a` and on to the witnesses. */
  function Adjust(st: State, a: Name, delta: seq<int>): (r: Outcome<State>)
    requires WellFormed(st.accounts) && a in st.accounts && |delta| == MAX_DEPTH + 1
    ensures r.Ok? ==> r.value == Propagate(st, a, delta)
  {
    var next := Propagate(st, a, delta);
    match FindRoot(st.accounts, a, 0)
    case Root(r, d) => if Passed(next, r) then Ok(next) else Aborted
    case TooDeep => Ok(next)
  }

  function WithAccount(st: State, a: Name, account: Account): State
  {
    st.(accounts := st.accounts[a := account])
  }

  function Without(votes: set<(Name, Name)>, a: Name): (r: set<(Name, Name)>)
    ensures forall v :: v in r <==> v in votes && v.0 != a
  {
    set v | v in votes && v.0 != a
  }

  function ClearVotes(st: State, a: Name): State
    requires a in st.accounts
  {
    st.(accounts := st.accounts[a := st.accounts[a].(votedFor := 0)], votes := Without(st.votes, a))
  }

  /** Walking up from `c`: no account may repeat and the chain may not grow too long. */
  predicate ChainFits(accounts: Accounts, c: Name, chain: set<Name>)
    requires |chain| <= MAX_DEPTH
    decreases MAX_DEPTH - |chain|
  {
    var next := Parent(accounts, c);
    next == NO_PROXY || (next !in chain && |chain| < MAX_DEPTH && ChainFits(accounts, next, chain + {next}))
  }

  /** `account_witness_proxy`; `p == NO_PROXY` clears the proxy. */
  function SetProxy(st: State, a: Name, p: Name): (r: Outcome<State>)
    requires WellFormed(st.accounts)
  {
    if a !in st.accounts || p == a || st.accounts[a].proxy == p || !st.accounts[a].canVote then Aborted
    else
      var full := Full(st.accounts[a]);
      match Adjust(st, a, Neg(full))
      case Aborted => Aborted
      case Ok(left) =>
        if p == NO_PROXY then Ok(WithAccount(left, a, left.accounts[a].(proxy := p)))
        else if p !in st.accounts || !ChainFits(left.accounts, p, {a, p}) then Aborted
        else
          var cleared := ClearVotes(left, a);
          Adjust(WithAccount(cleared, a, cleared.accounts[a].(proxy := p)), a, full)
  }

  /** `account_witness_vote`. */
  function CastVote(st: State, a: Name, w: Name, approve: bool): (r: Outcome<State>)
    requires WellFormed(st.accounts)
  {
    if a !in st.accounts || st.accounts[a].proxy != NO_PROXY || (approve && !st.accounts[a].canVote)
       || w !in st.witnesses then Aborted
    else
      var account := st.accounts[a];
      if (a, w) !in st.votes then
        if !approve || account.votedFor >= MAX_ACCOUNT_VOTES then Aborted
        else Recorded(st, a, w, Weight(account), 1)
      else if approve then Aborted
      else Recorded(st, a, w, -Weight(account), -1)
  }

  /** Adding (`step == 1`) or removing (`step == -1`) one vote record. */
  function Recorded(st: State, a: Name, w: Name, delta: int, step: int): (r: Outcome<State>)
    requires a in st.accounts && w in st.witnesses
  {
    var voted := AdjustWitness(st.witnesses[w], delta, st.now);
    if voted.votes > st.totalVests || Wrap(voted.votes + 1) == 0 then Aborted
    else Ok(WithAccount(st, a, st.accounts[a].(votedFor := st.accounts[a].votedFor + step))
            .(witnesses := st.witnesses[w := voted],
              votes := if step == 1 then st.votes + {(a, w)} else st.votes - {(a, w)}))
  }

  /** A request to give up voting rights coming into effect. */
  function DeclineVoting(st: State, a: Name): (r: Outcome<State>)
    requires WellFormed(st.accounts)
  {
    if a !in st.accounts then Aborted
    else
      match Adjust(st, a, Neg(Full(st.accounts[a])))
      case Aborted => Aborted
      case Ok(left) =>
        var cleared := ClearVotes(left, a);
        Ok(WithAccount(cleared, a, cleared.accounts[a].(canVote := false, proxy := NO_PROXY)))
  }

  /** A change of an account's vesting shares, followed by its propagation. */
  function ChangeVests(st: State, a: Name, dv: int): (r: Outcome<State>)
    requires WellFormed(st.accounts)
    ensures r.Ok? ==> WellFormed(r.value.accounts) && r.value.accounts.Keys == st.accounts.Keys
  {
    if a !in st.accounts || st.accounts[a].vests + dv < 0 then Aborted
    else Adjust(WithAccount(st, a, st.accounts[a].(vests := st.accounts[a].vests + dv)), a, Only(dv))
  }

  /** New vesting shares: powering up, producer pay and claimed rewards. */
  function Deposit(st: State, a: Name, amount: nat): (r: Outcome<State>)
    requires WellFormed(st.accounts)
  {
    if st.totalVests + amount > MAX_SHARES then Aborted
    else ChangeVests(st.(totalVests := st.totalVests + amount), a, amount)
  }

  /** The routes of a withdrawal that pay vesting shares to other accounts. */
  function PayRoutes(st: State, routes: seq<(Name, nat)>): (r: Outcome<State>)
    requires WellFormed(st.accounts)
    ensures r.Ok? ==> WellFormed(r.value.accounts)
    decreases |routes|
  {
    if routes == [] then Ok(st)
    else
      match ChangeVests(st, routes[0].0, routes[0].1)
      case Aborted => Aborted
      case Ok(paid) => PayRoutes(paid, routes[1..])
  }

  function RouteTotal(routes: seq<(Name, nat)>): nat
  {
    if routes == [] then 0 else routes[0].1 + RouteTotal(routes[1..])
  }

  /**
   One interval of a power-down: the vesting routes are paid first, then `sold` shares
   leave the share total, then the account itself is charged for both.
   */
  function PowerDown(st: State, a: Name, routes: seq<(Name, nat)>, sold: nat): (r: Outcome<State>)
    requires WellFormed(st.accounts)
  {
    if a !in st.accounts || RouteTotal(routes) + sold > st.accounts[a].vests || sold > st.totalVests then Aborted
    else
      match PayRoutes(st, routes)
      case Aborted => Aborted
      case Ok(paid) => ChangeVests(paid.(totalVests := paid.totalVests - sold), a, -(RouteTotal(routes) + sold))
  }

  /** The account that what is burnt is sent to. It has no keys, so nothing it would have to sign is accepted. */
  const NULL_ACCOUNT: Name := "null"

  /** The null account neither votes nor has a proxy. */
  ghost predicate Idle(st: State)
  {
    && (NULL_ACCOUNT in st.accounts ==> st.accounts[NULL_ACCOUNT].proxy == NO_PROXY)
    && VotedBy(st, NULL_ACCOUNT) == {}
  }

  /** The vesting part of `clear_null_account_balance`: votes are not adjusted. */
  function ClearVests(st: State, a: Name): (r: Outcome<State>)
  {
    if a !in st.accounts || st.totalVests < st.accounts[a].vests then Aborted
    else Ok(WithAccount(st, a, st.accounts[a].(vests := 0)).(totalVests := st.totalVests - st.accounts[a].vests))
  }

  function CreateAccount(st: State, a: Name): (r: Outcome<State>)
  {
    if a == NO_PROXY || a in st.accounts then Aborted
    else Ok(WithAccount(st, a, Account(0, NO_PROXY, [0, 0, 0, 0], true, 0)))
  }

  /** `witness_update`: a new witness starts with every virtual-time field at its default. */
  function UpdateWitness(st: State, w: Name, hasKey: bool): (r: Outcome<State>)
  {
    if w !in st.accounts then Aborted
    else if w in st.witnesses then Ok(st.(witnesses := st.witnesses[w := st.witnesses[w].(hasKey := hasKey)]))
    else Ok(st.(witnesses := st.witnesses[w := Fresh(hasKey)]))
  }

  /** The virtual-time effect of a schedule update that processed `count` witnesses. */
  function Reschedule(st: State, order: seq<Name>, count: nat): (r: Outcome<State>)
  {
    if count > |order| || !Divisible(st.witnesses) || !IsByFinish(st.witnesses, order) then Aborted
    else
      var (ws, now) := Advance(st.witnesses, order, count, st.now);
      Ok(st.(witnesses := ws, now := now))
  }

  predicate IsByFinish(ws: Witnesses, order: seq<Name>)
    ensures IsByFinish(ws, order) <==> ByFinish(ws, order)
  {
    && (forall n :: n in ws ==> n in order)
    && (forall n :: n in order ==> n in ws)
    && (forall i, j :: 0 <= i < j < |order| ==> order[i] != order[j])
    && (forall i, j :: 0 <= i < j < |order| ==> ws[order[i]].scheduled <= ws[order[j]].scheduled)
  }

  datatype Step =
    | ProxyStep(account: Name, proxy: Name)
    | VoteStep(account: Name, candidate: Name, approve: bool)
    | DeclineStep(account: Name)
    | DepositStep(account: Name, amount: nat)
    | PowerDownStep(account: Name, routes: seq<(Name, nat)>, sold: nat)
    | AccountStep(account: Name)
    | WitnessStep(candidate: Name, hasKey: bool)
    | ScheduleStep(order: seq<Name>, count: nat)
    | ClearNullStep

  /** The steps an account has to sign, one way or another. */
  predicate SignedBy(step: Step, a: Name)
  {
    (step.ProxyStep? || step.VoteStep? || step.DeclineStep?) && step.account == a
  }

  function Apply(st: State, step: Step): (r: Outcome<State>)
    requires WellFormed(st.accounts)
  {
    if SignedBy(step, NULL_ACCOUNT) then Aborted
    else
    match step
    case ProxyStep(a, p) => SetProxy(st, a, p)
    case VoteStep(a, w, approve) => CastVote(st, a, w, approve)
    case DeclineStep(a) => DeclineVoting(st, a)
    case DepositStep(a, amount) => Deposit(st, a, amount)
    case PowerDownStep(a, routes, sold) => PowerDown(st, a, routes, sold)
    case AccountStep(a) => CreateAccount(st, a)
    case WitnessStep(w, hasKey) => UpdateWitness(st, w, hasKey)
    case ScheduleStep(order, count) => Reschedule(st, order, count)
    case ClearNullStep => ClearVests(st, NULL_ACCOUNT)
  }
}
