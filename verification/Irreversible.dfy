/**
 The last irreversible block, along one branch of the chain. During the first month it trails
 the head by a fixed distance; after that it is the highest block that three quarters of the
 scheduled witnesses have confirmed.
 */
module Irreversible {
  import opened Common

  const MAX_WITNESSES: nat := 21
  const HUNDRED_PERCENT: nat := 10000
  const IRREVERSIBLE_THRESHOLD: nat := 7500
  const START_VOTING_BLOCK: nat := 864000

  /** How many entries are at least `v`. */
  function Reaching(s: seq<nat>, v: nat): (n: nat)
    ensures n <= |s|
  {
    if s == [] then 0 else Reaching(s[1..], v) + if s[0] >= v then 1 else 0
  }

  function LeastAt(s: seq<nat>): (m: nat)
    requires s != []
    ensures m < |s| && forall i :: 0 <= i < |s| ==> s[m] <= s[i]
  {
    if |s| == 1 then 0
    else
      var m := LeastAt(s[1..]) + 1;
      if s[0] <= s[m] then 0 else m
  }

  function Without(s: seq<nat>, m: nat): seq<nat>
    requires m < |s|
  {
    s[..m] + s[m + 1..]
  }

  /** The entry at position `k` once sorted. */
  function Nth(s: seq<nat>, k: nat): nat
    requires k < |s|
    decreases k
  {
    if k == 0 then s[LeastAt(s)] else Nth(Without(s, LeastAt(s)), k - 1)
  }

  lemma {:induction false} ReachingSplit(a: seq<nat>, b: seq<nat>, v: nat)
    ensures Reaching(a + b, v) == Reaching(a, v) + Reaching(b, v)
  {
    if a == [] {
      assert a + b == b;
    } else {
      assert (a + b)[1..] == a[1..] + b;
      ReachingSplit(a[1..], b, v);
    }
  }

  lemma ReachingWithout(s: seq<nat>, m: nat, v: nat)
    requires m < |s|
    ensures Reaching(s, v) == Reaching(Without(s, m), v) + if s[m] >= v then 1 else 0
  {
    assert s == s[..m] + ([s[m]] + s[m + 1..]);
    ReachingSplit(s[..m], [s[m]] + s[m + 1..], v);
    ReachingSplit([s[m]], s[m + 1..], v);
    ReachingSplit(s[..m], s[m + 1..], v);
  }

  lemma {:induction false} ReachingAll(s: seq<nat>, v: nat)
    requires forall i :: 0 <= i < |s| ==> s[i] >= v
    ensures Reaching(s, v) == |s|
  {
    if s != [] { ReachingAll(s[1..], v); }
  }

  /** All but `k` entries reach the `k`-th one, and at most that many reach anything higher. */
  lemma {:induction false} NthReached(s: seq<nat>, k: nat)
    requires k < |s|
    ensures Nth(s, k) in s
    ensures Reaching(s, Nth(s, k)) >= |s| - k
    ensures forall v :: v > Nth(s, k) ==> Reaching(s, v) < |s| - k
    decreases k
  {
    var m := LeastAt(s);
    var rest := Without(s, m);
    if k == 0 {
      ReachingAll(s, s[m]);
      forall v | v > s[m] ensures Reaching(s, v) < |s| { ReachingWithout(s, m, v); }
    } else {
      NthReached(rest, k - 1);
      var v := Nth(s, k);
      ReachingWithout(s, m, v);
      assert v in rest;
      forall u | u > v ensures Reaching(s, u) < |s| - k {
        ReachingWithout(s, m, u);
        assert s[m] <= v;
      }
    }
  }

  /** At most one entry reaches `v`, so the `k`-th does not when two or more are above it. */
  lemma {:induction false} OneReaching(s: seq<nat>, v: nat, at: nat)
    requires forall i :: 0 <= i < |s| && i != at ==> s[i] < v
    ensures Reaching(s, v) <= 1
    ensures at < |s| && s[at] >= v ==> Reaching(s, v) == 1
    ensures !(at < |s| && s[at] >= v) ==> Reaching(s, v) == 0
  {
    if s != [] { OneReaching(s[1..], v, if at == 0 then |s| else at - 1); }
  }

  /** `Reaching` counts the places that reach `v`. */
  lemma {:induction false} ReachingCounts(s: seq<nat>, v: nat)
    ensures Reaching(s, v) == |set i | 0 <= i < |s| && s[i] >= v|
  {
    var places := set i | 0 <= i < |s| && s[i] >= v;
    if s == [] {
      assert places == {};
    } else {
      var init, last := s[..|s| - 1], |s| - 1;
      ReachingCounts(init, v);
      assert s == init + [s[last]];
      ReachingSplit(init, [s[last]], v);
      var before := set i | 0 <= i < |init| && init[i] >= v;
      assert places == if s[last] >= v then before + {last} else before;
    }
  }

  /** The position, among the sorted confirmations, of the block that enough of `n` witnesses have confirmed. */
  function Offset(n: nat): nat
  {
    (HUNDRED_PERCENT - IRREVERSIBLE_THRESHOLD) * n / HUNDRED_PERCENT
  }

  datatype Finality = Finality(head: nat, lib: nat, confirmed: map<Name, nat>)

  function Confirmations(confirmed: map<Name, nat>, schedule: seq<Name>): (s: seq<nat>)
    requires forall i :: 0 <= i < |schedule| ==> schedule[i] in confirmed
    ensures |s| == |schedule| && forall i :: 0 <= i < |s| ==> s[i] == confirmed[schedule[i]]
  {
    seq(|schedule|, i requires 0 <= i < |schedule| => confirmed[schedule[i]])
  }

  /** The last irreversible block after a new head. */
  function NewLib(head: nat, lib: nat, s: seq<nat>): nat
    requires s != []
  {
    if head < START_VOTING_BLOCK then (if head > MAX_WITNESSES then head - MAX_WITNESSES else lib)
    else
      var v := Nth(s, Offset(|s|));
      if v > lib then v else lib
  }

  predicate Scheduled(confirmed: map<Name, nat>, schedule: seq<Name>)
  {
    && schedule != []
    && (forall i :: 0 <= i < |schedule| ==> schedule[i] in confirmed)
    && (forall i, j :: 0 <= i < j < |schedule| ==> schedule[i] != schedule[j])
  }

  /** One block, signed by `signer` while `schedule` was in force. */
  function Step(f: Finality, signer: Name, schedule: seq<Name>): Finality
    requires Scheduled(f.confirmed, schedule)
  {
    var confirmed := f.confirmed[signer := f.head + 1];
    Finality(f.head + 1, NewLib(f.head + 1, f.lib, Confirmations(confirmed, schedule)), confirmed)
  }

  predicate Inv(f: Finality)
  {
    && f.lib <= f.head
    && (forall w :: w in f.confirmed ==> f.confirmed[w] <= f.head)
    && (f.head < START_VOTING_BLOCK ==> f.lib == if f.head > MAX_WITNESSES then f.head - MAX_WITNESSES else 0)
  }

  /**
   Once votes decide, the last irreversible block is the highest that three quarters of the scheduled
   witnesses have confirmed, unless it was above that before.
   */
  ghost predicate Voted(lib: nat, next: nat, s: seq<nat>)
  {
    && lib <= next
    && (lib < next ==> Reaching(s, next) * HUNDRED_PERCENT >= IRREVERSIBLE_THRESHOLD * |s|)
    && forall v :: v > next ==> Reaching(s, v) * HUNDRED_PERCENT < IRREVERSIBLE_THRESHOLD * |s|
  }

  lemma OffsetVotes(s: seq<nat>, lib: nat)
    requires s != []
    ensures Offset(|s|) < |s|
    ensures var v := Nth(s, Offset(|s|)); Voted(lib, if v > lib then v else lib, s)
  {
    hide Nth, Reaching;
    NthReached(s, Offset(|s|));
  }

  /** Nothing but one block meets that. */
  lemma VotedOnce(lib: nat, a: nat, b: nat, s: seq<nat>)
    requires Voted(lib, a, s) && Voted(lib, b, s)
    ensures a == b
  {
    hide Reaching;
  }

  /**
   The last irreversible block never goes back and never passes the head; once votes decide, it is the
   highest that three quarters of the scheduled witnesses have confirmed; and it reaches the head itself
   only when the signer is the only scheduled witness.
   */
  lemma StepKeeps(f: Finality, signer: Name, schedule: seq<Name>)
    requires Inv(f) && Scheduled(f.confirmed, schedule)
    ensures var next := Step(f, signer, schedule);
            && Inv(next)
            && f.lib <= next.lib
            && next.head == f.head + 1 && next.confirmed == f.confirmed[signer := f.head + 1]
            && (next.lib == next.head <==> next.head >= START_VOTING_BLOCK && schedule == [signer])
            && (next.head >= START_VOTING_BLOCK ==> Voted(f.lib, next.lib, Confirmations(next.confirmed, schedule)))
  {
    hide Nth, Reaching, Confirmations, Voted;
    var next := Step(f, signer, schedule);
    var s := Confirmations(next.confirmed, schedule);
    if next.head >= START_VOTING_BLOCK {
      OffsetVotes(s, f.lib);
      SignerAlone(f, signer, schedule, s);
    }
  }

  lemma SignerAlone(f: Finality, signer: Name, schedule: seq<Name>, s: seq<nat>)
    requires Inv(f) && Scheduled(f.confirmed, schedule)
    requires s == Confirmations(f.confirmed[signer := f.head + 1], schedule)
    ensures Nth(s, Offset(|s|)) == f.head + 1 <==> schedule == [signer]
    ensures Nth(s, Offset(|s|)) <= f.head + 1
  {
    hide Nth, Reaching;
    NthReached(s, Offset(|s|));
    if signer in schedule {
      var at :| 0 <= at < |schedule| && schedule[at] == signer;
      OneReaching(s, f.head + 1, at);
    } else {
      OneReaching(s, f.head + 1, |s|);
    }
  }

  /** The schedules in force along a branch; they name known witnesses, each once. */
  ghost predicate Possible(f: Finality, blocks: seq<(Name, seq<Name>)>)
    decreases |blocks|
  {
    blocks == [] || (Scheduled(f.confirmed, blocks[0].1) && Possible(Step(f, blocks[0].0, blocks[0].1), blocks[1..]))
  }

  ghost function Run(f: Finality, blocks: seq<(Name, seq<Name>)>): Finality
    requires Possible(f, blocks)
    decreases |blocks|
  {
    if blocks == [] then f else Run(Step(f, blocks[0].0, blocks[0].1), blocks[1..])
  }

  lemma {:induction false} RunKeeps(f: Finality, blocks: seq<(Name, seq<Name>)>)
    requires Inv(f) && Possible(f, blocks)
    ensures Inv(Run(f, blocks)) && f.lib <= Run(f, blocks).lib <= Run(f, blocks).head
    decreases |blocks|
  {
    if blocks != [] {
      StepKeeps(f, blocks[0].0, blocks[0].1);
      RunKeeps(Step(f, blocks[0].0, blocks[0].1), blocks[1..]);
    }
  }

  /** The global properties and witness objects the update works on. */
  class Properties {
    var head: nat
    var lib: nat
    var confirmed: map<Name, nat>

    ghost function Value(): Finality
      reads this
    {
      Finality(head, lib, confirmed)
    }

    method ApplyBlock(signer: Name, schedule: seq<Name>)
      requires Inv(Value()) && Scheduled(confirmed, schedule)
      modifies this
      ensures Value() == Step(old(Value()), signer, schedule) && Inv(Value())
      ensures head == old(head) + 1 && confirmed == old(confirmed)[signer := head] && lib <= head
      ensures head >= START_VOTING_BLOCK ==> Voted(old(lib), lib, Confirmations(confirmed, schedule))
      ensures head < START_VOTING_BLOCK ==> lib == if head > MAX_WITNESSES then head - MAX_WITNESSES else 0
    {
      hide Nth, Reaching, Voted, Offset;
      StepKeeps(Value(), signer, schedule);
      head := head + 1;
      confirmed := confirmed[signer := head];
      if head < START_VOTING_BLOCK {
        if head > MAX_WITNESSES { lib := head - MAX_WITNESSES; }
      } else {
        var witnesses := [];
        var i := 0;
        while i < |schedule|
          invariant 0 <= i <= |schedule|
          invariant witnesses == Confirmations(confirmed, schedule)[..i]
        {
          witnesses := witnesses + [confirmed[schedule[i]]];
          i := i + 1;
        }
        assert witnesses == Confirmations(confirmed, schedule);
        OffsetVotes(witnesses, lib);
        var reached := Nth(witnesses, Offset(|witnesses|));
        if reached > lib { lib := reached; }
      }
    }
  }
}
