/**
 The witness schedule for the next round: the twenty highest voted witnesses, one more by
 virtual time, in a shuffled order; and the pay that the round is worth.
 */
module Schedule {
  import opened Common
  import opened Sums
  import opened VirtualTime

  const MAX_WITNESSES: nat := 21
  const MAX_VOTED: nat := 20
  const ELECTED_WEIGHT: nat := 1
  const TIMESHARE_WEIGHT: nat := 5
  const MINER_WEIGHT: nat := 1

  /** The witnesses in vote order: most votes first, then by name. */
  ghost predicate ByVotes(ws: Witnesses, order: seq<Name>)
  {
    && (forall n :: n in ws <==> n in order)
    && Distinct(order)
    && (forall i, j :: 0 <= i < j < |order| ==> ws[order[i]].votes >= ws[order[j]].votes)
  }

  predicate Distinct(s: seq<Name>)
  {
    forall i, j :: 0 <= i < j < |s| ==> s[i] != s[j]
  }

  function Elements(s: seq<Name>): (r: set<Name>)
    ensures forall x :: x in r <==> x in s
  {
    set x | x in s
  }

  function Keyed(ws: Witnesses): (r: set<Name>)
  {
    set n | n in ws && ws[n].hasKey
  }

  lemma {:induction false} DistinctSize(s: seq<Name>)
    requires Distinct(s)
    ensures |Elements(s)| == |s|
  {
    if s != [] {
      var init, last := s[..|s| - 1], s[|s| - 1];
      DistinctSize(init);
      assert Elements(s) == Elements(init) + {last};
    }
  }

  function SetKind(ws: Witnesses, chosen: set<Name>, kind: ScheduleKind): (r: Witnesses)
    ensures r.Keys == ws.Keys
    ensures forall n :: n in ws ==> r[n] == if n in chosen then ws[n].(kind := kind) else ws[n]
  {
    map n | n in ws :: if n in chosen then ws[n].(kind := kind) else ws[n]
  }

  /** The keyed witnesses that are chosen are as many as fit, and the best by `order`. */
  ghost predicate Chosen(ws: Witnesses, order: seq<Name>, from: set<Name>, chosen: seq<Name>, room: nat)
  {
    && Distinct(chosen) && |chosen| <= room
    && Elements(chosen) <= from
    && (|chosen| < room ==> Elements(chosen) == from)
    && (forall i, j :: 0 <= i < j < |order| && order[i] in from && order[j] in chosen ==> order[i] in chosen)
  }

  /**
   The race was followed up to the witness that takes the last place, or to its end. The leaders are
   the candidates met on the way.
   */
  ghost predicate FollowedTo(order: seq<Name>, from: set<Name>, leaders: seq<Name>, room: nat, processed: nat)
  {
    && processed <= |order|
    && (forall n :: n in leaders <==> n in order[..processed] && n in from)
    && (|leaders| == room || processed == |order|)
    && (|leaders| == room ==> if room == 0 then processed == 0
                              else processed > 0 && order[processed - 1] == leaders[room - 1])
  }

  // ----- shuffling -----

  const MULTIPLIER: bv64 := 2685821657736338717

  /** The generator's value for position `i` at the given block time. */
  function Random(time: bv32, i: bv32): bv64
  {
    var k0 := ((time as bv64) << 32) + (i as bv64) * MULTIPLIER;
    var k1 := k0 ^ (k0 >> 12);
    var k2 := k1 ^ (k1 << 25);
    var k3 := k2 ^ (k2 >> 27);
    k3 * MULTIPLIER
  }

  function Draw(time: bv32, i: nat): nat
    requires i < MAX_WITNESSES
  {
    Random(time, i as bv32) as nat
  }

  function Below(k: nat, room: nat): (r: nat)
    requires room > 0
    ensures r < room
  {
    k % room
  }

  /** Where position `i` is swapped with, among `count` positions. */
  function Partner(time: bv32, i: nat, count: nat): (j: nat)
    requires i < count <= MAX_WITNESSES
    ensures i <= j < count
  {
    i + Below(Draw(time, i), count - i)
  }

  function Swapped<T>(s: seq<T>, i: nat, j: nat): (r: seq<T>)
    requires i < |s| && j < |s|
    ensures |r| == |s|
  {
    s[i := s[j]][j := s[i]]
  }

  /** `b` lists the elements of `a` in another order. */
  ghost predicate Shuffled<T>(a: seq<T>, b: seq<T>)
  {
    multiset(a) == multiset(b)
  }

  /** After the first `i` places have been drawn. */
  function Drawn<T>(s: seq<T>, time: bv32, i: nat): (r: seq<T>)
    requires i <= |s| <= MAX_WITNESSES
    ensures |r| == |s|
  {
    if i == 0 then s else Swapped(Drawn(s, time, i - 1), i - 1, Partner(time, i - 1, |s|))
  }

  /** The place is one of those still left, and it is the generator's value up to a multiple of how many are left. */
  lemma PartnerDraws(time: bv32, i: nat, count: nat) returns (k: nat)
    requires i < count <= MAX_WITNESSES
    ensures i <= Partner(time, i, count) < count
    ensures Draw(time, i) == k * (count - i) + (Partner(time, i, count) - i)
  {
    hide Draw;
    k := Draw(time, i) / (count - i);
    assert Draw(time, i) == k * (count - i) + Draw(time, i) % (count - i);
  }

  /** The first places hold the round in the order drawn. */
  ghost predicate DrawnInto(places: seq<Name>, active: seq<Name>, time: bv32)
  {
    && |active| <= |places| && |active| <= MAX_WITNESSES
    && places[..|active|] == Drawn(active, time, |active|)
  }

  /** A place once drawn stays; place `i` gets the one that the generator picks among those still left. */
  lemma {:induction false} DrawnStay<T>(s: seq<T>, time: bv32, i: nat, k: nat)
    requires i < k <= |s| <= MAX_WITNESSES
    ensures Drawn(s, time, k)[i] == Drawn(s, time, i)[Partner(time, i, |s|)]
    ensures Drawn(s, time, k)[..i] == Drawn(s, time, i)[..i]
    decreases k
  {
    hide Partner, Drawn;
    OneDrawn(s, time, k - 1);
    if k > i + 1 {
      DrawnStay(s, time, i, k - 1);
      assert Drawn(s, time, k)[..i] == Drawn(s, time, k - 1)[..i];
    }
  }

  lemma NoneDrawn<T>(s: seq<T>, time: bv32)
    requires |s| <= MAX_WITNESSES
    ensures Drawn(s, time, 0) == s
  {
  }

  lemma OneDrawn<T>(s: seq<T>, time: bv32, i: nat)
    requires i < |s| <= MAX_WITNESSES
    ensures Drawn(s, time, i + 1) == Swapped(Drawn(s, time, i), i, Partner(time, i, |s|))
  {
    hide Partner;
  }

  lemma {:induction false} DrawnShuffles<T>(s: seq<T>, time: bv32, i: nat)
    requires i <= |s| <= MAX_WITNESSES
    ensures Shuffled(s, Drawn(s, time, i))
  {
    hide Partner, Drawn, Shuffled, Swapped;
    if i == 0 {
      NoneDrawn(s, time);
      Unshuffled(s);
    } else {
      OneDrawn(s, time, i - 1);
      DrawnShuffles(s, time, i - 1);
      SwapShuffles(s, Drawn(s, time, i - 1), i - 1, Partner(time, i - 1, |s|));
    }
  }

  lemma Unshuffled<T>(s: seq<T>)
    ensures Shuffled(s, s)
  {
  }

  lemma SwapShuffles<T>(a: seq<T>, s: seq<T>, i: nat, j: nat)
    requires i < |s| && j < |s| && Shuffled(a, s)
    ensures Shuffled(a, Swapped(s, i, j))
  {
  }

  /** Shuffling the first `count` entries in place. */
  method Shuffle(a: array<Name>, count: nat, time: bv32)
    requires count <= a.Length && count <= MAX_WITNESSES
    modifies a
    ensures Shuffled(old(a[..count]), a[..count])
    ensures a[..count] == Drawn(old(a[..count]), time, count)
    ensures a[count..] == old(a[count..])
  {
    hide Partner, Drawn, Shuffled;
    ghost var before := a[..count];
    NoneDrawn(before, time);
    var i := 0;
    while i < count
      invariant 0 <= i <= count && a[..count] == Drawn(before, time, i)
      invariant a[count..] == old(a[count..])
    {
      var j := Partner(time, i, count);
      OneDrawn(before, time, i);
      ghost var s := a[..count];
      a[i], a[j] := a[j], a[i];
      assert a[..count] == Swapped(s, i, j);
      i := i + 1;
    }
    DrawnShuffles(before, time, count);
  }

  // ----- pay -----

  function Weight(kind: ScheduleKind): nat
  {
    match kind
    case Elected => ELECTED_WEIGHT
    case Timeshare => TIMESHARE_WEIGHT
    case Miner => MINER_WEIGHT
    case Unscheduled => 1
  }

  /** What the producer of a block is paid, out of a base reward. */
  function Pay(reward: nat, kind: ScheduleKind, factor: nat): nat
    requires factor > 0
  {
    reward * MAX_WITNESSES * Weight(kind) / factor
  }

  function TotalWeight(kinds: seq<ScheduleKind>): nat
  {
    if kinds == [] then 0 else Weight(kinds[0]) + TotalWeight(kinds[1..])
  }

  function TotalPay(reward: nat, kinds: seq<ScheduleKind>, factor: nat): nat
    requires factor > 0
  {
    if kinds == [] then 0 else Pay(reward, kinds[0], factor) + TotalPay(reward, kinds[1..], factor)
  }

  lemma {:induction false} PayWithin(reward: nat, kinds: seq<ScheduleKind>, factor: nat)
    requires factor > 0
    ensures TotalPay(reward, kinds, factor) * factor <= reward * MAX_WITNESSES * TotalWeight(kinds)
    ensures reward * MAX_WITNESSES * TotalWeight(kinds) <= (TotalPay(reward, kinds, factor) + |kinds|) * factor
    ensures kinds != [] ==>
              reward * MAX_WITNESSES * TotalWeight(kinds) < (TotalPay(reward, kinds, factor) + |kinds|) * factor
  {
    if kinds != [] {
      PayWithin(reward, kinds[1..], factor);
      OneMore(reward * MAX_WITNESSES, Weight(kinds[0]), factor,
              TotalPay(reward, kinds[1..], factor), TotalWeight(kinds[1..]), |kinds| - 1);
    }
  }

  lemma OneMore(pot: nat, w: nat, factor: nat, paid: nat, weight: nat, rounded: nat)
    requires factor > 0 && paid * factor <= pot * weight <= (paid + rounded) * factor
    ensures (pot * w / factor + paid) * factor <= pot * (w + weight)
    ensures pot * (w + weight) < (pot * w / factor + paid + rounded + 1) * factor
  {
    var p := pot * w / factor;
    assert pot * w == p * factor + pot * w % factor;
    assert (p + paid) * factor == p * factor + paid * factor;
    assert (p + paid + rounded + 1) * factor == p * factor + (paid + rounded) * factor + factor;
    assert pot * (w + weight) == pot * w + pot * weight;
  }

  /**
   A round in which every scheduled witness produces costs at most 21 base rewards, and less than that by less
   than one unit for each witness.
   */
  lemma RoundPay(reward: nat, kinds: seq<ScheduleKind>)
    requires TotalWeight(kinds) > 0
    ensures TotalPay(reward, kinds, TotalWeight(kinds)) <= reward * MAX_WITNESSES
    ensures reward * MAX_WITNESSES < TotalPay(reward, kinds, TotalWeight(kinds)) + |kinds|
  {
    var factor := TotalWeight(kinds);
    var total, pot := TotalPay(reward, kinds, factor), reward * MAX_WITNESSES;
    PayWithin(reward, kinds, factor);
    if total > pot { MulStrict(pot, total, factor); }
    if total + |kinds| < pot { MulStrict(total + |kinds|, pot, factor); }
  }

  lemma MulStrict(a: nat, b: nat, k: nat)
    requires a < b && k > 0
    ensures a * k < b * k
  {
  }

  lemma {:induction false} WeightOf(kinds: seq<ScheduleKind>, elected: nat)
    requires forall i :: 0 <= i < |kinds| ==> kinds[i] == if i < elected then Elected else Timeshare
    requires elected <= |kinds|
    ensures TotalWeight(kinds) == ELECTED_WEIGHT * elected + TIMESHARE_WEIGHT * (|kinds| - elected)
  {
    if kinds != [] { WeightOf(kinds[1..], if elected == 0 then 0 else elected - 1); }
  }

  function Kinds(ws: Witnesses, names: seq<Name>): (r: seq<ScheduleKind>)
    requires forall n :: n in names ==> n in ws
    ensures |r| == |names| && forall i :: 0 <= i < |r| ==> r[i] == ws[names[i]].kind
  {
    seq(|names|, i requires 0 <= i < |names| => ws[names[i]].kind)
  }

  /** The weight of a round does not depend on the order of the witnesses. */
  lemma {:induction false} WeightIsSum(ws: Witnesses, names: seq<Name>)
    requires Distinct(names) && forall n :: n in names ==> n in ws
    ensures TotalWeight(Kinds(ws, names)) == Sum(Elements(names), n => WeightIn(ws, n))
  {
    hide Weight;
    if names != [] {
      WeightIsSum(ws, names[1..]);
      assert Elements(names) == Elements(names[1..]) + {names[0]};
      SumInsert(Elements(names[1..]), names[0], n => WeightIn(ws, n));
      assert Kinds(ws, names)[1..] == Kinds(ws, names[1..]);
    }
  }

  function WeightIn(ws: Witnesses, n: Name): int
  {
    if n in ws then Weight(ws[n].kind) else 0
  }

  lemma ShuffledDistinct(a: seq<Name>, b: seq<Name>)
    requires Shuffled(a, b) && Distinct(a)
    ensures |a| == |b| && Distinct(b) && Elements(a) == Elements(b)
  {
    assert |a| == |multiset(a)| == |multiset(b)| == |b|;
    forall n ensures n in a <==> n in b { assert n in multiset(a) <==> n in multiset(b); }
    assert Elements(a) == Elements(b);
    DistinctSize(a);
    if !Distinct(b) { Repeated(b); }
  }

  lemma Repeated(b: seq<Name>)
    requires !Distinct(b)
    ensures |Elements(b)| < |b|
  {
    var i, j :| 0 <= i < j < |b| && b[i] == b[j];
    var rest := b[..j] + b[j + 1..];
    assert Elements(rest) == Elements(b) by {
      forall n | n in b ensures n in rest {
        var k :| 0 <= k < |b| && b[k] == n;
        if k < j { assert rest[k] == n; } else if k > j { assert rest[k - 1] == n; } else { assert rest[i] == n; }
      }
    }
    ElementsBound(rest);
  }

  lemma {:induction false} ElementsBound(s: seq<Name>)
    ensures |Elements(s)| <= |s|
  {
    if s != [] {
      ElementsBound(s[1..]);
      assert Elements(s) == Elements(s[1..]) + {s[0]};
    }
  }

  // ----- the update -----

  class Scheduler {
    var witnesses: Witnesses
    var now: nat
    const shuffled: array<Name>
    var scheduled: nat
    var payFactor: nat

    ghost predicate Valid()
      reads this
    {
      shuffled.Length == MAX_WITNESSES && now <= MAX128 && AllInStep(witnesses, now)
    }

    constructor ()
      ensures Valid() && witnesses == map[] && now == 0
    {
      shuffled := new Name[MAX_WITNESSES](i => "");
      witnesses, now, scheduled, payFactor := map[], 0, 1, 25;
    }

    /** The highest voted witnesses that can sign. */
    method ChooseElected(byVotes: seq<Name>) returns (elected: seq<Name>)
      requires ByVotes(witnesses, byVotes)
      ensures Chosen(witnesses, byVotes, Keyed(witnesses), elected, MAX_VOTED)
    {
      elected := [];
      var i := 0;
      while i < |byVotes| && |elected| < MAX_VOTED
        invariant 0 <= i <= |byVotes| && |elected| <= MAX_VOTED
        invariant Distinct(elected)
        invariant forall x :: x in elected <==> x in byVotes[..i] && x in Keyed(witnesses)
      {
        assert byVotes[i] !in byVotes[..i] && byVotes[..i + 1] == byVotes[..i] + [byVotes[i]];
        if witnesses[byVotes[i]].hasKey { elected := elected + [byVotes[i]]; }
        i := i + 1;
      }
      forall j, k | 0 <= j < k < |byVotes| && byVotes[j] in Keyed(witnesses) && byVotes[k] in elected
        ensures byVotes[j] in elected
      {
        assert k < i && byVotes[j] in byVotes[..i];
      }
    }

    /** The witnesses in the lead for the places that are left. */
    method ChooseTimeshare(bySchedule: seq<Name>, elected: seq<Name>) returns (leaders: seq<Name>, processed: nat)
      requires ByFinish(witnesses, bySchedule) && |elected| <= MAX_WITNESSES
      ensures var from, room := Keyed(witnesses) - Elements(elected), MAX_WITNESSES - |elected|;
              && Chosen(witnesses, bySchedule, from, leaders, room)
              && FollowedTo(bySchedule, from, leaders, room, processed)
    {
      leaders, processed := [], 0;
      while processed < |bySchedule| && |elected| + |leaders| < MAX_WITNESSES
        invariant 0 <= processed <= |bySchedule| && |elected| + |leaders| <= MAX_WITNESSES
        invariant Distinct(leaders)
        invariant |elected| + |leaders| == MAX_WITNESSES ==>
                    if leaders == [] then processed == 0
                    else processed > 0 && bySchedule[processed - 1] == leaders[|leaders| - 1]
        invariant forall x ::
                    x in leaders <==> x in bySchedule[..processed] && x in Keyed(witnesses) - Elements(elected)
      {
        var name := bySchedule[processed];
        assert name !in bySchedule[..processed];
        assert bySchedule[..processed + 1] == bySchedule[..processed] + [name];
        processed := processed + 1;
        if witnesses[name].hasKey && name !in elected { leaders := leaders + [name]; }
      }
      ghost var from := Keyed(witnesses) - Elements(elected);
      forall j, k | 0 <= j < k < |bySchedule| && bySchedule[j] in from && bySchedule[k] in leaders
        ensures bySchedule[j] in leaders
      {
        assert k < processed && bySchedule[j] in bySchedule[..processed];
      }
    }

    /** The processed witnesses start a new lap, or everyone does. */
    method AdvanceProcessed(bySchedule: seq<Name>, processed: nat)
      requires Divisible(witnesses) && processed <= |bySchedule| && forall n :: n in bySchedule ==> n in witnesses
      requires Distinct(bySchedule)
      modifies this`witnesses, this`now
      ensures (witnesses, now) == Advance(old(witnesses), bySchedule, processed, old(now))
      ensures var done := bySchedule[..processed];
              var time := LastFinish(old(witnesses), done, old(now));
              time <= MAX128 && Countable(old(witnesses)) ==>
                Raced(old(witnesses), witnesses, done, time, now) && SameKinds(old(witnesses), witnesses)
    {
      hide Restart, Raced, Wrap, Countable, SameKinds, LastFinish, Advance, ResetAll, RestartDone;
      ProcessedRaces(witnesses, bySchedule, processed, now);
      ghost var ws := witnesses;
      var time := if processed == 0 then now else witnesses[bySchedule[processed - 1]].scheduled;
      var i := 0;
      NoneRestarted(ws, bySchedule, time);
      while i < processed
        invariant 0 <= i <= processed
        invariant witnesses == RestartDone(ws, bySchedule[..i], time)
        invariant forall k :: 0 <= k < i ==> Restart(ws[bySchedule[k]], time).scheduled >= time
      {
        var n := bySchedule[i];
        OneRestarted(ws, bySchedule, time, i);
        var next := Restart(witnesses[n], time);
        if next.scheduled < time {
          ResetAfter(ws, bySchedule[..i], time);
          AdvanceResets(ws, bySchedule, processed, old(now), i);
          witnesses, now := ResetAll(witnesses), 0;
          return;
        }
        witnesses := witnesses[n := next];
        i := i + 1;
      }
      AdvanceRestarts(ws, bySchedule, processed, old(now));
      now := time;
    }

    /** The kinds of the chosen witnesses, and virtual time. */
    method Mark(elected: set<Name>, leaders: set<Name>, bySchedule: seq<Name>, processed: nat)
      requires Valid() && ByFinish(witnesses, bySchedule) && processed <= |bySchedule|
      modifies this`witnesses, this`now
      ensures Valid()
      ensures var chosen := SetKind(SetKind(old(witnesses), elected, Elected), leaders, Timeshare);
              Divisible(chosen) && (witnesses, now) == Advance(chosen, bySchedule, processed, old(now))
      ensures var done := bySchedule[..processed];
              Raced(old(witnesses), witnesses, done, LastFinish(old(witnesses), done, old(now)), now)
      ensures Named(old(witnesses), witnesses, elected, leaders)
    {
      hide InStep, Restart, Wrap, Raced;
      ghost var ws := witnesses;
      KindKeeps(witnesses, elected, Elected, bySchedule, now);
      witnesses := SetKind(witnesses, elected, Elected);
      KindKeeps(witnesses, leaders, Timeshare, bySchedule, now);
      witnesses := SetKind(witnesses, leaders, Timeshare);
      AdvanceInStep(witnesses, bySchedule, processed, now);
      ghost var chosen, from := witnesses, now;
      AdvanceProcessed(bySchedule, processed);
      RacedUnnamed(ws, chosen, witnesses, elected, leaders, bySchedule[..processed], from, now);
    }

    method Write(active: seq<Name>)
      requires shuffled.Length == MAX_WITNESSES && |active| <= MAX_WITNESSES
      modifies shuffled
      ensures shuffled[..] == Places(active)
    {
      var i := 0;
      while i < MAX_WITNESSES
        invariant 0 <= i <= MAX_WITNESSES
        invariant forall k :: 0 <= k < i ==> shuffled[k] == if k < |active| then active[k] else ""
      {
        shuffled[i] := if i < |active| then active[i] else "";
        i := i + 1;
      }
    }

    /** The round is written to the schedule and shuffled in place. */
    method Post(active: seq<Name>, time: bv32)
      requires shuffled.Length == MAX_WITNESSES && Distinct(active) && |active| <= MAX_WITNESSES
      modifies this`scheduled, shuffled
      ensures Placed(shuffled[..], active) && DrawnInto(shuffled[..], active, time)
      ensures scheduled == if active == [] then 1 else |active|
    {
      hide Drawn, Shuffled, Placed, DrawnInto, Places, Distinct;
      Write(active);
      ghost var before := shuffled[..];
      scheduled := if active == [] then 1 else |active|;
      assert shuffled[..scheduled] == before[..scheduled] && shuffled[scheduled..] == before[scheduled..];
      Shuffle(shuffled, scheduled, time);
      assert shuffled[..scheduled] == shuffled[..][..scheduled] && shuffled[scheduled..] == shuffled[..][scheduled..];
      Posted(active, shuffled[..], time);
    }

    /** `update_witness_schedule4` */
    method Update(byVotes: seq<Name>, bySchedule: seq<Name>, time: bv32)
      returns (ok: bool, elected: seq<Name>, leaders: seq<Name>, processed: nat)
      requires Valid() && ByVotes(witnesses, byVotes) && ByFinish(witnesses, bySchedule)
      modifies this, shuffled
      ensures Valid()
      ensures ok <==> Keyed(old(witnesses)) == old(witnesses).Keys || |Keyed(old(witnesses))| >= MAX_WITNESSES
      ensures !ok ==> unchanged(this) && unchanged(shuffled)
      ensures Chosen(old(witnesses), byVotes, Keyed(old(witnesses)), elected, MAX_VOTED)
      ensures var from, room := Keyed(old(witnesses)) - Elements(elected), MAX_WITNESSES - |elected|;
              && Chosen(old(witnesses), bySchedule, from, leaders, room)
              && FollowedTo(bySchedule, from, leaders, room, processed)
      ensures |elected + leaders| == Min(MAX_WITNESSES, |Keyed(old(witnesses))|)
      ensures ok ==> Placed(shuffled[..], elected + leaders)
      ensures ok ==> scheduled == if elected + leaders == [] then 1 else |elected + leaders|
      ensures processed <= |bySchedule|
      ensures ok ==>
                var named := SetKind(old(witnesses), Elements(elected), Elected);
                var chosen := SetKind(named, Elements(leaders), Timeshare);
                Divisible(chosen) && (witnesses, now) == Advance(chosen, bySchedule, processed, old(now))
      ensures ok ==> Rescheduled(old(witnesses), witnesses, elected, leaders, bySchedule[..processed], old(now), now)
      ensures ok ==> DrawnInto(shuffled[..], elected + leaders, time)
      ensures ok ==> forall n :: n in shuffled[..|elected + leaders|] ==> n in witnesses
      ensures ok ==> payFactor == TotalWeight(Kinds(witnesses, shuffled[..|elected + leaders|]))
    {
      hide Chosen, Elements, Distinct, Placed, Advance, SetKind, Divisible, AllInStep, TotalWeight, Kinds, Rescheduled,
           DrawnInto;
      elected := ChooseElected(byVotes);
      leaders, processed := ChooseTimeshare(bySchedule, elected);
      CountChosen(witnesses, byVotes, bySchedule, elected, leaders);
      var active := elected + leaders;
      ok := |active| == if MAX_WITNESSES <= |witnesses| then MAX_WITNESSES else |witnesses|;
      AsExpected(witnesses);
      if !ok { return; }
      Commit(elected, leaders, bySchedule, processed, time);
    }

    method Commit(elected: seq<Name>, leaders: seq<Name>, bySchedule: seq<Name>, processed: nat, time: bv32)
      requires Valid() && ByFinish(witnesses, bySchedule) && processed <= |bySchedule|
      requires Distinct(elected + leaders) && |elected + leaders| <= MAX_WITNESSES
      requires forall n :: n in elected + leaders ==> n in witnesses
      modifies this, shuffled
      ensures Valid() && Placed(shuffled[..], elected + leaders)
      ensures scheduled == if elected + leaders == [] then 1 else |elected + leaders|
      ensures var chosen := SetKind(SetKind(old(witnesses), Elements(elected), Elected), Elements(leaders), Timeshare);
              Divisible(chosen) && (witnesses, now) == Advance(chosen, bySchedule, processed, old(now))
      ensures Rescheduled(old(witnesses), witnesses, elected, leaders, bySchedule[..processed], old(now), now)
      ensures DrawnInto(shuffled[..], elected + leaders, time)
      ensures forall n :: n in shuffled[..|elected + leaders|] ==> n in witnesses
      ensures payFactor == TotalWeight(Kinds(witnesses, shuffled[..|elected + leaders|]))
    {
      hide AllInStep, SetKind, Divisible, Advance, Kinds, TotalWeight, Distinct, Elements, Raced, Named, Drawn;
      ghost var ws, from := witnesses, now;
      var active := elected + leaders;
      Mark(Elements(elected), Elements(leaders), bySchedule, processed);
      PaidBy(ws, elected, leaders, bySchedule, processed, from);
      payFactor := ELECTED_WEIGHT * |elected| + TIMESHARE_WEIGHT * |leaders|;
      Post(active, time);
      assert shuffled[..][..|active|] == shuffled[..|active|];
      ShuffledWeight(witnesses, active, shuffled[..|active|]);
    }
  }

  lemma ShuffledWeight(ws: Witnesses, a: seq<Name>, b: seq<Name>)
    requires Distinct(a) && Shuffled(a, b) && forall n :: n in a ==> n in ws
    ensures forall n :: n in b ==> n in ws
    ensures TotalWeight(Kinds(ws, a)) == TotalWeight(Kinds(ws, b))
  {
    ShuffledDistinct(a, b);
    forall n | n in b ensures n in ws { assert n in Elements(a); }
    WeightIsSum(ws, a);
    WeightIsSum(ws, b);
  }

  /** No witness that can sign and is not elected has more votes than one that is. */
  lemma MostVotes(ws: Witnesses, byVotes: seq<Name>, elected: seq<Name>, e: Name, x: Name)
    requires ByVotes(ws, byVotes) && Chosen(ws, byVotes, Keyed(ws), elected, MAX_VOTED)
    requires e in elected && x in Keyed(ws) && x !in elected
    ensures ws[e].votes >= ws[x].votes
  {
    assert e in Elements(elected);
    var i :| 0 <= i < |byVotes| && byVotes[i] == e;
    var j :| 0 <= j < |byVotes| && byVotes[j] == x;
    assert i < j;
  }

  /** Nor does one that was passed over for the last place finish its lap earlier. */
  lemma FirstToFinish(ws: Witnesses, bySchedule: seq<Name>, elected: seq<Name>, leaders: seq<Name>, l: Name, x: Name)
    requires ByFinish(ws, bySchedule) && |elected| <= MAX_WITNESSES
    requires Chosen(ws, bySchedule, Keyed(ws) - Elements(elected), leaders, MAX_WITNESSES - |elected|)
    requires l in leaders && x in Keyed(ws) && x !in elected + leaders
    ensures l in ws && ws[l].scheduled <= ws[x].scheduled
  {
    assert l in Elements(leaders);
    var i :| 0 <= i < |bySchedule| && bySchedule[i] == l;
    var j :| 0 <= j < |bySchedule| && bySchedule[j] == x;
    assert i < j;
  }

  ghost predicate SameKinds(ws: Witnesses, after: Witnesses)
  {
    forall n :: n in ws && n in after ==> after[n].kind == ws[n].kind
  }

  lemma ProcessedRaces(ws: Witnesses, order: seq<Name>, count: nat, now: nat)
    requires Divisible(ws) && count <= |order| && forall n :: n in order ==> n in ws
    ensures var (after, now') := Advance(ws, order, count, now);
            var time := LastFinish(ws, order[..count], now);
            time <= MAX128 && Countable(ws) ==>
              Raced(ws, after, order[..count], time, now') && SameKinds(ws, after)
  {
    hide Restart, Wrap, Raced, Countable, Overflows;
    if LastFinish(ws, order[..count], now) <= MAX128 && Countable(ws) { AdvanceRaces(ws, order, count, now); }
  }

  /** The kinds after an update. */
  ghost predicate Named(ws: Witnesses, after: Witnesses, elected: set<Name>, leaders: set<Name>)
  {
    && after.Keys == ws.Keys
    && forall n :: n in ws ==>
         after[n].kind == if n in leaders then Timeshare else if n in elected then Elected else ws[n].kind
  }

  /** The race and the kinds after an update that processed `done`. */
  ghost predicate Rescheduled(ws: Witnesses, after: Witnesses, elected: seq<Name>, leaders: seq<Name>, done: seq<Name>,
                              from: nat, now: nat)
  {
    && (forall n :: n in done ==> n in ws)
    && Raced(ws, after, done, LastFinish(ws, done, from), now)
    && Named(ws, after, Elements(elected), Elements(leaders))
  }

  /** What the chosen witnesses are called does not matter to the race. */
  lemma RacedUnnamed(ws: Witnesses, chosen: Witnesses, after: Witnesses, elected: set<Name>, leaders: set<Name>,
                     done: seq<Name>, from: nat, now: nat)
    requires chosen == SetKind(SetKind(ws, elected, Elected), leaders, Timeshare) && forall n :: n in done ==> n in ws
    requires Raced(chosen, after, done, LastFinish(chosen, done, from), now) && SameKinds(chosen, after)
    ensures Raced(ws, after, done, LastFinish(ws, done, from), now)
    ensures Named(ws, after, elected, leaders)
  {
    hide Laps, LapEnd;
    var time := LastFinish(ws, done, from);
    forall n | n in ws
      ensures ws[n].votes == chosen[n].votes && chosen[n].(kind := after[n].kind) == ws[n].(kind := after[n].kind)
      ensures Laps(chosen[n], after[n], time) ==> Laps(ws[n], after[n], time)
      ensures Laps(chosen[n], after[n], 0) ==> Laps(ws[n], after[n], 0)
    {
      LapsUnnamed(ws[n], chosen[n], after[n], time);
      LapsUnnamed(ws[n], chosen[n], after[n], 0);
    }
  }

  lemma LapsUnnamed(w: Witness, c: Witness, v: Witness, time: nat)
    requires c == w.(kind := c.kind)
    ensures Laps(c, v, time) ==> Laps(w, v, time)
  {
  }

  lemma KindKeeps(ws: Witnesses, chosen: set<Name>, kind: ScheduleKind, order: seq<Name>, now: nat)
    requires AllInStep(ws, now) && ByFinish(ws, order)
    ensures var next := SetKind(ws, chosen, kind); AllInStep(next, now) && ByFinish(next, order) && Divisible(next)
  {
    var next := SetKind(ws, chosen, kind);
    forall n | n in next ensures InStep(next[n], now) { assert InStep(ws[n], now); }
    InStepDivisible(next, now);
  }

  /** The factor is the total weight of the round. */
  lemma PaidBy(ws: Witnesses, elected: seq<Name>, leaders: seq<Name>, bySchedule: seq<Name>, processed: nat, now: nat)
    requires Distinct(elected + leaders) && forall n :: n in elected + leaders ==> n in ws
    requires var chosen := SetKind(SetKind(ws, Elements(elected), Elected), Elements(leaders), Timeshare);
             Divisible(chosen) && processed <= |bySchedule| && forall n :: n in bySchedule ==> n in chosen
    ensures var chosen := SetKind(SetKind(ws, Elements(elected), Elected), Elements(leaders), Timeshare);
            var after := Advance(chosen, bySchedule, processed, now).0;
            && (forall n :: n in elected + leaders ==> n in after)
            && TotalWeight(Kinds(after, elected + leaders)) == ELECTED_WEIGHT * |elected| + TIMESHARE_WEIGHT * |leaders|
  {
    hide Wrap;
    var chosen := SetKind(SetKind(ws, Elements(elected), Elected), Elements(leaders), Timeshare);
    var after := Advance(chosen, bySchedule, processed, now).0;
    var active := elected + leaders;
    assert forall n :: n in chosen ==> n in after && after[n].kind == chosen[n].kind;
    forall i | 0 <= i < |active| ensures after[active[i]].kind == if i < |elected| then Elected else Timeshare {
      assert active[i] in active;
      if i < |elected| {
        forall j | 0 <= j < |leaders| ensures leaders[j] != active[i] { assert active[|elected| + j] == leaders[j]; }
        assert active[i] in elected;
      } else {
        assert active[i] in leaders;
      }
    }
    WeightOf(Kinds(after, active), |elected|);
  }

  /** The round's witnesses, then empty places. */
  function Places(active: seq<Name>): (r: seq<Name>)
    ensures |r| == MAX_WITNESSES
  {
    seq(MAX_WITNESSES, i requires 0 <= i < MAX_WITNESSES => if i < |active| then active[i] else "")
  }

  lemma PlacesHold(active: seq<Name>)
    requires |active| <= MAX_WITNESSES
    ensures Places(active)[..|active|] == active && (active == [] ==> Places(active)[..1] == [""])
    ensures forall i :: |active| <= i < MAX_WITNESSES ==> Places(active)[i] == ""
  {
  }

  lemma Posted(active: seq<Name>, places: seq<Name>, time: bv32)
    requires Distinct(active) && |active| <= MAX_WITNESSES == |places|
    requires var count := if active == [] then 1 else |active|;
             && places[..count] == Drawn(Places(active)[..count], time, count)
             && places[count..] == Places(active)[count..]
    ensures Placed(places, active) && DrawnInto(places, active, time)
  {
    hide Drawn, Places, Shuffled;
    PlacesHold(active);
    var count := if active == [] then 1 else |active|;
    forall i | count <= i < MAX_WITNESSES ensures places[i] == "" {
      assert places[i] == places[count..][i - count] && Places(active)[i] == Places(active)[count..][i - count];
    }
    if active == [] {
      DrawnShuffles([""], time, 1);
      OnlyOne("", places[..1]);
      NoneDrawn(active, time);
      Unshuffled(active);
      assert places[..0] == [] && active == [];
    } else {
      DrawnShuffles(active, time, count);
      ShuffledDistinct(active, places[..count]);
    }
  }

  lemma OnlyOne(x: Name, s: seq<Name>)
    requires |s| == 1 && Shuffled([x], s)
    ensures s[0] == x
  {
    assert multiset([x]) == multiset{x} && s[0] in multiset(s);
  }

  /** The round's witnesses in some order, then empty places. */
  ghost predicate Placed(places: seq<Name>, active: seq<Name>)
  {
    && |places| == MAX_WITNESSES && |active| <= MAX_WITNESSES
    && Distinct(active) && Distinct(places[..|active|])
    && Shuffled(active, places[..|active|])
    && forall i :: |active| <= i < MAX_WITNESSES ==> places[i] == ""
  }

  lemma CountChosen(ws: Witnesses, byVotes: seq<Name>, bySchedule: seq<Name>, elected: seq<Name>, leaders: seq<Name>)
    requires Chosen(ws, byVotes, Keyed(ws), elected, MAX_VOTED)
    requires Chosen(ws, bySchedule, Keyed(ws) - Elements(elected), leaders, MAX_WITNESSES - |elected|)
    ensures Distinct(elected + leaders) && forall n :: n in elected + leaders ==> n in Keyed(ws)
    ensures |elected + leaders| == Min(MAX_WITNESSES, |Keyed(ws)|)
  {
    hide Keyed;
    var active := elected + leaders;
    forall i, j | 0 <= i < j < |active| ensures active[i] != active[j] {
      if i < |elected| <= j { assert active[j] in Elements(leaders) && active[i] in Elements(elected); }
    }
    DistinctSize(active);
    assert Elements(active) == Elements(elected) + Elements(leaders);
    assert Elements(active) <= Keyed(ws);
    forall n | n in active ensures n in Keyed(ws) { assert n in Elements(active); }
    Smaller(Elements(active), Keyed(ws));
  }

  lemma Smaller(a: set<Name>, b: set<Name>)
    requires a <= b
    ensures |a| <= |b| && (|a| == |b| ==> a == b)
  {
    assert b == a + (b - a);
  }

  lemma AsExpected(ws: Witnesses)
    ensures Min(MAX_WITNESSES, |Keyed(ws)|) == Min(MAX_WITNESSES, |ws|)
       <==> Keyed(ws) == ws.Keys || |Keyed(ws)| >= MAX_WITNESSES
  {
    Smaller(Keyed(ws), ws.Keys);
  }

  lemma NoneRestarted(ws: Witnesses, order: seq<Name>, time: nat)
    requires Divisible(ws)
    ensures RestartDone(ws, order[..0], time) == ws
  {
    hide Wrap;
  }

  lemma OneRestarted(ws: Witnesses, order: seq<Name>, time: nat, i: nat)
    requires Divisible(ws) && Distinct(order) && i < |order| && order[i] in ws
    ensures var before, n := RestartDone(ws, order[..i], time), order[i];
            && n in before && before[n] == ws[n] && Wrap(ws[n].votes + 1) != 0
            && RestartDone(ws, order[..i + 1], time) == before[n := Restart(ws[n], time)]
  {
    hide Wrap, Restart;
    assert order[i] !in order[..i] && order[..i + 1] == order[..i] + [order[i]];
  }

  lemma AdvanceResets(ws: Witnesses, order: seq<Name>, count: nat, now: nat, i: nat)
    requires Divisible(ws) && i < count <= |order| && forall n :: n in order ==> n in ws
    requires var time := AdvancedTime(ws, order, count, now); Restart(ws[order[i]], time).scheduled < time
    ensures Advance(ws, order, count, now) == (ResetAll(ws), 0)
  {
    hide Restart, Wrap;
    assert order[i] in order[..count];
  }

  lemma AdvanceRestarts(ws: Witnesses, order: seq<Name>, count: nat, now: nat)
    requires Divisible(ws) && count <= |order| && forall n :: n in order ==> n in ws
    requires var time := AdvancedTime(ws, order, count, now);
             forall i :: 0 <= i < count ==> Restart(ws[order[i]], time).scheduled >= time
    ensures var time := AdvancedTime(ws, order, count, now);
            Advance(ws, order, count, now) == (RestartDone(ws, order[..count], time), time)
  {
    hide Restart, Wrap;
  }

  /** Resetting forgets how far the update had got. */
  lemma ResetAfter(ws: Witnesses, done: seq<Name>, time: nat)
    requires Divisible(ws)
    ensures Divisible(RestartDone(ws, done, time))
    ensures ResetAll(RestartDone(ws, done, time)) == ResetAll(ws)
  {
    hide Wrap;
  }
}
