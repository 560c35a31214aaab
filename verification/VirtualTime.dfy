/**
 The virtual-time race that decides when a witness outside the elected set is scheduled.

 Every field is an unsigned 128-bit integer in the chain state, so each operation below
 wraps modulo 2^128 exactly as the stored fields do. `InStep` is the invariant shared by
 vote adjustment and schedule updates: under it no intermediate value wraps
 undetected and the stored finishing time is the exact one, capped at the largest value.
 */
module VirtualTime {
  import opened Common

  const MAX128: nat := 0xFFFF_FFFF_FFFF_FFFF_FFFF_FFFF_FFFF_FFFF

  /** The length of a virtual lap. */
  const LAP: nat := MAX128

  datatype ScheduleKind = Elected | Timeshare | Miner | Unscheduled

  datatype Witness = Witness(
    votes: int,
    lastUpdate: nat,
    position: nat,
    scheduled: nat,
    hasKey: bool,
    kind: ScheduleKind)

  /** A witness object as `witness_update` creates it. */
  function Fresh(hasKey: bool): Witness
  {
    Witness(0, 0, 0, MAX128, hasKey, Unscheduled)
  }

  /** Conversion of a mathematical value to an unsigned 128-bit field. */
  function Wrap(x: int): nat
  {
    x % (MAX128 + 1)
  }

  /** The position of a witness at virtual time `now`. */
  function PositionAt(w: Witness, now: nat): nat
  {
    Wrap(w.position + Wrap(Wrap(w.votes) * Wrap(now - w.lastUpdate)))
  }

  /** The finishing time stored for a witness at `position` with `votes` at time `now`. */
  function StoredFinish(now: nat, position: nat, votes: int): nat
    requires Wrap(votes + 1) != 0
  {
    var finish := Wrap(now + Wrap(LAP - position) / Wrap(votes + 1));
    if finish < now then MAX128 else finish
  }

  /** Changing the votes of a witness at virtual time `now`. */
  function AdjustVotes(w: Witness, delta: int, now: nat): Witness
    requires Wrap(w.votes + delta + 1) != 0
  {
    var position := PositionAt(w, now);
    w.(position := position,
       lastUpdate := now,
       votes := w.votes + delta,
       scheduled := StoredFinish(now, position, w.votes + delta))
  }

  /** Starting a new lap at virtual time `now`. */
  function Restart(w: Witness, now: nat): Witness
    requires Wrap(w.votes + 1) != 0
  {
    w.(position := 0, lastUpdate := now, scheduled := Wrap(now + LAP / Wrap(w.votes + 1)))
  }

  function Min(a: int, b: int): int
  {
    if a <= b then a else b
  }

  /** The exact finishing time, capped at the largest representable value. */
  function Finish(w: Witness): int
    requires 0 <= w.votes
  {
    Min(MAX128, w.lastUpdate + (LAP - w.position) / (w.votes + 1))
  }

  ghost predicate InStep(w: Witness, now: nat)
  {
    && 0 <= w.votes < MAX128
    && w.position <= LAP
    && w.lastUpdate <= now <= w.scheduled
    && w.scheduled == Finish(w)
  }

  lemma FreshInStep(hasKey: bool, now: nat)
    requires now <= MAX128
    ensures InStep(Fresh(hasKey), now)
  {
    assert LAP / 1 == LAP;
  }

  lemma LapNotPassed(v: nat, gap: nat, q: nat, room: nat)
    requires gap <= q
    requires q * (v + 1) <= room
    ensures v * gap <= room
  {
    assert v * gap <= v * q;
    assert v * q <= q * (v + 1);
  }

  /** A witness in step has not passed the end of its lap: the nonlinear bound. */
  lemma PositionBound(w: Witness, now: nat)
    requires InStep(w, now)
    ensures w.position + w.votes * (now - w.lastUpdate) <= LAP
  {
    var room := LAP - w.position;
    var q := room / (w.votes + 1);
    assert q * (w.votes + 1) <= room;
    LapNotPassed(w.votes, now - w.lastUpdate, q, room);
  }

  lemma WrapSmall(x: int)
    requires 0 <= x <= MAX128
    ensures Wrap(x) == x
  {
  }

  /** Adding two 128-bit values: the sum comes out below `a` exactly when it did not fit. */
  lemma WrapDetected(a: nat, b: nat)
    requires a <= MAX128 && b <= MAX128
    ensures Wrap(a + b) < a <==> a + b > MAX128
    ensures a + b <= MAX128 ==> Wrap(a + b) == a + b
  {
    if a + b > MAX128 {
      assert a + b == (MAX128 + 1) + (a + b - MAX128 - 1);
      assert Wrap(a + b) == a + b - MAX128 - 1;
    }
  }

  lemma PositionExact(w: Witness, now: nat)
    requires InStep(w, now)
    ensures PositionAt(w, now) == w.position + w.votes * (now - w.lastUpdate) <= LAP
  {
    PositionBound(w, now);
    WrapSmall(w.votes);
    WrapSmall(now - w.lastUpdate);
    WrapSmall(w.votes * (now - w.lastUpdate));
    WrapSmall(w.position + w.votes * (now - w.lastUpdate));
  }

  lemma StoredFinishExact(now: nat, position: nat, votes: nat)
    requires now <= MAX128 && position <= LAP && votes < MAX128
    ensures Wrap(votes + 1) != 0
    ensures StoredFinish(now, position, votes) == Min(MAX128, now + (LAP - position) / (votes + 1))
  {
    WrapSmall(votes + 1);
    WrapSmall(LAP - position);
    DivBound(LAP - position, votes + 1);
    WrapDetected(now, (LAP - position) / (votes + 1));
  }

  /**
   A vote adjustment keeps the witness in step; nothing it computes wraps except the
   finishing time, and that wrap is caught.
   */
  lemma AdjustVotesInStep(w: Witness, delta: int, now: nat)
    requires InStep(w, now)
    requires 0 <= w.votes + delta < MAX128
    ensures Wrap(w.votes + delta + 1) != 0
    ensures InStep(AdjustVotes(w, delta, now), now)
    ensures AdjustVotes(w, delta, now).position == w.position + w.votes * (now - w.lastUpdate)
  {
    PositionExact(w, now);
    StoredFinishExact(now, PositionAt(w, now), w.votes + delta);
    DivBound(LAP - PositionAt(w, now), w.votes + delta + 1);
  }

  lemma DivBound(a: nat, d: nat)
    requires d >= 1
    ensures 0 <= a / d <= a
  {
  }

  lemma RestartInStep(w: Witness, now: nat)
    requires 0 <= w.votes < MAX128
    requires now <= MAX128
    ensures Wrap(w.votes + 1) == w.votes + 1
    ensures Restart(w, now).scheduled < now <==> now + LAP / (w.votes + 1) > MAX128
    ensures now <= Restart(w, now).scheduled ==> InStep(Restart(w, now), now)
  {
    WrapSmall(w.votes + 1);
    DivBound(LAP, w.votes + 1);
    WrapDetected(now, LAP / (w.votes + 1));
  }

  type Witnesses = map<Name, Witness>

  ghost predicate AllInStep(ws: Witnesses, now: nat)
  {
    forall n :: n in ws ==> InStep(ws[n], now)
  }

  /** `order` lists every witness once, by ascending finishing time. */
  ghost predicate ByFinish(ws: Witnesses, order: seq<Name>)
  {
    && (forall n :: n in ws <==> n in order)
    && (forall i, j :: 0 <= i < j < |order| ==> order[i] != order[j])
    && (forall i, j :: 0 <= i < j < |order| ==> ws[order[i]].scheduled <= ws[order[j]].scheduled)
  }

  /** Everyone advances to the finishing time of the last processed witness. */
  function AdvancedTime(ws: Witnesses, order: seq<Name>, count: nat, now: nat): nat
    requires count <= |order|
    requires forall n :: n in order ==> n in ws
  {
    if count == 0 then now else ws[order[count - 1]].scheduled
  }

  predicate Divisible(ws: Witnesses)
  {
    forall n :: n in ws ==> Wrap(ws[n].votes + 1) != 0
  }

  predicate Overflows(ws: Witnesses, done: seq<Name>, time: nat)
    requires Divisible(ws)
    requires forall n :: n in done ==> n in ws
  {
    exists n :: n in done && Restart(ws[n], time).scheduled < time
  }

  function ResetAll(ws: Witnesses): (r: Witnesses)
    requires Divisible(ws)
  {
    map n | n in ws :: Restart(ws[n], 0)
  }

  function RestartDone(ws: Witnesses, done: seq<Name>, time: nat): (r: Witnesses)
    requires Divisible(ws)
  {
    map n | n in ws :: if n in done then Restart(ws[n], time) else ws[n]
  }

  /**
   The virtual-time part of a schedule update that processed the first `count` witnesses of
   `order`: they start a new lap, or, if one of them would overflow, everyone is reset to
   virtual time zero.
   */
  function Advance(ws: Witnesses, order: seq<Name>, count: nat, now: nat): (r: (Witnesses, nat))
    requires Divisible(ws)
    requires count <= |order|
    requires forall n :: n in order ==> n in ws
  {
    var time := AdvancedTime(ws, order, count, now);
    if Overflows(ws, order[..count], time) then (ResetAll(ws), 0)
    else (RestartDone(ws, order[..count], time), time)
  }

  /** When a lap that starts at `time` ends. */
  function LapEnd(votes: nat, time: nat): nat
  {
    time + LAP / (votes + 1)
  }

  /** A witness that starts a new lap at `time`. */
  predicate Laps(w: Witness, v: Witness, time: nat)
  {
    0 <= w.votes && v == w.(position := 0, lastUpdate := time, scheduled := LapEnd(w.votes, time), kind := v.kind)
  }

  /**
   What a schedule update does to the race: those who were processed start a new lap at `time`, and the others
   go on as they were. If one of them could not finish that lap in 128 bits, everyone starts again at zero.
   */
  ghost predicate Raced(ws: Witnesses, after: Witnesses, done: seq<Name>, time: nat, now: nat)
  {
    && after.Keys == ws.Keys && (forall n :: n in ws ==> 0 <= ws[n].votes)
    && if forall n :: n in done && n in ws ==> LapEnd(ws[n].votes, time) <= MAX128
       then now == time && forall n :: n in ws ==>
              if n in done then Laps(ws[n], after[n], time) else after[n] == ws[n].(kind := after[n].kind)
       else now == 0 && forall n :: n in ws ==> Laps(ws[n], after[n], 0)
  }

  /** The finishing time of the last witness that is processed, or the time before if none is. */
  function LastFinish(ws: Witnesses, done: seq<Name>, now: nat): nat
    requires forall n :: n in done ==> n in ws
  {
    if done == [] then now else ws[done[|done| - 1]].scheduled
  }

  lemma RestartLaps(w: Witness, time: nat)
    requires 0 <= w.votes < MAX128 && time <= MAX128
    ensures Wrap(w.votes + 1) != 0
    ensures Restart(w, time).scheduled < time <==> LapEnd(w.votes, time) > MAX128
    ensures LapEnd(w.votes, time) <= MAX128 ==> Laps(w, Restart(w, time), time)
    ensures Laps(w, Restart(w, 0), 0)
  {
    WrapSmall(w.votes + 1);
    DivBound(LAP, w.votes + 1);
    WrapDetected(time, LAP / (w.votes + 1));
    WrapDetected(0, LAP / (w.votes + 1));
  }

  lemma AdvanceRaces(ws: Witnesses, order: seq<Name>, count: nat, now: nat)
    requires count <= |order| && Divisible(ws) && forall n :: n in order ==> n in ws
    requires AdvancedTime(ws, order, count, now) <= MAX128 && Countable(ws)
    ensures var (ws', now') := Advance(ws, order, count, now);
            && Raced(ws, ws', order[..count], LastFinish(ws, order[..count], now), now')
            && forall n :: n in ws ==> ws'[n].kind == ws[n].kind
  {
    hide Restart, Laps, Wrap, LapEnd;
    var time := AdvancedTime(ws, order, count, now);
    forall n | n in ws
      ensures Restart(ws[n], time).scheduled < time <==> LapEnd(ws[n].votes, time) > MAX128
      ensures LapEnd(ws[n].votes, time) <= MAX128 ==> Laps(ws[n], Restart(ws[n], time), time)
      ensures Laps(ws[n], Restart(ws[n], 0), 0)
      ensures Restart(ws[n], time).kind == ws[n].kind == Restart(ws[n], 0).kind
    {
      RestartLaps(ws[n], time);
      RestartKind(ws[n], time);
    }
  }

  /** Votes that a 128-bit field can hold, with one more. */
  predicate Countable(ws: Witnesses)
  {
    forall n :: n in ws ==> 0 <= ws[n].votes < MAX128
  }

  lemma RestartKind(w: Witness, time: nat)
    requires Wrap(w.votes + 1) != 0
    ensures Restart(w, time).kind == w.kind == Restart(w, 0).kind
  {
  }

  lemma ResetAllInStep(ws: Witnesses)
    requires forall n :: n in ws ==> 0 <= ws[n].votes < MAX128
    ensures Divisible(ws)
    ensures AllInStep(ResetAll(ws), 0)
  {
    forall n | n in ws
      ensures Wrap(ws[n].votes + 1) != 0 && InStep(Restart(ws[n], 0), 0)
    {
      RestartInStep(ws[n], 0);
    }
  }

  lemma InStepDivisible(ws: Witnesses, now: nat)
    requires AllInStep(ws, now)
    ensures Divisible(ws)
  {
    forall n | n in ws ensures Wrap(ws[n].votes + 1) != 0 {
      RestartInStep(ws[n], 0);
    }
  }

  lemma AllVoted(ws: Witnesses, now: nat)
    requires AllInStep(ws, now)
    ensures Countable(ws)
  {
    assert forall n :: n in ws ==> InStep(ws[n], now);
  }

  /** Virtual time never runs backwards except through a reset. */
  lemma AdvancedTimeMonotone(ws: Witnesses, order: seq<Name>, count: nat, now: nat)
    requires AllInStep(ws, now) && now <= MAX128
    requires ByFinish(ws, order) && count <= |order|
    ensures now <= AdvancedTime(ws, order, count, now) <= MAX128
    ensures forall n :: n in ws && n !in order[..count] ==> AdvancedTime(ws, order, count, now) <= ws[n].scheduled
  {
    if count > 0 {
      assert order[count - 1] in order;
      assert InStep(ws[order[count - 1]], now);
    }
    forall n | n in ws && n !in order[..count]
      ensures AdvancedTime(ws, order, count, now) <= ws[n].scheduled
    {
      assert InStep(ws[n], now);
      var i :| 0 <= i < |order| && order[i] == n;
      assert count <= i;
    }
  }

  /** A schedule update keeps every witness in step, whether or not it had to reset. */
  lemma AdvanceInStep(ws: Witnesses, order: seq<Name>, count: nat, now: nat)
    requires AllInStep(ws, now) && now <= MAX128
    requires ByFinish(ws, order) && count <= |order|
    ensures Divisible(ws)
    ensures var (ws', now') := Advance(ws, order, count, now);
            && ws'.Keys == ws.Keys
            && now' <= MAX128
            && AllInStep(ws', now')
            && (now <= now' || now' == 0)
            && Raced(ws, ws', order[..count], LastFinish(ws, order[..count], now), now')
            && forall n :: n in ws ==> ws'[n].votes == ws[n].votes && ws'[n].kind == ws[n].kind
  {
    hide Raced, LapEnd;
    AllVoted(ws, now);
    InStepDivisible(ws, now);
    AdvancedTimeMonotone(ws, order, count, now);
    var time := AdvancedTime(ws, order, count, now);
    var done := order[..count];
    AdvanceRaces(ws, order, count, now);
    if Overflows(ws, done, time) {
      assert forall n :: n in ws ==> InStep(ws[n], now);
      ResetAllInStep(ws);
    } else {
      forall n | n in ws
        ensures InStep(RestartDone(ws, done, time)[n], time)
      {
        assert InStep(ws[n], now);
        RestartInStep(ws[n], time);
      }
    }
  }
}
