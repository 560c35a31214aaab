/**
 The check against repeated transactions. Identifiers are forgotten once they have expired,
 and still no transaction is ever applied twice on a chain.
 */
module Dedup {
  import opened Common

  const MAX_TIME_UNTIL_EXPIRATION: nat := 60 * 60

  /** A transaction's identifier is the hash of its contents, which include the expiration. */
  datatype Transaction = Transaction(expiration: nat, contents: int)

  datatype Block = Block(time: nat, transactions: seq<Transaction>)

  function In(ts: seq<Transaction>): set<Transaction>
  {
    set t | t in ts
  }

  /** The checks and the index entry of `_apply_transaction`. */
  predicate Acceptable(t: Transaction, known: set<Transaction>, time: nat, height: nat)
  {
    t !in known && (height > 0 ==> time < t.expiration <= time + MAX_TIME_UNTIL_EXPIRATION)
  }

  /** The first `n` are acceptable in turn: each is new, also in the block, and neither expired nor too early. */
  predicate AllAcceptable(ts: seq<Transaction>, n: nat, known: set<Transaction>, time: nat, height: nat)
    requires n <= |ts|
  {
    forall i :: 0 <= i < n ==> Acceptable(ts[i], known, time, height) && ts[i] !in ts[..i]
  }

  lemma NoneYet(ts: seq<Transaction>, known: set<Transaction>, time: nat, height: nat)
    ensures AllAcceptable(ts, 0, known, time, height) && In(ts[..0]) == {}
  {
  }

  lemma NextAcceptable(ts: seq<Transaction>, i: nat, known: set<Transaction>, time: nat, height: nat)
    requires i < |ts| && AllAcceptable(ts, i, known, time, height)
    ensures In(ts[..i + 1]) == In(ts[..i]) + {ts[i]} && ts[..i + 1] == ts[..i] + [ts[i]]
    ensures if Acceptable(ts[i], known + In(ts[..i]), time, height) then AllAcceptable(ts, i + 1, known, time, height)
            else !AllAcceptable(ts, |ts|, known, time, height)
  {
    assert ts[i] in In(ts[..i]) <==> ts[i] in ts[..i];
  }

  /** No transaction was applied twice, and one that was is known or past its expiration, in a chain with blocks. */
  ghost predicate Tracked(applied: seq<Transaction>, known: set<Transaction>, time: nat, height: nat)
  {
    && (forall i, j :: 0 <= i < j < |applied| ==> applied[i] != applied[j])
    && (forall t :: t in applied ==> t in known || (time > t.expiration && height > 0))
    && (forall t :: t in known ==> t in applied)
  }

  lemma TrackedNext(applied: seq<Transaction>, known: set<Transaction>, time: nat, height: nat, t: Transaction)
    requires Tracked(applied, known, time, height) && t !in known && (height > 0 ==> time < t.expiration)
    ensures Tracked(applied + [t], known + {t}, time, height)
  {
  }

  class Chain {
    var time: nat
    var height: nat
    var known: set<Transaction>
    /** Everything that was ever applied, in order. */
    ghost var applied: seq<Transaction>

    /** An applied transaction is known, or its expiration is past. */
    ghost predicate Valid()
      reads this
    {
      && (forall i, j :: 0 <= i < j < |applied| ==> applied[i] != applied[j])
      && (forall i :: 0 <= i < |applied| ==> applied[i] in known || time > applied[i].expiration)
      && (forall t :: t in known ==> t in applied)
      && (height == 0 ==> applied == [])
    }

    constructor ()
      ensures Valid() && applied == [] && height == 0
    {
      time, height, known, applied := 0, 0, {}, [];
    }

    /** The transactions of a block, which all are entered or none is. */
    method ApplyTransactions(ts: seq<Transaction>) returns (ok: bool)
      requires Valid()
      modifies this`known, this`applied
      ensures ok <==> AllAcceptable(ts, |ts|, old(known), time, height)
      ensures ok ==> known == old(known) + In(ts) && applied == old(applied) + ts
      ensures ok ==> Tracked(applied, known, time, height)
      ensures !ok ==> known == old(known) && applied == old(applied)
    {
      hide Tracked, AllAcceptable, In;
      ghost var before := applied;
      var saved := known;
      StartsTracked();
      NoneYet(ts, saved, time, height);
      for i := 0 to |ts|
        invariant known == saved + In(ts[..i]) && applied == before + ts[..i]
        invariant Tracked(applied, known, time, height)
        invariant AllAcceptable(ts, i, saved, time, height)
      {
        NextAcceptable(ts, i, saved, time, height);
        if !Acceptable(ts[i], known, time, height) {
          known, applied := saved, before;
          return false;
        }
        TrackedNext(applied, known, time, height, ts[i]);
        known, applied := known + {ts[i]}, applied + [ts[i]];
      }
      assert ts[..|ts|] == ts;
      return true;
    }

    lemma StartsTracked()
      requires Valid()
      ensures Tracked(applied, known, time, height)
    {
    }

    /** The transactions of a block, then its time, then the expired entries. */
    method ApplyBlock(b: Block) returns (ok: bool)
      requires Valid()
      modifies this
      ensures Valid()
      ensures ok <==> b.time > old(time) && AllAcceptable(b.transactions, |b.transactions|, old(known), old(time),
                                                          old(height))
      ensures ok ==> known == set t | t in old(known) + In(b.transactions) && b.time <= t.expiration
      ensures ok ==> applied == old(applied) + b.transactions && time == b.time > old(time) && height == old(height) + 1
      ensures !ok ==> time == old(time) && height == old(height) && known == old(known) && applied == old(applied)
    {
      hide AllAcceptable;
      if b.time <= time { return false; }
      ok := ApplyTransactions(b.transactions);
      if !ok { return; }
      time, height := b.time, height + 1;
      ClearExpired();
    }

    /** `clear_expired_transactions` */
    method ClearExpired()
      requires Valid()
      modifies this`known
      ensures Valid() && known == set t | t in old(known) && time <= t.expiration
    {
      while exists t :: t in known && time > t.expiration
        invariant Valid() && known <= old(known)
        invariant forall t :: t in old(known) && time <= t.expiration ==> t in known
        decreases known
      {
        var t :| t in known && time > t.expiration;
        known := known - {t};
      }
    }

    /** Any run of blocks, accepted or not: no transaction is applied twice. */
    method ApplyAll(blocks: seq<Block>)
      requires Valid()
      modifies this
      ensures Valid() && old(applied) <= applied
      ensures forall i, j :: 0 <= i < j < |applied| ==> applied[i] != applied[j]
    {
      var i := 0;
      while i < |blocks|
        invariant 0 <= i <= |blocks| && Valid() && old(applied) <= applied
      {
        var _ := ApplyBlock(blocks[i]);
        i := i + 1;
      }
    }
  }
}
