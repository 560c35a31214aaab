/**
 Four short runs of a chain, each of which shows that a promise does not hold in the case that
 `ChainDb` names. The rules accept every block whose body is not negative; the last irreversible block is
 the one below the head, or none when the head's body is 2.
 */
module ChainRuns {
  import opened Common
  import opened Blocks
  import opened ForkDatabase
  import opened ChainDb

  /** The height of the head and the body of its block. */
  type Probe = (nat, int)

  function Exec(s: Probe, b: Block): Option<Probe>
  {
    if b.body < 0 then None else Some((Height(b), b.body))
  }

  function Lib(s: Probe): nat
  {
    if s.0 == 0 || s.1 == 2 then 0 else s.0 - 1
  }

  function Probing(): Rules<Probe>
  {
    Rules((0, 0), Exec, Lib)
  }

  lemma ProbingLawful()
    ensures Lawful(Probing())
  {
  }

  /** Two branches from genesis, and an invalid child of the first branch's first block. */
  const A1: Block := Block(GENESIS_ID, 0)
  const A2: Block := Block(Of(A1), 0)
  const B1: Block := Block(GENESIS_ID, 2)
  const B2: Block := Block(Of(B1), 0)
  const B3: Block := Block(Of(B2), 0)
  const X2: Block := Block(Of(A1), -1)

  lemma Heights()
    ensures Height(A1) == Height(B1) == 1 && Height(A2) == Height(B2) == Height(X2) == 2 && Height(B3) == 3
    ensures Num(Of(A1)) == Num(Of(B1)) == 1 && Num(Of(A2)) == Num(Of(B2)) == 2 && Num(Of(B3)) == 3
    ensures Num(Of(X2)) == 2 && Num(GENESIS_ID) == 0
  {
  }

  lemma Ancestors()
    ensures Ancestor(Of(A1), 1) == Of(A1) && Ancestor(Of(A2), 2) == Of(A2) && Ancestor(Of(A2), 1) == Of(A1)
    ensures Ancestor(Of(A1), 0) == Ancestor(Of(A2), 0) == Ancestor(Of(B3), 0) == GENESIS_ID
    ensures Ancestor(Of(B3), 3) == Of(B3) && Ancestor(Of(B3), 2) == Of(B2) && Ancestor(Of(B3), 1) == Of(B1)
  {
  }

  /** Nothing is that far below the head. */
  lemma NothingPruned(index: Index, head: Option<Item>, size: nat)
    requires head.Some? && Height(head.value.block) <= size
    ensures PrunedIds(index, head, size) == {}
    ensures Erase(index, {}) == index && RelinkedHead(head, {}) == head
  {
  }

  // ----- the outcomes of a push that the runs are made of -----

  /** A child of the head is applied, and so little becomes irreversible that nothing is pruned. */
  method Extend<S(!new)>(c: Chain<S>, b: Block)
    requires c.Valid() && c.Taken(b) && Extends(c.TakenHead(b), c.head, b)
    requires c.rules.exec(c.data, b).Some? && c.rules.lib(c.rules.exec(c.data, b).value) <= 1
    requires c.Accepts(b) || c.Regular(b)
    modifies c, c.fork
    ensures c.Valid() && c.head == Of(b) && c.rules.exec(old(c.data), b) == Some(c.data)
    ensures c.fork.index == old(c.TakenIndex(b)) && c.fork.head == old(c.TakenHead(b))
    ensures c.fork.maxSize == Height(b) - c.rules.lib(c.data) + 1
    ensures |c.log| == if |old(c.log)| < c.rules.lib(c.data) then c.rules.lib(c.data) else |old(c.log)|
    ensures old(c.log) <= c.log
    ensures old(c.Good()) && c.rules.lib(c.data) < Height(b) ==> (c.Good() <==> !old(c.Clobbers(b)))
    ensures old(c.Regular(b)) ==> c.Tidy()
  {
    hide At, Path, KeptAbove, IndexOk, ItemOk, Undoable, Lawful, Preserves, Committable, Chain.SwitchEnds, Misfiled,
         Walkable, Rejoins, TidyIndex, Ancestor, Erase, PrunedIds;
    ghost var index, top := c.TakenIndex(b), c.TakenHead(b);
    var r := c.PushBlock(b);
    NothingPruned(index, top, c.fork.maxSize);
  }

  /** A block is taken for a child of the head that does not apply. */
  method Fail<S(!new)>(c: Chain<S>, b: Block)
    requires c.Valid() && c.Taken(b) && c.TakenHead(b).value.block.previous == c.head && !c.Accepts(b)
    modifies c, c.fork
    ensures c.Valid() && c.head == old(c.head) && c.data == old(c.data) && c.log == old(c.log)
    ensures c.fork.index == Erase(old(c.TakenIndex(b)), {Of(b)}) && c.fork.maxSize == old(c.fork.maxSize)
    ensures c.fork.head == RelinkedHead(old(c.TakenHead(b)), {Of(b)})
    ensures old(c.Good()) ==> (c.Good() <==> !old(c.Clobbers(b)))
    ensures old(c.Regular(b)) ==> c.Tidy()
  {
    hide At, Path, KeptAbove, IndexOk, ItemOk, Undoable, Lawful, Preserves, Committable, Chain.SwitchEnds, Misfiled,
         Walkable, Rejoins, TidyIndex, Ancestor, Erase;
    var r := c.PushBlock(b);
  }

  /** A block is stored for later. */
  method Wait<S(!new)>(c: Chain<S>, b: Block)
    requires c.Valid() && c.Taken(b) && c.TakenHead(b).value.block.previous != c.head && !c.Switches(b)
    modifies c, c.fork
    ensures c.Valid() && c.head == old(c.head) && c.data == old(c.data) && c.log == old(c.log)
    ensures c.fork.index == old(c.TakenIndex(b)) && c.fork.head == old(c.TakenHead(b))
    ensures c.fork.maxSize == old(c.fork.maxSize)
    ensures old(c.Good()) ==> c.Good()
    ensures old(c.Regular(b)) ==> c.Tidy()
  {
    hide At, Path, KeptAbove, IndexOk, ItemOk, Undoable, Lawful, Preserves, Committable, Chain.SwitchEnds, Misfiled,
         Walkable, Rejoins, TidyIndex, Ancestor;
    if c.Clobbers(b) { c.ClobberTop(b); }
    var r := c.PushBlock(b);
  }

  // ----- a block of the chain that is lost -----

  /** A chain that has applied the first block. */
  method One() returns (c: Chain<Probe>)
    ensures fresh(c) && fresh(c.fork) && c.Valid() && c.Good() && c.Tidy() && c.rules == Probing()
    ensures c.head == Of(A1) && c.log == [] && c.fork.maxSize == 2
    ensures c.fork.index == map[Of(A1) := Item(A1, false)] && c.fork.head == Some(Item(A1, false))
  {
    hide At, Path, KeptAbove, IndexOk, ItemOk, Undoable, Lawful, Committable, Misfiled, TidyIndex;
    Heights();
    ProbingLawful();
    c := new Chain(Probing());
    Extend(c, A1);
  }

  /** A valid block, a child of it that does not apply, and the valid block once more: it is not stored any longer. */
  method LosesBlock() returns (c: Chain<Probe>)
    ensures fresh(c) && c.Valid() && !c.Good() && c.head == Of(A1) && c.head !in c.fork.index
  {
    hide At, Path, KeptAbove, IndexOk, ItemOk, Undoable, Lawful, Committable, Misfiled, TidyIndex;
    Heights();
    Ancestors();
    c := One();
    Fail(c, X2);
    assert c.Clobbers(A1);
    Fail(c, A1);
  }

  // ----- a switch that is stranded -----

  const WITH_B1: Index := map[Of(A1) := Item(A1, false), Of(B1) := Item(B1, false)]
  const WITH_A2: Index := WITH_B1[Of(A2) := Item(A2, true)]
  const WITH_B2: Index := WITH_A2[Of(B2) := Item(B2, true)]
  const WITH_B3: Index := WITH_B2[Of(B3) := Item(B3, true)]

  /** A sibling of the first block is kept as a fork. */
  method Sibling() returns (c: Chain<Probe>)
    ensures fresh(c) && fresh(c.fork) && c.Valid() && c.Good() && c.Tidy() && c.rules == Probing()
    ensures c.head == Of(A1) && c.log == [] && c.fork.maxSize == 2
    ensures c.fork.index == WITH_B1 && c.fork.head == Some(Item(A1, false))
  {
    hide At, Path, KeptAbove, IndexOk, ItemOk, Undoable, Lawful, Committable, Misfiled, TidyIndex;
    Heights();
    Ancestors();
    c := One();
    Wait(c, B1);
  }

  /** The second block of the first branch makes the first one irreversible; its sibling is stored. */
  method Two() returns (c: Chain<Probe>)
    ensures fresh(c) && fresh(c.fork) && c.Valid() && c.Good() && c.Tidy() && c.rules == Probing()
    ensures c.head == Of(A2) && |c.log| == 1 && c.fork.maxSize == 2
    ensures c.fork.index == WITH_A2 && c.fork.head == Some(Item(A2, true))
  {
    hide At, Path, KeptAbove, IndexOk, ItemOk, Undoable, Lawful, Committable, Misfiled, TidyIndex;
    Heights();
    Ancestors();
    c := Sibling();
    Extend(c, A2);
  }

  /** The sibling's branch can be walked down to genesis, but to nothing above it. */
  lemma ForkAtGenesis()
    ensures Walkable(WITH_B3, Of(A2), Of(B3), 0) && !Walkable(WITH_B3, Of(A2), Of(B3), 1)
  {
    Heights();
    Ancestors();
    assert StoredDown(WITH_B3, Of(B3), 0);
    assert StoredDown(WITH_B3, Of(A2), 0);
    assert Meet(WITH_B3, Of(B3), Of(A2), 0);
    forall h: nat | 1 <= h ensures !Meet(WITH_B3, Of(B3), Of(A2), h) { assert h < 2 ==> h == 1; }
  }

  /** What the end of that switch leaves. */
  lemma StrandedState(c: Chain<Probe>, log0: seq<Block>, r: Pushed)
    requires c.SwitchEnds(Of(A2), log0, WITH_B3, Item(B3, true), 2, r) && |log0| == 1
    ensures r == Stranded(GENESIS_ID) && c.log == log0 && c.head == Of(A1)
    ensures c.fork.index == WITH_B3 && c.fork.head == Some(Item(B1, false)) && c.fork.maxSize == 2
  {
    hide Walkable, Lost;
    Heights();
    Ancestors();
    ForkAtGenesis();
    var item := c.fork.head.value;
    assert c.Known(c.head);
    assert Height(item.block) == 1 || Height(item.block) == 2 || Height(item.block) == 3;
  }

  lemma BothValid()
    ensures At(Probing(), Of(A2)).Some? && At(Probing(), Of(B3)).Some?
  {
    assert At(Probing(), Of(B1)).Some?;
    assert At(Probing(), Of(B2)).Some?;
  }

  /**
   The sibling's branch grows higher than the chain and is valid, and yet the node neither switches to it
   nor keeps its own second block: it is left with the first one.
   */
  method StrandsSwitch() returns (c: Chain<Probe>, r: Pushed)
    ensures fresh(c) && fresh(c.fork) && c.Valid() && c.Good() && c.Tidy() && c.rules == Probing()
    ensures At(c.rules, Of(A2)).Some? && At(c.rules, Of(B3)).Some? && r == Stranded(GENESIS_ID)
    ensures c.head == Of(A1) && |c.log| == 1 && c.fork.maxSize == 2
    ensures c.fork.index == WITH_B3 && c.fork.head == Some(Item(B1, false))
  {
    hide Path, KeptAbove, IndexOk, ItemOk, Undoable, Lawful, Preserves, Committable, Misfiled, Walkable, At,
         Chain.SwitchEnds, TidyIndex;
    Heights();
    Ancestors();
    BothValid();
    c := Two();
    Wait(c, B2);
    ForkAtGenesis();
    ghost var log := c.log;
    r := c.PushBlock(B3);
    StrandedState(c, log, r);
  }

  // ----- a switch that commits a block of the new branch before it fails -----

  const P2: Block := Block(Of(A1), 2)
  const Z3: Block := Block(Of(B2), -1)

  const WITH_P2: Index := WITH_B1[Of(P2) := Item(P2, true)]
  const WITH_Z3: Index := WITH_P2[Of(B2) := Item(B2, true)][Of(Z3) := Item(Z3, true)]

  lemma Branching()
    ensures Height(P2) == 2 && Height(Z3) == 3 && Num(Of(P2)) == 2 && Num(Of(Z3)) == 3
    ensures Ancestor(Of(P2), 2) == Of(P2) && Ancestor(Of(P2), 1) == Of(A1) && Ancestor(Of(P2), 0) == GENESIS_ID
    ensures Ancestor(Of(Z3), 3) == Of(Z3) && Ancestor(Of(Z3), 2) == Of(B2) && Ancestor(Of(Z3), 1) == Of(B1)
    ensures Ancestor(Of(Z3), 0) == GENESIS_ID
  {
  }

  /** Two blocks, none of them irreversible, and a branch of the same height. */
  method Level() returns (c: Chain<Probe>)
    ensures fresh(c) && fresh(c.fork) && c.Valid() && c.Good() && c.Tidy() && c.rules == Probing()
    ensures c.head == Of(P2) && c.log == [] && c.fork.maxSize == 3
    ensures c.fork.index == WITH_P2[Of(B2) := Item(B2, true)] && c.fork.head == Some(Item(P2, true))
  {
    hide At, Path, KeptAbove, IndexOk, ItemOk, Undoable, Lawful, Committable, Misfiled, TidyIndex, Ancestor;
    Heights();
    Branching();
    c := Sibling();
    Extend(c, P2);
    Wait(c, B2);
  }

  /** The branches meet at genesis. */
  lemma MeetAtGenesis()
    ensures Highest(WITH_Z3, Of(P2), Of(Z3), 0)
  {
    Heights();
    Branching();
    assert StoredDown(WITH_Z3, Of(Z3), 0);
    assert StoredDown(WITH_Z3, Of(P2), 0);
    assert Meet(WITH_Z3, Of(Z3), Of(P2), 0);
    forall h: nat | Meet(WITH_Z3, Of(Z3), Of(P2), h) ensures h <= 0 { assert h < 2; }
  }

  /** The new branch makes its first block irreversible, and its third one is invalid. */
  lemma FirstCommitted(logged: nat)
    requires Committed(Probing(), Of(Z3), 0, 0, logged)
    ensures At(Probing(), Of(P2)).Some? && At(Probing(), Of(Z3)).None? && logged == 1
    ensures Commits(Probing(), Of(Z3), 0)
  {
    Heights();
    Branching();
    assert At(Probing(), Of(A1)).Some? && At(Probing(), Of(B1)) == Some((1, 2));
    assert At(Probing(), Of(B2)) == Some((2, 0));
    assert LibAt(Probing(), Of(Z3), 2, 1);
    forall m: nat, lib: nat | 0 < m <= 3 && LibAt(Probing(), Of(Z3), m, lib) ensures lib <= 1 {
      if m < 3 { assert m == 1 || m == 2; }
    }
  }

  /**
   A higher branch makes a block of its own irreversible and then turns out to be invalid. The node keeps
   the irreversible block, and loses its own chain, although that was valid.
   */
  method CommitsThenFails() returns (c: Chain<Probe>, r: Pushed)
    ensures fresh(c) && fresh(c.fork) && c.Valid() && c.Good() && c.rules == Probing()
    ensures At(c.rules, Of(P2)).Some? && At(c.rules, Of(Z3)).None? && r == Stranded(GENESIS_ID)
    ensures c.head == Of(B1) && |c.log| == 1 && Of(Z3) !in c.fork.index
  {
    hide Path, KeptAbove, IndexOk, ItemOk, Undoable, Lawful, Committable, Misfiled, Walkable, At, Commits, Committed,
         Chain.SwitchEnds, TidyIndex, Ancestor, Highest;
    Heights();
    Branching();
    MeetAtGenesis();
    c := Level();
    r := c.PushBlock(Z3);
    FirstCommitted(|c.log|);
  }

  // ----- a valid block that is refused -----

  const C2: Block := Block(Of(B1), 2)
  const X3: Block := Block(Of(C2), -1)
  const C3: Block := Block(Of(C2), 2)
  const C4: Block := Block(Of(C3), 0)

  const WITH_C2: Index := map[Of(B1) := Item(B1, false), Of(A1) := Item(A1, false), Of(C2) := Item(C2, true)]
  const LESS_B1: Index := map[Of(A1) := Item(A1, false), Of(C2) := Item(C2, false)]
  const WITH_C3: Index := LESS_B1[Of(C3) := Item(C3, true)]
  const ORPHAN: Index := WITH_C3[Of(B1) := Item(B1, false)]

  lemma Longer()
    ensures Height(B1) == Height(A1) == 1 && Height(C2) == 2 && Height(C3) == Height(X3) == 3 && Height(C4) == 4
    ensures Num(Of(B1)) == Num(Of(A1)) == 1 && Num(Of(C2)) == 2 && Num(Of(C3)) == Num(Of(X3)) == 3
    ensures Num(Of(C4)) == 4 && Num(GENESIS_ID) == 0
    ensures Ancestor(Of(B1), 1) == Of(B1) && Ancestor(Of(C2), 2) == Of(C2) && Ancestor(Of(C2), 1) == Of(B1)
    ensures Ancestor(Of(C3), 3) == Of(C3) && Ancestor(Of(C3), 2) == Of(C2) && Ancestor(Of(C3), 1) == Of(B1)
  {
  }

  /** Two blocks with a sibling of the first, none of them irreversible. */
  method Loose() returns (c: Chain<Probe>)
    ensures fresh(c) && fresh(c.fork) && c.Valid() && c.Good() && c.Tidy() && c.rules == Probing()
    ensures c.head == Of(C2) && c.log == [] && c.fork.maxSize == 3
    ensures c.fork.index == WITH_C2 && c.fork.head == Some(Item(C2, true))
  {
    hide At, Path, KeptAbove, IndexOk, ItemOk, Undoable, Lawful, Committable, Misfiled, TidyIndex, Ancestor;
    Longer();
    ProbingLawful();
    c := new Chain(Probing());
    Extend(c, B1);
    Wait(c, A1);
    Extend(c, C2);
  }

  lemma Erased()
    ensures Erase(WITH_C2[Of(X3) := Item(X3, true)], {Of(X3)}) == WITH_C2 && Erase(WITH_C2, {Of(B1)}) == LESS_B1
  {
    Longer();
  }

  /** The first block is lost after a child of the second failed, and with it the second one's link. */
  method Unlinked() returns (c: Chain<Probe>)
    ensures fresh(c) && fresh(c.fork) && c.Valid() && c.rules == Probing()
    ensures c.head == Of(C2) && c.log == [] && c.fork.maxSize == 3
    ensures c.fork.index == LESS_B1 && c.fork.head == Some(Item(X3, true))
  {
    hide At, Path, KeptAbove, IndexOk, ItemOk, Undoable, Lawful, Committable, Misfiled, TidyIndex, Ancestor, Erase;
    Longer();
    Erased();
    c := Loose();
    Fail(c, X3);
    Fail(c, B1);
  }

  /** The chain grows, and the first block is stored again. */
  method Orphaned() returns (c: Chain<Probe>)
    ensures fresh(c) && fresh(c.fork) && c.Valid() && c.Good() && c.rules == Probing()
    ensures c.head == Of(C3) && c.log == [] && c.fork.maxSize == 4
    ensures c.fork.index == ORPHAN && c.fork.head == Some(Item(X3, true))
  {
    hide At, Path, KeptAbove, Undoable, Lawful, Misfiled, TidyIndex, Ancestor;
    Longer();
    c := Unlinked();
    assert c.Accepts(C3);
    Extend(c, C3);
    Wait(c, B1);
    AllKept(c);
  }

  lemma AllKept(c: Chain<Probe>)
    requires c.head == Of(C3) && c.log == [] && c.fork.index == ORPHAN
    ensures c.Good()
  {
    Longer();
    assert Ancestor(Of(C3), 0) == GENESIS_ID;
    forall n | 0 < n <= Num(c.head) ensures Ancestor(c.head, n) in c.fork.index {
      assert n == 1 || n == 2 || n == 3;
    }
  }

  lemma Larger(a: set<Id>, b: set<Id>)
    requires a <= b
    ensures |a| <= |b|
  {
    assert b == a + (b - a);
  }

  /** The walk down to the first block, which has a sibling, ends at the lost link. */
  lemma WalkEnds()
    ensures var index, top := ORPHAN[Of(C4) := Item(C4, true)], Item(C4, true);
            IndexOk(index) && ItemOk(index, Of(C4), top) && !Findable(index, top, 1)
  {
    Longer();
    var index, top := ORPHAN[Of(C4) := Item(C4, true)], Item(C4, true);
    var ids := AtNumber(index, 1);
    assert Of(B1) in ids && Of(A1) in ids;
    assert |ids| > 1 by { assert {Of(B1), Of(A1)} <= ids; Larger({Of(B1), Of(A1)}, ids); }
    assert Walk(index, index[Of(C2)], 1).None?;
    assert Walk(index, index[Of(C3)], 1).None?;
  }

  /** Every block of the chain is stored, and yet a valid child of its head is refused. */
  method RefusesValid() returns (c: Chain<Probe>)
    ensures fresh(c) && c.Valid() && c.Good() && c.head == Of(C3) && c.rules == Probing()
    ensures At(c.rules, Of(C4)).Some? && Of(C4) !in c.fork.index
  {
    hide Path, KeptAbove, Undoable, Lawful, Misfiled, TidyIndex, Ancestor;
    Longer();
    WalkEnds();
    c := Orphaned();
    c.HasState();
    Fail(c, C4);
  }
}
