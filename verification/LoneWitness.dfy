/**
 The irreversibility rule with a single scheduled witness. Once votes decide, every block is irreversible as soon
 as it is applied; and then a few pushes are enough to have a block logged that is not on the chain.
 */
module LoneWitness {
  import opened Common
  import opened Blocks
  import opened ForkDatabase
  import opened ChainDb
  import opened ChainRuns
  import opened Irreversible
  import opened FinalityRules

  const WITNESS: Name := "witness"

  /** A block with a negative body names no schedule, and is invalid. */
  function Signed(b: Block): (Name, seq<Name>)
  {
    (WITNESS, if b.body < 0 then [] else [WITNESS])
  }

  function Rule(): Rules<Finality>
  {
    Final(Signed, map[WITNESS := 0])
  }

  predicate Alone(f: Finality)
  {
    f.confirmed.Keys == {WITNESS} && Irreversible.Inv(f)
  }

  lemma RuleSteps(f: Finality, b: Block)
    requires Alone(f) && f.head == Num(b.previous)
    ensures Rule().exec(f, b).Some? <==> b.body >= 0
    ensures b.body >= 0 ==>
              var next := Rule().exec(f, b).value;
              && Alone(next) && next.head == Height(b) && next.lib <= Height(b)
              && (Height(b) >= START_VOTING_BLOCK ==> next.lib == Height(b))
  {
    if b.body >= 0 { StepKeeps(f, WITNESS, [WITNESS]); }
  }

  // ----- a chain without forks -----

  /** The fork database stands on the head, and holds blocks of the chain alone. */
  ghost predicate OnlyChain<S(!new)>(c: Chain<S>)
    reads c, c.fork
  {
    && c.head.Of? && c.fork.head.Some? && c.fork.head.value.block == c.head.block && c.head in c.fork.index
    && forall id :: id in c.fork.index ==> Num(id) <= Num(c.head) && id == Ancestor(c.head, Num(id))
  }

  ghost predicate Untouched<S(!new)>(c: Chain<S>)
    reads c, c.fork
  {
    c.head == GENESIS_ID && c.fork.index == map[] && c.fork.head == None
  }

  lemma ChainOnly(index: Index, head: Id, b: Block)
    requires b.previous == head
    requires forall id :: id in index ==> Num(id) <= Num(head) && id == Ancestor(head, Num(id))
    ensures Of(b) !in index
    ensures IndexOk(index) ==> forall id :: id in index ==> index[id].block.previous != Of(b)
    ensures forall id :: id in index ==> id == Ancestor(Of(b), Num(id))
    ensures Ancestor(Of(b), Height(b)) == Of(b) && Ancestor(Of(b), Num(head)) == head
  {
    if IndexOk(index) {
      forall id | id in index ensures index[id].block.previous != Of(b) {
        assert ItemOk(index, id, index[id]);
        assert Num(id) == Num(index[id].block.previous) + 1;
      }
    }
  }

  /** The next block of such a chain. */
  method Grow<S(!new)>(c: Chain<S>, b: Block)
    requires c.Valid() && c.Good() && c.Tidy() && (OnlyChain(c) || Untouched(c))
    requires b.previous == c.head && c.rules.exec(c.data, b).Some?
    modifies c, c.fork
    ensures c.Valid() && c.Good() && c.Tidy() && OnlyChain(c)
    ensures c.head == Of(b) && c.rules.exec(old(c.data), b) == Some(c.data)
    ensures |c.log| == if |old(c.log)| < c.rules.lib(c.data) then c.rules.lib(c.data) else |old(c.log)|
    ensures c.fork.maxSize == Height(b) - c.rules.lib(c.data) + 1
    ensures old(OnlyChain(c)) && c.rules.lib(c.data) == Height(b) ==> c.fork.index.Keys == {Of(b), b.previous}
  {
    hide At, Path, KeptAbove, Undoable, Lawful, Preserves, Committable, Chain.SwitchEnds, Walkable, TidyIndex, Ancestor,
         Chain.Decided, Highest;
    assert old(c.head) == GENESIS_ID ==> Num(c.head) == 0;
    ChainOnly(c.fork.index, c.head, b);
    assert c.Regular(b) && c.Taken(b);
    var r := c.PushBlock(b);
  }

  /** A chain as long as it takes for votes to decide: every block of it is irreversible. */
  method Start() returns (c: Chain<Finality>)
    ensures fresh(c) && fresh(c.fork) && c.Valid() && c.Good() && c.Tidy() && OnlyChain(c)
    ensures c.rules == Rule() && Alone(c.data) && c.data.head == Num(c.head) == |c.log| == START_VOTING_BLOCK
    ensures c.fork.maxSize == 1 && c.fork.index.Keys == {c.head, c.head.block.previous}
  {
    hide At, Path, KeptAbove, Undoable, Lawful, IndexOk, ItemOk, TidyIndex, Ancestor, Irreversible.Inv;
    FinalIsLawful(Signed, map[WITNESS := 0]);
    c := new Chain(Rule());
    assert Alone(c.data) by { Begins(); }
    for n := 0 to START_VOTING_BLOCK
      invariant fresh(c) && fresh(c.fork) && c.Valid() && c.Good() && c.Tidy()
      invariant c.rules == Rule() && Alone(c.data) && c.data.head == Num(c.head) == n
      invariant if n == 0 then Untouched(c) else OnlyChain(c)
      invariant |c.log| <= n
      invariant n == START_VOTING_BLOCK ==>
                  |c.log| == n && c.fork.maxSize == 1 && c.fork.index.Keys == {c.head, c.head.block.previous}
    {
      var b := Block(c.head, 0);
      RuleSteps(c.data, b);
      Grow(c, b);
    }
  }

  lemma Begins()
    ensures Alone(Rule().genesis) && Rule().genesis.head == 0 && Num(GENESIS_ID) == 0
  {
  }

  // ----- a block that is logged in place of another -----

  /** The last two blocks of a chain of which nothing else is stored. */
  function Last(p: Block, g: Block): Index
  {
    map[Of(p) := Item(p, false), Of(g) := Item(g, true)]
  }

  /** With a sibling of the last one, and a child of that. */
  function Beside(p: Block, g: Block, u: Block, t: Block): Index
  {
    Last(p, g)[Of(u) := Item(u, true)][Of(t) := Item(t, true)]
  }

  lemma LastTwo(c: Chain<Finality>) returns (p: Block)
    requires c.fork.Valid() && c.Tidy() && OnlyChain(c) && c.fork.index.Keys == {c.head, c.head.block.previous}
    ensures c.head.block.previous == Of(p) && c.fork.index == Last(p, c.head.block)
    ensures c.fork.head == Some(Item(c.head.block, true))
  {
    hide Ancestor;
    var below := c.head.block.previous;
    assert ItemOk(c.fork.index, below, c.fork.index[below]) && ItemOk(c.fork.index, c.head, c.fork.index[c.head]);
    p := c.fork.index[below].block;
    assert TidyItem(c.fork.index, c.fork.index[c.head]);
    assert Num(c.head) == Num(below) + 1 && Num(below) == Num(p.previous) + 1;
  }

  /** Blocks `p` and `g` of a chain, a sibling `u` of `g`, a child `t` of `u`, and two children of `g`. */
  ghost predicate Around(p: Block, g: Block, u: Block, t: Block, x: Block, y: Block)
  {
    && g.previous == u.previous == Of(p) && u != g && t.previous == Of(u)
    && x.previous == y.previous == Of(g) && x != y
  }

  lemma Numbers(p: Block, g: Block, u: Block, t: Block, x: Block, y: Block)
    requires Around(p, g, u, t, x, y)
    ensures Height(g) == Height(u) == Height(p) + 1 && Height(t) == Height(x) == Height(y) == Height(g) + 1
    ensures Num(Of(g)) == Height(g) && Num(Of(u)) == Height(u) && Num(Of(t)) == Height(t) && Num(Of(p)) == Height(p)
    ensures Ancestor(Of(g), Height(g)) == Of(g) && Ancestor(Of(g), Height(p)) == Of(p)
    ensures Ancestor(Of(t), Height(t)) == Of(t) && Ancestor(Of(t), Height(g)) == Of(u)
    ensures Ancestor(Of(t), Height(p)) == Of(p)
    ensures p != g && p != u && p != t && u != t && g != t
  {
  }

  /** The branches meet one block below the head. */
  lemma MeetBelow(p: Block, g: Block, u: Block, t: Block, x: Block, y: Block)
    requires Around(p, g, u, t, x, y)
    ensures Walkable(Beside(p, g, u, t), Of(g), Of(t), 0) && !Walkable(Beside(p, g, u, t), Of(g), Of(t), Height(g))
  {
    hide Ancestor;
    Numbers(p, g, u, t, x, y);
    var index := Beside(p, g, u, t);
    assert StoredDown(index, Of(t), Height(p));
    assert StoredDown(index, Of(g), Height(p));
    assert Meet(index, Of(t), Of(g), Height(p));
  }

  /** What the end of the switch leaves. */
  lemma StrandedBelow(c: Chain<Finality>, log0: seq<Block>, p: Block, g: Block, u: Block, t: Block, x: Block, y: Block,
                      r: Pushed)
    requires Around(p, g, u, t, x, y) && |log0| == Height(g)
    requires c.SwitchEnds(Of(g), log0, Beside(p, g, u, t), Item(t, true), 1, r)
    ensures c.log == log0 && c.head == Of(g) && c.fork.index == Beside(p, g, u, t) && c.fork.maxSize == 1
    ensures c.fork.head == Some(Item(p, false))
  {
    hide Walkable, Ancestor, Chain.Removed;
    Numbers(p, g, u, t, x, y);
    MeetBelow(p, g, u, t, x, y);
    assert c.Known(c.head);
    var item := c.fork.head.value;
    assert Of(item.block) in Beside(p, g, u, t);
  }

  /** A sibling of the head and a child of it are stored, and the switch to them is stranded. */
  method Strand(c: Chain<Finality>, p: Block, g: Block, u: Block, t: Block, ghost x: Block, ghost y: Block)
    requires c.Valid() && c.Good() && c.Tidy() && Around(p, g, u, t, x, y)
    requires c.head == Of(g) && |c.log| == Height(g) && c.fork.maxSize == 1
    requires c.fork.index == Last(p, g) && c.fork.head == Some(Item(g, true))
    modifies c, c.fork
    ensures c.Valid() && c.Good() && c.Tidy() && c.head == Of(g) && c.log == old(c.log) && c.fork.maxSize == 1
    ensures c.fork.index == Beside(p, g, u, t) && c.fork.head == Some(Item(p, false)) && c.data == old(c.data)
  {
    hide At, Path, KeptAbove, IndexOk, ItemOk, Undoable, Lawful, Committable, Misfiled, Walkable, TidyIndex, Ancestor,
         Chain.SwitchEnds, Chain.Decided, Highest;
    Numbers(p, g, u, t, x, y);
    c.HasState();
    Wait(c, u);
    ghost var log := c.log;
    var r := c.PushBlock(t);
    StrandedBelow(c, log, p, g, u, t, x, y, r);
    c.HasState();
  }

  /** Two blocks are stored at the height of the failed one, which the fork database stands on. */
  lemma Crowded(p: Block, g: Block, u: Block, t: Block, x: Block, y: Block)
    requires Around(p, g, u, t, x, y) && t != x && t != y
    ensures var index, top := Beside(p, g, u, t)[Of(y) := Item(y, true)], Item(x, true);
            && Misfiled(index, top, y) && IndexOk(index) && ItemOk(index, Of(x), top)
            && Committable(index, Some(top), Height(g), Height(y), Height(y))
    ensures Erase(Beside(p, g, u, t)[Of(x) := Item(x, true)], {Of(x)}) == Beside(p, g, u, t)
    ensures Of(x) !in Beside(p, g, u, t) && Of(y) !in Beside(p, g, u, t)
  {
    hide Ancestor;
    Numbers(p, g, u, t, x, y);
    var index := Beside(p, g, u, t)[Of(y) := Item(y, true)];
    var ids := AtNumber(index, Height(y));
    assert Of(t) in ids && Of(y) in ids;
    assert |ids| > 1 by { assert {Of(t), Of(y)} <= ids; Larger({Of(t), Of(y)}, ids); }
    assert Findable(index, Item(x, true), Height(y));
  }

  /** A child of the head fails, and another one becomes irreversible at once: the failed one is logged. */
  method Misfile(c: Chain<Finality>, p: Block, g: Block, u: Block, t: Block, x: Block, y: Block)
    requires c.Valid() && c.Good() && Around(p, g, u, t, x, y) && t != x && t != y
    requires c.head == Of(g) && |c.log| == Height(g) && c.fork.maxSize == 1
    requires c.fork.index == Beside(p, g, u, t) && c.fork.head == Some(Item(p, false))
    requires c.rules.exec(c.data, x).None? && c.rules.exec(c.data, y).Some?
    requires c.rules.lib(c.rules.exec(c.data, y).value) == Height(y)
    modifies c, c.fork
    ensures c.Valid() && c.head == Of(y) && |c.log| == Height(y) && !c.Good()
  {
    hide At, Path, KeptAbove, IndexOk, ItemOk, Undoable, Lawful, Committable, Misfiled, Walkable, TidyIndex, Ancestor,
         Chain.SwitchEnds, Chain.Decided, Highest, Erase;
    Numbers(p, g, u, t, x, y);
    Crowded(p, g, u, t, x, y);
    Fail(c, x);
    assert c.Misfiles(y);
    var r := c.PushBlock(y);
  }

  /** With one scheduled witness, a run after which the log is not the path to the head. */
  method MisfilesBlock() returns (c: Chain<Finality>)
    ensures fresh(c) && c.Valid() && c.rules == Rule() && |c.log| == Num(c.head) && c.log != Path(c.head)
  {
    hide Path, KeptAbove, IndexOk, ItemOk, Undoable, Lawful, TidyIndex, Ancestor, Irreversible.Inv, At;
    c := Start();
    ghost var p0 := LastTwo(c);
    var g := c.head.block;
    var p := c.fork.index[g.previous].block;
    var u, x, y := Block(g.previous, g.body + 1), Block(c.head, -1), Block(c.head, 0);
    var t := Block(Of(u), 0);
    RuleSteps(c.data, x);
    RuleSteps(c.data, y);
    Strand(c, p, g, u, t, x, y);
    Misfile(c, p, g, u, t, x, y);
    NotPath(c);
  }

  lemma NotPath(c: Chain<Finality>)
    requires c.Valid() && !c.Good() && |c.log| == Num(c.head)
    ensures c.log != Path(c.head)
  {
    assert Ancestor(c.head, Num(c.head)) == c.head;
  }
}
