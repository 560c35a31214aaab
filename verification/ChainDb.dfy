/**
 The chain database as an undo/redo machine over the fork database.

 Whatever is pushed, in whatever order and however it fails, the chain state is the state
 reached by replaying the path from genesis to the head block. The block log is a prefix of
 that path for as long as the fork database keeps the blocks above it, and the one push that
 makes it lose such a block is named exactly.
 */
module ChainDb {
  import opened Common
  import opened Blocks
  import opened ForkDatabase

  /** The effect of one block on the chain state, and the last irreversible block in a state. */
  datatype Rules<!S> = Rules(genesis: S, exec: (S, Block) -> Option<S>, lib: S -> nat)

  /** The last irreversible block is never above the block that has just been applied. */
  ghost predicate Lawful<S(!new)>(rules: Rules<S>)
  {
    && rules.lib(rules.genesis) == 0
    && forall s, b :: rules.exec(s, b).Some? ==> rules.lib(rules.exec(s, b).value) <= Height(b)
  }

  /** Replaying every block from genesis up to `id`. */
  ghost function At<S>(rules: Rules<S>, id: Id): Option<S>
  {
    match id
    case Unknown(_, _) => if id == GENESIS_ID then Some(rules.genesis) else None
    case Of(b) =>
      match At(rules, b.previous)
      case None => None
      case Some(s) => rules.exec(s, b)
  }

  lemma {:induction false} AtRooted<S>(rules: Rules<S>, id: Id)
    requires At(rules, id).Some?
    ensures Rooted(id)
  {
    if id.Of? { AtRooted(rules, id.block.previous); }
  }

  lemma {:induction false} AtBelow<S>(rules: Rules<S>, id: Id, n: nat)
    requires At(rules, id).Some? && n <= Num(id)
    ensures At(rules, Ancestor(id, n)).Some? && Num(Ancestor(id, n)) == n
  {
    if Num(id) > n { AtBelow(rules, id.block.previous, n); }
  }

  /** The blocks of the path to `id` above height `h` are stored. */
  ghost predicate KeptAbove(index: Index, id: Id, h: nat)
  {
    forall n :: h < n <= Num(id) ==> Ancestor(id, n) in index
  }

  /** `k` links in a row, from `item` downwards. */
  ghost predicate Descends(index: Index, item: Item, k: nat)
    requires IndexOk(index) && ItemOk(index, Of(item.block), item)
    decreases k
  {
    k == 0 || (item.linked && Descends(index, index[item.block.previous], k - 1))
  }

  /** From `head`, with the fork database standing at `item`, undoing blocks gets to `target`. */
  ghost predicate Reach(index: Index, logged: nat, head: Id, item: Item, target: Id)
    requires IndexOk(index) && ItemOk(index, Of(item.block), item)
  {
    && logged <= Num(target) <= Num(head)
    && target == Ancestor(head, Num(target))
    && KeptAbove(index, head, Num(target))
    && Descends(index, item, Num(head) - Num(target))
  }

  lemma ReachStep(index: Index, logged: nat, head: Id, item: Item, target: Id)
    requires IndexOk(index) && ItemOk(index, Of(item.block), item)
    requires Reach(index, logged, head, item, target) && head != target
    ensures head in index && head.Of? && item.linked && logged <= Num(target) < Num(head)
    ensures Reach(index, logged, head.block.previous, index[item.block.previous], target)
  {
    assert Ancestor(head, Num(head)) == head;
    var below := head.block.previous;
    forall n | Num(target) < n <= Num(below) ensures Ancestor(below, n) in index {
      assert Ancestor(head, n) == Ancestor(below, n);
    }
  }

  datatype Saved<S> = Saved(head: Id, data: S)

  datatype Pushed =
    | Refused                     // the fork database does not take the block
    | Extended                    // the block is the new head
    | BadBlock                    // the block does not apply to the head
    | Waiting                     // kept as a fork that is not higher than the head
    | Unwalkable                  // a higher fork whose branch is not stored completely
    | Switched                    // the higher fork is now the chain
    | Reverted(bad: Block)        // a block of the higher fork does not apply
    | Stranded(forkPoint: Id)     // the fork point cannot be reached by undoing blocks

  /** The state at the head, and the states that undoing blocks goes back through. */
  ghost predicate Undoable<S>(rules: Rules<S>, head: Id, data: S, undo: seq<Saved<S>>, logged: nat)
  {
    && At(rules, head) == Some(data)
    && rules.lib(data) <= logged
    && |undo| <= Num(head)
    && logged == Num(head) - |undo|
    && forall k :: 0 <= k < |undo| ==> SavedOk(rules, head, undo[k], logged, k)
  }

  ghost predicate SavedOk<S>(rules: Rules<S>, head: Id, saved: Saved<S>, logged: nat, k: nat)
  {
    && saved.head == Ancestor(head, logged + k)
    && At(rules, saved.head) == Some(saved.data)
    && rules.lib(saved.data) <= logged
  }

  lemma UndoableExtend<S>(rules: Rules<S>, head: Id, data: S, undo: seq<Saved<S>>, logged: nat,
                          b: Block, next: S, logged': nat)
    requires Undoable(rules, head, data, undo, logged)
    requires b.previous == head && rules.exec(data, b) == Some(next)
    requires logged <= logged' <= Height(b) && rules.lib(next) <= logged'
    ensures Undoable(rules, Of(b), next, (undo + [Saved(head, data)])[logged' - logged..], logged')
  {
    var longer := undo + [Saved(head, data)];
    var kept := longer[logged' - logged..];
    forall k | 0 <= k < |kept| ensures SavedOk(rules, Of(b), kept[k], logged', k) {
      var at := k + logged' - logged;
      assert at < |undo| ==> SavedOk(rules, head, undo[at], logged, at);
    }
  }

  lemma UndoableBack<S>(rules: Rules<S>, head: Id, data: S, undo: seq<Saved<S>>, logged: nat)
    requires Undoable(rules, head, data, undo, logged) && undo != []
    ensures var last := undo[|undo| - 1];
            && Undoable(rules, last.head, last.data, undo[..|undo| - 1], logged)
            && head.Of? && last.head == head.block.previous
  {
    var m := |undo| - 1;
    var last := undo[m];
    assert SavedOk(rules, head, last, logged, m);
    AtRooted(rules, head);
    AncestorNum(head, Num(head) - 1);
    forall k | 0 <= k < m ensures SavedOk(rules, last.head, undo[k], logged, k) {
      assert SavedOk(rules, head, undo[k], logged, k);
      AncestorTwice(head, logged + m, logged + k);
    }
  }

  /** What the lookup of a main-branch block may return. */
  ghost predicate Found(index: Index, forkHead: Option<Item>, n: nat, block: Block)
    requires IndexOk(index) && (forkHead.Some? ==> ItemOk(index, Of(forkHead.value.block), forkHead.value))
  {
    && forkHead.Some?
    && (MainBranch(index, forkHead.value, n, Some(Item(block, true)))
        || MainBranch(index, forkHead.value, n, Some(Item(block, false))))
  }

  lemma IsFound(index: Index, forkHead: Option<Item>, n: nat, item: Item)
    requires IndexOk(index) && (forkHead.Some? ==> ItemOk(index, Of(forkHead.value.block), forkHead.value))
    requires forkHead.Some? && MainBranch(index, forkHead.value, n, Some(item))
    ensures Found(index, forkHead, n, item.block)
  {
    assert Some(item) == Some(Item(item.block, item.linked));
  }

  /** The fork database stands at the new block's height, and every block that becomes irreversible is found. */
  ghost predicate Committable(index: Index, forkHead: Option<Item>, logged: nat, height: nat, lib: nat)
    requires IndexOk(index) && (forkHead.Some? ==> ItemOk(index, Of(forkHead.value.block), forkHead.value))
  {
    if forkHead.None? then lib <= logged
    else Height(forkHead.value.block) == height
         && forall n :: logged < n <= lib ==> Findable(index, forkHead.value, n)
  }

  lemma CommittableHeight(index: Index, forkHead: Option<Item>, logged: nat, height: nat, lib: nat)
    requires IndexOk(index) && (forkHead.Some? ==> ItemOk(index, Of(forkHead.value.block), forkHead.value))
    requires Committable(index, forkHead, logged, height, lib)
    ensures forkHead.Some? ==> Height(forkHead.value.block) == height
  {
  }

  /** Lookups from a child of the head find the blocks of the chain, if those are stored. */
  lemma FoundOnChain<S>(rules: Rules<S>, head: Id, index: Index, forkHead: Option<Item>, h: nat, n: nat, block: Block)
    requires IndexOk(index) && (forkHead.Some? ==> ItemOk(index, Of(forkHead.value.block), forkHead.value))
    requires At(rules, head).Some? && KeptAbove(index, head, h) && h < n <= Num(head)
    requires Found(index, forkHead, n, block) && forkHead.value.block.previous == head
    ensures Of(block) == Ancestor(head, n)
  {
    AtBelow(rules, head, n);
    var top := forkHead.value;
    assert Ancestor(Of(top.block), n) == Ancestor(head, n);
    if MainBranch(index, top, n, Some(Item(block, true))) {
      ShortcutAgrees(index, top, n, Some(Item(block, true)));
    } else {
      ShortcutAgrees(index, top, n, Some(Item(block, false)));
    }
  }

  /** Something else than the new block is found at its height. */
  ghost predicate Misfiled(index: Index, forkHead: Item, b: Block)
  {
    forkHead.block != b && AtNumber(index, Height(b)) != {Of(b)}
  }

  /** At the height of the fork database's head, the lookup finds a block that is alone there, or that head. */
  lemma FoundAtTop(index: Index, forkHead: Option<Item>, b: Block, block: Block)
    requires IndexOk(index) && (forkHead.Some? ==> ItemOk(index, Of(forkHead.value.block), forkHead.value))
    requires Found(index, forkHead, Height(b), block) && Height(forkHead.value.block) == Height(b) && Of(b) in index
    ensures block == b <==> !Misfiled(index, forkHead.value, b)
  {
    var ids := AtNumber(index, Height(b));
    assert Of(b) in ids;
    if |ids| == 1 {
      OnlyOne(ids, Of(b), Of(block));
      assert ids == {Of(b)} by { forall id | id in ids ensures id == Of(b) { OnlyOne(ids, id, Of(b)); } }
    }
  }

  /** What migration looks up below the new block continues the log along the chain. */
  lemma LogExtends<S>(rules: Rules<S>, head: Id, index: Index, forkHead: Option<Item>, log: seq<Block>,
                      blocks: seq<Block>)
    requires IndexOk(index) && (forkHead.Some? ==> ItemOk(index, Of(forkHead.value.block), forkHead.value))
    requires At(rules, head).Some? && KeptAbove(index, head, |log|) && |log| + |blocks| <= Num(head)
    requires log == Path(Ancestor(head, |log|))
    requires forkHead.Some? && forkHead.value.block.previous == head
    requires forall i :: 0 <= i < |blocks| ==> Found(index, forkHead, |log| + i + 1, blocks[i])
    ensures log + blocks == Path(Ancestor(head, |log + blocks|))
  {
    hide Found, KeptAbove, At, Ancestor;
    AtRooted(rules, head);
    PathAt(head, |log|);
    PathAt(head, |log + blocks|);
    forall i | 0 <= i < |blocks| ensures blocks[i] == Path(head)[|log| + i] {
      FoundOnChain(rules, head, index, forkHead, |log|, |log| + i + 1, blocks[i]);
      PathAt(head, |log| + i + 1);
    }
    assert log + blocks == Path(head)[..|log + blocks|];
  }

  /** And with the new block itself, exactly when nothing else is found at its height. */
  lemma LogReaches<S>(rules: Rules<S>, b: Block, index: Index, forkHead: Option<Item>, log: seq<Block>,
                      blocks: seq<Block>)
    requires IndexOk(index) && (forkHead.Some? ==> ItemOk(index, Of(forkHead.value.block), forkHead.value))
    requires At(rules, b.previous).Some? && KeptAbove(index, b.previous, |log|)
    requires |log| < |log| + |blocks| == Height(b) && Of(b) in index
    requires log == Path(Ancestor(b.previous, |log|))
    requires forkHead.Some? && forkHead.value.block.previous == b.previous
    requires forall i :: 0 <= i < |blocks| ==> Found(index, forkHead, |log| + i + 1, blocks[i])
    ensures log + blocks == Path(Of(b)) <==> !Misfiled(index, forkHead.value, b)
  {
    hide Found, KeptAbove, At, Misfiled;
    var m := |blocks| - 1;
    LogExtends(rules, b.previous, index, forkHead, log, blocks[..m]);
    assert Ancestor(b.previous, Num(b.previous)) == b.previous;
    FoundAtTop(index, forkHead, b, blocks[m]);
    assert log + blocks == Path(b.previous) + [blocks[m]];
    assert Path(Of(b)) == Path(b.previous) + [b];
    assert (log + blocks)[|log| + m] == blocks[m] && Path(Of(b))[|log| + m] == b;
  }

  /** Items from height `h` up are stored as before, and so are those one below. */
  ghost predicate Preserves(before: Index, after: Index, h: nat)
  {
    && (forall id :: id in before && Num(id) >= h ==> id in after && after[id] == before[id])
    && (forall id :: id in before && Num(id) + 1 >= h ==> id in after)
  }

  lemma PrunePreserves(before: Index, gone: set<Id>, h: nat)
    requires IndexOk(before) && forall id :: id in gone ==> Num(id) + 1 < h
    ensures Preserves(before, Erase(before, gone), h)
  {
  }

  lemma KeptExtends<S>(rules: Rules<S>, before: Index, after: Index, b: Block, h: nat, h': nat)
    requires At(rules, b.previous).Some? && KeptAbove(before, b.previous, h) && Of(b) in before
    requires Preserves(before, after, h') && h <= h'
    ensures KeptAbove(after, Of(b), h')
  {
    forall n | h' < n <= Height(b) ensures Ancestor(Of(b), n) in after {
      if n < Height(b) { AtBelow(rules, b.previous, n); }
    }
  }

  lemma PreservesRefl(index: Index, h: nat)
    ensures Preserves(index, index, h)
  {
  }

  lemma PreservesTwice(a: Index, b: Index, c: Index, h: nat, h': nat)
    requires Preserves(a, b, h) && Preserves(b, c, h') && h <= h'
    ensures Preserves(a, c, h')
  {
  }

  /** The blocks of `branch` lead from `base` up to `tip`. */
  ghost predicate Above(tip: Id, branch: seq<Item>, base: Id)
  {
    && |branch| <= Num(tip)
    && (forall i :: 0 <= i < |branch| ==> Of(branch[i].block) == Ancestor(tip, Num(tip) - i)
                                          && Height(branch[i].block) == Num(tip) - i)
    && base == Ancestor(tip, Num(tip) - |branch|)
  }

  lemma {:induction false} AboveNext(tip: Id, branch: seq<Item>, base: Id, i: nat)
    requires Above(tip, branch, base) && i < |branch|
    ensures branch[i].block.previous == if i + 1 == |branch| then base else Of(branch[i + 1].block)
    ensures Of(branch[i].block) == Ancestor(tip, Num(tip) - i) && Height(branch[i].block) == Num(tip) - i
  {
    AncestorTwice(tip, Num(tip) - i, Num(tip) - i - 1);
  }

  lemma AboveEnds(tip: Id, branch: seq<Item>, base: Id)
    requires Above(tip, branch, base) && branch != [] && base == branch[|branch| - 1].block.previous
    ensures Num(base) == Num(tip) - |branch| && base == Ancestor(tip, Num(base))
    ensures Of(branch[0].block) == tip == Ancestor(tip, Num(tip))
  {
    AboveNext(tip, branch, base, |branch| - 1);
    AboveNext(tip, branch, base, 0);
    assert Ancestor(tip, Num(tip)) == tip;
  }

  lemma AboveAt(tip: Id, branch: seq<Item>, base: Id, left: nat)
    requires Above(tip, branch, base) && left <= |branch|
    ensures Ancestor(tip, Num(tip) - left) == if left == |branch| then base else Of(branch[left].block)
  {
  }

  ghost predicate StoredAll(index: Index, branch: seq<Item>)
  {
    forall i :: 0 <= i < |branch| ==> Of(branch[i].block) in index
  }

  lemma BranchAbove(index: Index, tip: Id, branch: seq<Item>)
    requires IsBranch(index, tip, branch) && branch != []
    ensures Above(tip, branch, branch[|branch| - 1].block.previous)
    ensures StoredAll(index, branch)
  {
    forall i | 0 <= i < |branch|
      ensures Of(branch[i].block) == Ancestor(tip, Num(tip) - i) && Height(branch[i].block) == Num(tip) - i
      ensures Of(branch[i].block) in index
    {
      assert Stored(index, tip, i, branch[i]);
    }
    AncestorTwice(tip, Num(tip) - |branch| + 1, Num(tip) - |branch|);
  }

  /** The items of `fs` from position `j` on are stored, with their links. */
  ghost predicate StoredFrom(index: Index, fs: seq<Item>, j: nat)
  {
    && (forall i :: j <= i < |fs| ==> Of(fs[i].block) in index && index[Of(fs[i].block)] == fs[i])
    && (forall i :: 0 <= i < |fs| - 1 ==> fs[i].linked)
  }

  lemma {:induction false} BranchDescends(index: Index, tip: Id, fs: seq<Item>, base: Id, j: nat, k: nat)
    requires IndexOk(index) && Above(tip, fs, base) && StoredFrom(index, fs, j) && j + k < |fs|
    ensures ItemOk(index, Of(fs[j].block), fs[j]) && Descends(index, fs[j], k)
    decreases k
  {
    assert index[Of(fs[j].block)] == fs[j];
    if k > 0 {
      AboveNext(tip, fs, base, j);
      BranchDescends(index, tip, fs, base, j + 1, k - 1);
    }
  }

  lemma KeptBranch(index: Index, tip: Id, branch: seq<Item>, base: Id, left: nat)
    requires Above(tip, branch, base) && left <= |branch| && StoredFrom(index, branch, left)
    requires Num(base) == Num(tip) - |branch|
    ensures KeptAbove(index, Ancestor(tip, Num(tip) - left), Num(tip) - |branch|)
    ensures Num(Ancestor(tip, Num(tip) - left)) == Num(tip) - left
  {
    AboveAt(tip, branch, base, left);
    var top := Ancestor(tip, Num(tip) - left);
    forall n | Num(tip) - |branch| < n <= Num(top) ensures Ancestor(top, n) in index {
      AncestorTwice(tip, Num(tip) - left, n);
      AboveAt(tip, branch, base, Num(tip) - n);
    }
  }

  /** Undoing the chain down to the fork point, with the fork database on the new head. */
  lemma FirstReach(index: Index, logged: nat, head: Id, item: Item, tip: Id, fs: seq<Item>, ss: seq<Item>)
    requires IndexOk(index) && ItemOk(index, Of(item.block), item) && Of(item.block) == tip && item.linked
    requires Fork(index, tip, head, fs, ss) && Num(tip) > Num(head)
    requires logged <= Num(head) - |ss|
    ensures Reach(index, logged, head, item, ss[|ss| - 1].block.previous)
  {
    hide IsBranch, KeptAbove;
    var target := ss[|ss| - 1].block.previous;
    BranchAbove(index, tip, fs);
    BranchAbove(index, head, ss);
    BranchStored(index, tip, fs);
    BranchStored(index, head, ss);
    KeptBranch(index, head, ss, target, 0);
    AboveNext(tip, fs, fs[|fs| - 1].block.previous, 0);
    BranchDescends(index, tip, fs, fs[|fs| - 1].block.previous, 1, |ss| - 1);
    assert Ancestor(tip, Num(tip)) == tip;
    assert Ancestor(head, Num(head)) == head;
  }

  lemma BranchStored(index: Index, tip: Id, branch: seq<Item>)
    requires IsBranch(index, tip, branch)
    ensures StoredFrom(index, branch, 0)
  {
    forall i | 0 <= i < |branch| ensures Of(branch[i].block) in index && index[Of(branch[i].block)] == branch[i] {
      assert Stored(index, tip, i, branch[i]);
    }
  }

  /** What a failed branch leaves stored of itself, once the rest has been removed. */
  lemma RemovedRest(index: Index, applied: Index, tip: Id, fs: seq<Item>, base: Id, left: nat, logged: nat)
    requires Above(tip, fs, base) && StoredFrom(index, fs, 0) && left <= |fs|
    requires Preserves(index, applied, logged) && logged <= Num(tip) - |fs|
    ensures StoredFrom(Erase(applied, Ids(fs[..left])), fs, left)
  {
    var after := Erase(applied, Ids(fs[..left]));
    forall i | left <= i < |fs| ensures Of(fs[i].block) in after && after[Of(fs[i].block)] == fs[i] {
      AboveNext(tip, fs, base, i);
      NotAmong(tip, fs, base, left, Of(fs[i].block));
      NotAmong(tip, fs, base, left, fs[i].block.previous);
    }
  }

  /** The fork database stands on the failed block, whose link is in place. */
  lemma StandingLinked(index: Index, applied: Index, tip: Id, fs: seq<Item>, base: Id, left: nat, logged: nat)
    requires Above(tip, fs, base) && StoredFrom(index, fs, 0) && 0 < left <= |fs|
    requires Preserves(index, applied, logged) && logged <= Num(tip) - |fs|
    ensures var item := Relinked(Standing(applied, fs[left - 1]), Ids(fs[..left]));
            item.block == fs[left - 1].block && (left < |fs| ==> item.linked)
  {
    AboveNext(tip, fs, base, left - 1);
    if left < |fs| {
      AboveNext(tip, fs, base, left);
      NotAmong(tip, fs, base, left, fs[left - 1].block.previous);
    }
  }

  lemma RestHigher(tip: Id, fs: seq<Item>, base: Id, left: nat)
    requires Above(tip, fs, base) && left <= |fs| && Num(base) == Num(tip) - |fs|
    ensures Num(Ancestor(tip, Num(tip) - left)) == Num(tip) - left
    ensures forall i :: 0 <= i < left ==> Height(fs[..left][i].block) > Num(tip) - left
  {
    AboveAt(tip, fs, base, left);
  }

  lemma NotAmong(tip: Id, fs: seq<Item>, base: Id, left: nat, id: Id)
    requires Above(tip, fs, base) && left <= |fs| && Num(id) <= Num(tip) - left
    ensures id !in Ids(fs[..left])
  {
    forall i | 0 <= i < left ensures Of(fs[..left][i].block) != id {
      AboveNext(tip, fs, base, i);
    }
  }

  lemma SecondReach(index: Index, logged: nat, tip: Id, fs: seq<Item>, base: Id, left: nat, item: Item)
    requires IndexOk(index) && ItemOk(index, Of(item.block), item)
    requires Above(tip, fs, base) && 0 < left <= |fs| && StoredFrom(index, fs, left)
    requires item.block == fs[left - 1].block && (left < |fs| ==> item.linked)
    requires Num(base) == Num(tip) - |fs| && logged <= Num(base)
    ensures Reach(index, logged, Ancestor(tip, Num(tip) - left), item, base)
  {
    hide Above, KeptAbove, Ancestor;
    KeptBranch(index, tip, fs, base, left);
    AboveAt(tip, fs, base, |fs|);
    AncestorTwice(tip, Num(tip) - left, Num(base));
    if left < |fs| {
      AboveNext(tip, fs, base, left - 1);
      BranchDescends(index, tip, fs, base, left, |fs| - left - 1);
    }
  }

  /** The chain's own blocks are stored all along. */
  lemma HomeStored(before: Index, applied: Index, home: Id, ss: seq<Item>, base: Id, gone: seq<Item>, logged: nat)
    requires Above(home, ss, base) && StoredFrom(before, ss, 0) && Num(base) == Num(home) - |ss|
    requires Preserves(before, applied, logged) && logged <= Num(base) && Disjoint(gone, ss)
    ensures StoredAll(Erase(applied, Ids(gone)), ss)
  {
    forall i | 0 <= i < |ss| ensures Of(ss[i].block) in Erase(applied, Ids(gone)) {
      AboveNext(home, ss, base, i);
    }
  }

  lemma LostOnly(before: Index, applied: Index, after: Index, tip: Id, fs: seq<Item>, base: Id, left: nat, h: nat,
                 logged: nat)
    requires Above(tip, fs, base) && 0 < left <= |fs|
    requires Preserves(before, applied, h) && Preserves(Erase(applied, Ids(fs[..left])), after, logged) && h <= logged
    ensures Lost(before, after, tip, Height(fs[left - 1].block), logged)
  {
    hide Above, Ancestor, Erase;
    AboveNext(tip, fs, base, left - 1);
    forall id | id in before && id !in after && Num(id) + 1 >= logged
      ensures Height(fs[left - 1].block) <= Num(id) <= Num(tip) && id == Ancestor(tip, Num(id))
    {
      assert id in Ids(fs[..left]);
      var i :| 0 <= i < left && fs[..left][i].block == id.block;
      AboveNext(tip, fs, base, i);
    }
  }

  /** The higher branch can only share the chain's head, and then applies at least that. */
  lemma ApartRest(fs: seq<Item>, ss: seq<Item>, left: nat)
    requires Apart(fs, ss) && left <= |fs| && |fs| > |ss| > 0
    requires fs[|fs| - 1].block == ss[|ss| - 1].block ==> left < |fs|
    ensures Disjoint(fs[..left], ss)
  {
  }

  ghost predicate Disjoint(fs: seq<Item>, ss: seq<Item>)
  {
    forall i, j :: 0 <= i < |fs| && 0 <= j < |ss| ==> fs[i].block != ss[j].block
  }

  /** Only blocks at or above height `h` on the way down from `tip`, and pruned blocks, are gone. */
  ghost predicate Lost(before: Index, after: Index, tip: Id, h: nat, logged: nat)
  {
    forall id :: id in before && id !in after ==>
                   (h <= Num(id) <= Num(tip) && id == Ancestor(tip, Num(id))) || Num(id) + 1 < logged
  }

  /** The blocks from height `h` up to `tip` are gone. */
  ghost predicate Gone(after: Index, tip: Id, h: nat)
  {
    forall n :: h <= n <= Num(tip) ==> Ancestor(tip, n) !in after
  }

  lemma RemovedGone(index: Index, after: Index, tip: Id, fs: seq<Item>, base: Id, left: nat)
    requires Above(tip, fs, base) && 0 < left <= |fs|
    requires after.Keys <= Erase(index, Ids(fs[..left])).Keys
    ensures Gone(after, tip, Height(fs[left - 1].block))
  {
    hide Ancestor;
    forall n | Height(fs[left - 1].block) <= n <= Num(tip) ensures Ancestor(tip, n) !in after {
      assert fs[..left][Num(tip) - n].block == fs[Num(tip) - n].block;
    }
  }

  // ----- what a switch to a branch commits -----

  /** The branch is valid up to height `m`, and the last irreversible block there is `lib`. */
  ghost predicate LibAt<S>(rules: Rules<S>, tip: Id, m: nat, lib: nat)
  {
    At(rules, Ancestor(tip, m)).Some? && rules.lib(At(rules, Ancestor(tip, m)).value) == lib
  }

  /** A valid block of the branch above height `h` makes a block above `h` irreversible. */
  ghost predicate Commits<S>(rules: Rules<S>, tip: Id, h: nat)
  {
    exists m: nat, lib: nat :: h < m <= Num(tip) && LibAt(rules, tip, m, lib) && h < lib
  }

  /** Of a log of `before` blocks, applying the valid blocks of the branch above `h` makes one of `after`. */
  ghost predicate Committed<S>(rules: Rules<S>, tip: Id, h: nat, before: nat, after: nat)
  {
    && before <= after
    && (forall m: nat, lib: nat :: h < m <= Num(tip) && LibAt(rules, tip, m, lib) ==> lib <= after)
    && (before == after || exists m: nat :: h < m <= Num(tip) && LibAt(rules, tip, m, after))
  }

  lemma CommitsAbove<S>(rules: Rules<S>, tip: Id, h: nat, before: nat, after: nat)
    requires Committed(rules, tip, h, before, after) && before <= h
    ensures Commits(rules, tip, h) <==> h < after
  {
    hide LibAt;
  }

  /**
   The blocks of the branch above `h` that are not valid are gone, and nothing else but what is pruned.
   */
  ghost predicate Weeded<S>(rules: Rules<S>, before: Index, after: Index, tip: Id, h: nat, logged: nat)
  {
    && (forall n :: h < n <= Num(tip) && At(rules, Ancestor(tip, n)).None? ==> Ancestor(tip, n) !in after)
    && (forall id :: id in before && id !in after && logged <= Num(id) + 1 ==>
                       h < Num(id) <= Num(tip) && id == Ancestor(tip, Num(id)) && At(rules, id).None?)
  }

  lemma WeedsInvalid<S>(rules: Rules<S>, before: Index, after: Index, tip: Id, h: nat, bad: nat, logged: nat)
    requires Lost(before, after, tip, bad, logged) && Gone(after, tip, bad) && h < bad <= Num(tip)
    requires At(rules, Ancestor(tip, bad - 1)).Some? && At(rules, Ancestor(tip, bad)).None?
    ensures Weeded(rules, before, after, tip, h, logged)
  {
    forall n | h < n <= Num(tip) ensures At(rules, Ancestor(tip, n)).None? <==> bad <= n {
      ValidUpTo(rules, tip, bad, n);
    }
  }

  /** The blocks below the lowest invalid one are valid, and those above it are not. */
  lemma ValidUpTo<S>(rules: Rules<S>, tip: Id, bad: nat, n: nat)
    requires 0 < bad <= Num(tip) && n <= Num(tip)
    requires At(rules, Ancestor(tip, bad - 1)).Some? && At(rules, Ancestor(tip, bad)).None?
    ensures At(rules, Ancestor(tip, n)).None? <==> bad <= n
  {
    AtRooted(rules, Ancestor(tip, bad - 1));
    RootedAbove(tip, bad - 1);
    if bad <= n {
      AncestorTwice(tip, n, bad);
      if At(rules, Ancestor(tip, n)).Some? {
        AncestorNum(tip, n);
        AtBelow(rules, Ancestor(tip, n), bad);
      }
    } else {
      AncestorTwice(tip, bad - 1, n);
      AncestorNum(tip, bad - 1);
      AtBelow(rules, Ancestor(tip, bad - 1), n);
    }
  }

  // ----- going back as far as undoing goes -----

  lemma PrefixAbove(tip: Id, branch: seq<Item>, base: Id, m: nat)
    requires Above(tip, branch, base) && m <= |branch|
    ensures Above(tip, branch[..m], Ancestor(tip, Num(tip) - m))
  {
  }

  lemma ReachHere(index: Index, logged: nat, head: Id, item: Item)
    requires IndexOk(index) && ItemOk(index, Of(item.block), item) && logged <= Num(head)
    ensures Reach(index, logged, head, item, head)
  {
    assert Ancestor(head, Num(head)) == head;
  }

  /** With the fork point below the committed block, undoing still gets down to that block. */
  lemma FirstSink(index: Index, logged: nat, head: Id, item: Item, tip: Id, fs: seq<Item>, ss: seq<Item>)
    requires IndexOk(index) && ItemOk(index, Of(item.block), item) && Of(item.block) == tip && item.linked
    requires Fork(index, tip, head, fs, ss) && Num(tip) > Num(head)
    requires Num(head) - |ss| < logged <= Num(head)
    ensures Reach(index, logged, head, item, Ancestor(head, logged))
  {
    hide IsBranch, KeptAbove, Above, StoredFrom, Num;
    if logged == Num(head) {
      ReachHere(index, logged, head, item);
      assert Ancestor(head, Num(head)) == head;
      return;
    }
    var target := ss[|ss| - 1].block.previous;
    var m := Num(head) - logged;
    BranchAbove(index, tip, fs);
    BranchAbove(index, head, ss);
    BranchStored(index, tip, fs);
    BranchStored(index, head, ss);
    PrefixAbove(head, ss, target, m);
    FloorAt(head, ss, target, m);
    KeptBranch(index, head, ss[..m], Ancestor(head, logged), 0);
    AboveNext(tip, fs, fs[|fs| - 1].block.previous, 0);
    BranchDescends(index, tip, fs, fs[|fs| - 1].block.previous, 1, m - 1);
    assert Ancestor(tip, Num(tip)) == tip;
    assert Ancestor(head, Num(head)) == head;
  }

  lemma FloorAt(tip: Id, branch: seq<Item>, base: Id, m: nat)
    requires Above(tip, branch, base) && m < |branch|
    ensures Num(Ancestor(tip, Num(tip) - m)) == Num(tip) - m
  {
    AboveAt(tip, branch, base, m);
    AboveNext(tip, branch, base, m);
  }

  /** The same once a branch has failed part way, after some of it has become irreversible. */
  lemma SecondSink(before: Index, applied: Index, logged: nat, tip: Id, fs: seq<Item>, base: Id, left: nat)
    requires 0 < left <= |fs| && IndexOk(Erase(applied, Ids(fs[..left])))
    requires Above(tip, fs, base) && Num(base) == Num(tip) - |fs| && StoredFrom(before, fs, 0)
    requires Preserves(before, applied, logged)
    requires Num(base) < logged <= Num(tip) - left
    ensures var index := Erase(applied, Ids(fs[..left]));
            var item := Relinked(Standing(applied, fs[left - 1]), Ids(fs[..left]));
            var head := Ancestor(tip, Num(tip) - left);
            ItemOk(index, Of(item.block), item) ==> Reach(index, logged, head, item, Ancestor(head, logged))
  {
    hide Above, StoredFrom, Preserves, Reach, Ancestor, Erase, Ids, IndexOk, ItemOk, Relinked, Standing, Num;
    var m := Num(tip) - logged;
    PrefixAbove(tip, fs, base, m);
    FloorAt(tip, fs, base, m);
    StoredPrefix(before, fs, m);
    AncestorTwice(tip, Num(tip) - left, logged);
    assert fs[..m][..left] == fs[..left] && fs[..m][left - 1] == fs[left - 1];
    SinkAlong(before, applied, logged, tip, fs[..m], left);
  }

  lemma SinkAlong(before: Index, applied: Index, logged: nat, tip: Id, fs: seq<Item>, left: nat)
    requires 0 < left <= |fs| && IndexOk(Erase(applied, Ids(fs[..left])))
    requires Above(tip, fs, Ancestor(tip, logged)) && Num(Ancestor(tip, logged)) == logged == Num(tip) - |fs|
    requires StoredFrom(before, fs, 0) && Preserves(before, applied, logged)
    ensures var index := Erase(applied, Ids(fs[..left]));
            var item := Relinked(Standing(applied, fs[left - 1]), Ids(fs[..left]));
            ItemOk(index, Of(item.block), item) ==>
              Reach(index, logged, Ancestor(tip, Num(tip) - left), item, Ancestor(tip, logged))
  {
    hide Above, StoredFrom, Preserves, Reach, Ancestor, Erase, Ids, IndexOk, ItemOk, Num;
    var index := Erase(applied, Ids(fs[..left]));
    var item := Relinked(Standing(applied, fs[left - 1]), Ids(fs[..left]));
    RemovedRest(before, applied, tip, fs, Ancestor(tip, logged), left, logged);
    StandingLinked(before, applied, tip, fs, Ancestor(tip, logged), left, logged);
    if ItemOk(index, Of(item.block), item) {
      SecondReach(index, logged, tip, fs, Ancestor(tip, logged), left, item);
    }
  }

  lemma StoredPrefix(index: Index, fs: seq<Item>, m: nat)
    requires StoredFrom(index, fs, 0) && m <= |fs|
    ensures StoredFrom(index, fs[..m], 0)
  {
  }

  /** What is known of two branches that fork at `target`. */
  ghost predicate Branches(index: Index, tip: Id, home: Id, fs: seq<Item>, ss: seq<Item>, target: Id)
  {
    && fs != [] && ss != [] && |fs| > |ss| && Apart(fs, ss)
    && Above(tip, fs, target) && Above(home, ss, target)
    && target == fs[|fs| - 1].block.previous == ss[|ss| - 1].block.previous
    && Num(target) == Num(tip) - |fs| == Num(home) - |ss|
    && StoredFrom(index, fs, 0) && StoredFrom(index, ss, 0) && StoredAll(index, fs)
  }

  lemma BranchFacts(index: Index, tip: Id, home: Id, fs: seq<Item>, ss: seq<Item>)
    requires Fork(index, tip, home, fs, ss) && Apart(fs, ss) && Num(tip) > Num(home)
    ensures fs != [] && ss != [] && Branches(index, tip, home, fs, ss, ss[|ss| - 1].block.previous)
  {
    hide Above, StoredFrom, IsBranch, StoredAll;
    BranchAbove(index, tip, fs);
    BranchAbove(index, home, ss);
    BranchStored(index, tip, fs);
    BranchStored(index, home, ss);
    AboveEnds(tip, fs, ss[|ss| - 1].block.previous);
  }

  lemma TargetFacts(index: Index, tip: Id, home: Id, fs: seq<Item>, ss: seq<Item>, target: Id)
    requires Branches(index, tip, home, fs, ss, target)
    ensures Num(target) == Num(tip) - |fs| == Num(home) - |ss|
    ensures target == Ancestor(tip, Num(target)) == Ancestor(home, Num(target))
  {
    hide Above, StoredFrom, StoredAll, Apart;
    AboveEnds(tip, fs, target);
    AboveEnds(home, ss, target);
  }

  // ----- links -----

  /** The items of a branch do not lack a link they could have. */
  ghost predicate TidyItems(index: Index, branch: seq<Item>)
  {
    forall i :: 0 <= i < |branch| ==> TidyItem(index, branch[i])
  }

  lemma StoredTidy(index: Index, branch: seq<Item>)
    requires TidyIndex(index) && StoredFrom(index, branch, 0)
    ensures TidyItems(index, branch)
  {
  }

  lemma ShrunkItems(before: Index, after: Index, branch: seq<Item>)
    requires TidyItems(before, branch) && after.Keys <= before.Keys
    ensures TidyItems(after, branch)
  {
  }

  /** While the chain above the log is stored with its links, every lookup of migration finds a block. */
  lemma LookupsFind<S>(rules: Rules<S>, index: Index, forkHead: Item, b: Block, logged: nat, lib: nat)
    requires IndexOk(index) && ItemOk(index, Of(forkHead.block), forkHead)
    requires TidyIndex(index) && TidyItem(index, forkHead)
    requires At(rules, b.previous).Some? && KeptAbove(index, b.previous, logged) && Of(b) in index
    requires forkHead.block.previous == b.previous && lib <= Height(b)
    ensures Committable(index, Some(forkHead), logged, Height(b), lib)
  {
    hide Findable;
    forall n | logged < n <= lib ensures Findable(index, forkHead, n) {
      if n == Height(b) {
        AtTop(index, forkHead, b);
      } else {
        BelowTop(rules, index, forkHead, b, logged, n);
      }
    }
  }

  lemma AtTop(index: Index, forkHead: Item, b: Block)
    requires IndexOk(index) && ItemOk(index, Of(forkHead.block), forkHead)
    requires Of(b) in index && Height(forkHead.block) == Height(b)
    ensures Findable(index, forkHead, Height(b))
  {
    assert Of(b) in AtNumber(index, Height(b));
  }

  lemma BelowTop<S>(rules: Rules<S>, index: Index, forkHead: Item, b: Block, logged: nat, n: nat)
    requires IndexOk(index) && ItemOk(index, Of(forkHead.block), forkHead)
    requires TidyIndex(index) && TidyItem(index, forkHead)
    requires At(rules, b.previous).Some? && KeptAbove(index, b.previous, logged)
    requires forkHead.block.previous == b.previous && logged < n <= Num(b.previous)
    ensures Findable(index, forkHead, n)
  {
    var head := b.previous;
    AtBelow(rules, head, n);
    assert Ancestor(head, n) in AtNumber(index, n);
    assert Ancestor(head, Num(head)) == head;
    forall m | n < m <= Num(head) ensures Ancestor(head, m) in index && index[Ancestor(head, m)].linked {
      AtBelow(rules, head, m);
      AncestorTwice(head, m, m - 1);
    }
    WalkSucceeds(index, forkHead, n);
  }

  lemma NotMisfiled(index: Index, forkHead: Item, b: Block)
    requires forkHead.block == b
    ensures !Misfiled(index, forkHead, b)
  {
  }

  lemma StillStored(before: Index, after: Index, logged: nat, b: Block)
    requires Preserves(before, after, logged) && logged < Height(b)
    ensures Of(b) in before ==> Of(b) in after
  {
  }

  /** The branches of `tip` and of the head are stored down to a common ancestor at or above height `low`. */
  ghost predicate Walkable(index: Index, head: Id, tip: Id, low: nat)
  {
    exists h: nat :: low <= h && Meet(index, tip, head, h)
  }

  /** The highest common ancestor down to which both branches are stored is at height `h`. */
  ghost predicate Highest(index: Index, head: Id, tip: Id, h: nat)
  {
    Meet(index, tip, head, h) && forall k: nat :: Meet(index, tip, head, k) ==> k <= h
  }

  /** Branches that can be walked down to a common ancestor have a highest one. */
  lemma {:induction false} HighestExists(index: Index, head: Id, tip: Id, low: nat)
    requires Walkable(index, head, tip, low)
    ensures exists h: nat :: low <= h && Highest(index, head, tip, h)
    decreases Num(tip) - low
  {
    hide StoredDown, Ancestor;
    var h: nat :| low <= h && Meet(index, tip, head, h);
    if Walkable(index, head, tip, h + 1) {
      HighestExists(index, head, tip, h + 1);
    } else {
      assert Highest(index, head, tip, h);
    }
  }

  /** A branch that is higher than the other one by itself has its upper end linked, if links are in place. */
  lemma MeetLinks(index: Index, item: Item, head: Id, h: nat)
    requires Meet(index, Of(item.block), head, h) && Num(head) < Height(item.block) && TidyItem(index, item)
    ensures item.linked
  {
    assert Ancestor(Of(item.block), Height(item.block) - 1) in index;
    ParentOf(Of(item.block));
  }

  /** The block, and the fork database's head, are children of the chain's head. */
  predicate Extends(forkHead: Option<Item>, head: Id, b: Block)
  {
    forkHead.Some? && forkHead.value.block.previous == head && b.previous == head
  }

  /** An item the walk down from `from` has come to. */
  ghost predicate OnWay(index: Index, from: Item, item: Item)
  {
    || item == from
    || (&& Of(item.block) in index && item == index[Of(item.block)] && Height(item.block) < Height(from.block)
        && Of(item.block) == Ancestor(Of(from.block), Height(item.block)))
  }

  lemma OnWayHere(index: Index, item: Item)
    ensures OnWay(index, item, item)
  {
  }

  lemma ParentOf(id: Id)
    ensures Ancestor(id, Num(id)) == id
    ensures id.Of? ==> Ancestor(id, Num(id.block.previous)) == id.block.previous
  {
  }

  lemma OnWayNext(index: Index, from: Item, item: Item)
    requires IndexOk(index) && ItemOk(index, Of(item.block), item) && OnWay(index, from, item) && item.linked
    ensures OnWay(index, from, index[item.block.previous])
  {
    var below := index[item.block.previous];
    AncestorTwice(Of(from.block), Height(item.block), Height(below.block));
  }

  function Ids(branch: seq<Item>): (r: set<Id>)
    ensures forall id :: id in r <==> id.Of? && exists i :: 0 <= i < |branch| && branch[i].block == id.block
  {
    set i | 0 <= i < |branch| :: Of(branch[i].block)
  }

  /** An item the fork database's head was set to. */
  function Standing(index: Index, item: Item): Item
  {
    item.(linked := item.linked && item.block.previous in index)
  }

  /** The state of a node, as far as it decides what becomes of a block. */
  datatype View<S> = View(head: Id, data: S, log: seq<Block>, index: Index, forkHead: Option<Item>, maxSize: nat) {
    predicate OnChain(b: Block)
    {
      |log| < Height(b) <= Num(head) && Ancestor(head, Height(b)) == Of(b)
    }

    /** The fork database accepts the block. */
    predicate Taken(b: Block)
    {
      !TooOld(forkHead, maxSize, b) && (MustLink(forkHead, b) ==> b.previous in index)
    }

    /** The fork database's index and head once it has taken the block. */
    function TakenIndex(b: Block): Index
    {
      Inserted(index, b, MustLink(forkHead, b))
    }

    function TakenHead(b: Block): Option<Item>
    {
      if forkHead.None? || Height(b) > Height(forkHead.value.block) then Some(Item(b, MustLink(forkHead, b)))
      else forkHead
    }

    /** The fork database's head is higher than the chain, and not on top of it. */
    predicate Switches(b: Block)
    {
      && Taken(b)
      && var top := TakenHead(b).value.block; top.previous != head && Height(top) > Num(head)
    }

    /**
     A block of the chain is pushed once more while the fork database's head is a block that
     failed to extend the chain: the database takes the pushed block for the invalid one.
     */
    predicate Clobbers(b: Block)
    {
      OnChain(b) && Taken(b) && forkHead.Some? && forkHead.value.block.previous == head
    }

    /** The block extends the chain, and what becomes irreversible with it is found. */
    ghost predicate Accepts(rules: Rules<S>, b: Block)
    {
      && Taken(b) && Extends(TakenHead(b), head, b) && rules.exec(data, b).Some?
      && TakenOk(b)
      && Committable(TakenIndex(b), TakenHead(b), |log|, Height(b), rules.lib(rules.exec(data, b).value))
    }

    /**
     A valid block, which becomes irreversible at once, is pushed while the fork database's head is a
     sibling of it that failed, and a third block of that height is stored: the failed one is logged.
     */
    ghost predicate Misfiles(rules: Rules<S>, b: Block)
    {
      && Accepts(rules, b) && rules.lib(rules.exec(data, b).value) == Height(b)
      && Misfiled(TakenIndex(b), TakenHead(b).value, b)
    }

    ghost predicate TakenOk(b: Block)
    {
      var top := TakenHead(b).value;
      IndexOk(TakenIndex(b)) && ItemOk(TakenIndex(b), Of(top.block), top)
    }
  }

  /** None of the first `n` pushes of a run clobbers or misfiles a block. */
  ghost predicate Clean<S(!new)>(rules: Rules<S>, trace: seq<View<S>>, blocks: seq<Block>, n: nat)
    requires n <= |blocks| && n <= |trace|
  {
    forall i :: 0 <= i < n ==> !trace[i].Clobbers(blocks[i]) && !trace[i].Misfiles(rules, blocks[i])
  }

  /** None of them is the missing parent of a stored block. */
  ghost predicate Joined<S(!new)>(trace: seq<View<S>>, blocks: seq<Block>, n: nat)
    requires n <= |blocks| && n <= |trace|
  {
    forall i :: 0 <= i < n ==> !Rejoins(trace[i].index, trace[i].forkHead, blocks[i])
  }

  class Chain<S(!new)> {
    const rules: Rules<S>
    const fork: ForkDb
    var head: Id
    var data: S
    var undo: seq<Saved<S>>
    var log: seq<Block>

    // ----- invariants -----

    ghost predicate Valid()
      reads this, fork
    {
      Lawful(rules) && fork.Valid() && Undoable(rules, head, data, undo, |log|)
    }

    /** The log is the chain up to the highest irreversible block, and the rest is stored. */
    ghost predicate Good()
      reads this, fork
    {
      && log == Path(Ancestor(head, |log|))
      && KeptAbove(fork.index, head, |log|)
    }

    /** The fork database's head is a child of `id`. */
    predicate OnTop(id: Id)
      reads this, fork
    {
      fork.head.Some? && fork.head.value.block.previous == id
    }

    constructor (rules: Rules<S>)
      requires Lawful(rules)
      ensures Valid() && Good() && Tidy() && fresh(fork)
      ensures this.rules == rules && head == GENESIS_ID && data == rules.genesis && log == []
      ensures fork.index == map[] && fork.head == None
    {
      this.rules := rules;
      fork := new ForkDb();
      head, data, undo, log := GENESIS_ID, rules.genesis, [], [];
    }

    // ----- one block -----

    /** The checks of `migrate_irreversible_state`, and the blocks it is going to write. */
    method Irreversible(height: nat, lib: nat) returns (ok: bool, blocks: seq<Block>)
      requires fork.Valid()
      ensures ok <==> Committable(fork.index, fork.head, |log|, height, lib)
      ensures ok ==> |log| + |blocks| == if |log| < lib then lib else |log|
      ensures ok ==> forall i :: 0 <= i < |blocks| ==> Found(fork.index, fork.head, |log| + i + 1, blocks[i])
    {
      hide Found, Findable;
      ok, blocks := false, [];
      if fork.head.Some? && Height(fork.head.value.block) != height { return; }
      while |log| + |blocks| < lib
        invariant |log| + |blocks| <= if |log| < lib then lib else |log|
        invariant forall i :: 0 <= i < |blocks| ==> Found(fork.index, fork.head, |log| + i + 1, blocks[i])
        invariant blocks != [] ==> fork.head.Some?
        invariant fork.head.Some? ==>
                    forall n :: |log| < n <= |log| + |blocks| ==> Findable(fork.index, fork.head.value, n)
      {
        var found := fork.FetchMainBranch(|log| + |blocks| + 1);
        if found.None? { return; }
        IsFound(fork.index, fork.head, |log| + |blocks| + 1, found.value);
        blocks := blocks + [found.value.block];
      }
      ok := true;
    }

    /** `apply_block` in an undo session of its own. */
    method ApplyBlock(b: Block) returns (ok: bool)
      requires Valid()
      modifies this, fork
      ensures Valid()
      ensures ok <==> old(Applies(b))
      ensures !ok ==> unchanged(this) && unchanged(fork)
      ensures ok ==> Entered(old(data), old(head), old(log), old(fork.index), old(fork.head), b)
      ensures ok && old(Good() && Of(b) in fork.index && OnTop(head)) ==>
                (Good() <==> !(rules.lib(data) == Height(b) && Misfiled(old(fork.index), old(fork.head).value, b)))
    {
      hide Committable, Undoable, KeptAbove, IndexOk, ItemOk, Misfiled, Preserves, Found, Lawful;
      if b.previous != head { return false; }
      var next := rules.exec(data, b);
      if next.None? { return false; }
      var lib := rules.lib(next.value);
      var checked, blocks := Irreversible(Height(b), lib);
      if !checked { return false; }
      CommittableHeight(fork.index, fork.head, |log|, Height(b), lib);
      Enter(b, next.value, blocks);
      return true;
    }

    /** The block applies to the head, and what becomes irreversible with it can be written to the log. */
    ghost predicate Applies(b: Block)
      reads this, fork
      requires fork.Valid()
    {
      && b.previous == head && rules.exec(data, b).Some?
      && Committable(fork.index, fork.head, |log|, Height(b), rules.lib(rules.exec(data, b).value))
    }

    /** The state after a block has been applied, in terms of the state before. */
    ghost predicate Entered(data0: S, head0: Id, log0: seq<Block>, index0: Index, forkHead0: Option<Item>, b: Block)
      reads this, fork
    {
      && b.previous == head0 && head == Of(b) && rules.exec(data0, b) == Some(data)
      && log0 <= log && |log| == (if |log0| < rules.lib(data) then rules.lib(data) else |log0|)
      && rules.lib(data) <= Height(b) && |log| <= Height(b)
      && (forkHead0.Some? ==> Height(forkHead0.value.block) == Height(b))
      && fork.maxSize == Height(b) - rules.lib(data) + 1
      && fork.index == Erase(index0, PrunedIds(index0, forkHead0, fork.maxSize))
      && fork.head == RelinkedHead(forkHead0, PrunedIds(index0, forkHead0, fork.maxSize))
      && Preserves(index0, fork.index, |log|)
    }

    /** The new state, and the effects that are not undone: log, pruning and commit. */
    method Enter(b: Block, next: S, blocks: seq<Block>)
      requires Valid() && b.previous == head && rules.exec(data, b) == Some(next)
      requires fork.head.Some? ==> Height(fork.head.value.block) == Height(b)
      requires |log| + |blocks| == if |log| < rules.lib(next) then rules.lib(next) else |log|
      requires forall i :: 0 <= i < |blocks| ==> Found(fork.index, fork.head, |log| + i + 1, blocks[i])
      modifies this, fork
      ensures Valid() && Entered(old(data), old(head), old(log), old(fork.index), old(fork.head), b)
      ensures old(Good() && Of(b) in fork.index && OnTop(head)) ==>
                (Good() <==> !(rules.lib(data) == Height(b) && Misfiled(old(fork.index), old(fork.head).value, b)))
    {
      hide Undoable, Erase, KeptAbove, At, Ancestor, IndexOk, ItemOk, Preserves, Found, Lawful, Misfiled, Num;
      ghost var logged := |log|;
      ghost var was := fork.index;
      ghost var good := Good() && Of(b) in fork.index && OnTop(head);
      StateExtends(b, next, blocks);
      if good { LogFollows(b, rules.lib(next), blocks); }
      undo := undo + [Saved(head, data)];
      head, data := Of(b), next;
      log := log + blocks;
      ghost var gone := PrunedIds(fork.index, fork.head, Height(b) - rules.lib(next) + 1);
      fork.SetMaxSize(Height(b) - rules.lib(next) + 1);
      undo := undo[|blocks|..];
      PrunePreserves(was, gone, |log|);
      if good { KeptExtends(rules, was, fork.index, b, logged, |log|); }
    }

    lemma StateExtends(b: Block, next: S, blocks: seq<Block>)
      requires Valid() && b.previous == head && rules.exec(data, b) == Some(next)
      requires |log| + |blocks| == if |log| < rules.lib(next) then rules.lib(next) else |log|
      ensures Undoable(rules, Of(b), next, (undo + [Saved(head, data)])[|blocks|..], |log + blocks|)
      ensures |log| <= |log + blocks| <= Height(b) && rules.lib(next) <= |log + blocks| && |blocks| <= |undo| + 1
      ensures rules.lib(next) <= Height(b) && At(rules, head).Some?
    {
      hide SavedOk, IndexOk, ItemOk;
      UndoableExtend(rules, head, data, undo, |log|, b, next, |log + blocks|);
    }

    /** The log stays a prefix of the chain, unless something else is found in place of the block. */
    lemma LogFollows(b: Block, lib: nat, blocks: seq<Block>)
      requires Valid() && b.previous == head && lib <= Height(b) && Good() && OnTop(head) && Of(b) in fork.index
      requires Height(fork.head.value.block) == Height(b)
      requires |log| + |blocks| == if |log| < lib then lib else |log|
      requires forall i :: 0 <= i < |blocks| ==> Found(fork.index, fork.head, |log| + i + 1, blocks[i])
      ensures log + blocks == Path(Ancestor(Of(b), |log + blocks|)) <==>
              !(lib == Height(b) && Misfiled(fork.index, fork.head.value, b))
    {
      hide Found, KeptAbove, IndexOk, ItemOk, Path, Misfiled, Undoable, At;
      HasState();
      if |log + blocks| == Height(b) {
        LogReaches(rules, b, fork.index, fork.head, log, blocks);
        assert Ancestor(Of(b), Height(b)) == Of(b);
      } else {
        LogExtends(rules, head, fork.index, fork.head, log, blocks);
        assert Ancestor(Of(b), |log + blocks|) == Ancestor(head, |log + blocks|);
      }
    }

    /** Every link that could be in place is. */
    ghost predicate Tidy()
      reads this, fork
    {
      TidyIndex(fork.index) && (fork.head.Some? ==> TidyItem(fork.index, fork.head.value))
    }

    /** A child of the head that is valid can be applied, however much becomes irreversible with it. */
    lemma ValidApplies(b: Block)
      requires Valid() && Good() && Tidy() && OnTop(head) && Of(b) in fork.index && b.previous == head
      ensures Applies(b) <==> rules.exec(data, b).Some?
    {
      hide KeptAbove, TidyIndex, Committable, IndexOk, Undoable;
      HasState();
      if rules.exec(data, b).Some? {
        LookupsFind(rules, fork.index, fork.head.value, b, |log|, rules.lib(rules.exec(data, b).value));
      }
    }

    /** A block that replays without anything new becoming irreversible can be applied. */
    lemma ReplayApplies(b: Block, logged: nat)
      requires Valid() && Replays(b, logged) && logged <= |log| && b.previous == head
      requires fork.head.Some? ==> Height(fork.head.value.block) == Height(b)
      ensures Applies(b) && rules.lib(rules.exec(data, b).value) <= |log|
    {
      HasState();
    }

    lemma HasState()
      requires Valid()
      ensures At(rules, head) == Some(data) && |log| <= Num(head) && |undo| == Num(head) - |log|
    {
    }

    // ----- going back -----

    /** The block can be fetched, from the fork database or the log. */
    predicate Known(id: Id)
      reads this, fork
    {
      id in fork.index || (1 <= Num(id) <= |log| && Of(log[Num(id) - 1]) == id)
    }

    /** `pop_block`; undoing does nothing once every undo state is committed. */
    method PopBlock() returns (ok: bool)
      requires Valid()
      modifies this, fork`head
      ensures Valid() && log == old(log)
      ensures ok <==> old(Known(head) && fork.head.Some? && fork.head.value.linked)
      ensures ok ==> fork.head == Some(fork.index[old(fork.head).value.block.previous])
      ensures ok && old(undo) != [] ==> old(head).Of? && head == old(head).block.previous
      ensures !ok || old(undo) == [] ==> head == old(head)
      ensures !ok ==> unchanged(this) && unchanged(fork)
    {
      if !Known(head) { return false; }
      ok := fork.PopBlock();
      if ok && undo != [] {
        UndoableBack(rules, head, data, undo, |log|);
        var last := undo[|undo| - 1];
        head, data, undo := last.head, last.data, undo[..|undo| - 1];
      }
    }

    /** Undoing blocks will get to `target`. */
    ghost predicate CanReach(target: Id)
      reads this, fork
      requires fork.Valid()
    {
      fork.head.Some? && Reach(fork.index, |log|, head, fork.head.value, target)
    }

    /** One block popped, on the way to any block that can be reached. */
    method PopStep(ghost from: Item) returns (ok: bool)
      requires Valid() && (fork.head.Some? ==> OnWay(fork.index, from, fork.head.value))
      modifies this, fork`head
      ensures Valid() && log == old(log)
      ensures ok <==> old(Known(head) && fork.head.Some? && fork.head.value.linked)
      ensures !ok ==> unchanged(this) && unchanged(fork)
      ensures ok ==> fork.head.Some? && Height(fork.head.value.block) < Height(old(fork.head).value.block)
                     && OnWay(fork.index, from, fork.head.value)
      ensures Num(head) <= Num(old(head)) && head == Ancestor(old(head), Num(head))
      ensures forall t :: old(CanReach(t)) && old(head) != t ==> ok && CanReach(t)
      ensures ok && Num(old(head)) == |log| ==> head == old(head) && CanReach(head)
      ensures old(Tidy()) ==> Tidy()
    {
      hide Reach, Undoable, KeptAbove, IndexOk, OnWay, TidyIndex, Lawful, ItemOk, Known, Ancestor;
      HasState();
      ParentOf(head);
      forall t | CanReach(t) && head != t ensures StepsTo(t) { StepDown(t); }
      if fork.head.Some? { ParentTidy(from); }
      ok := PopBlock();
      HasState();
      if ok && Num(old(head)) == |log| { AtFloor(head); }
    }

    /** Undoing blocks until the head is `target`, or no further block can be popped. */
    method PopTo(target: Id) returns (ok: bool)
      requires Valid()
      modifies this, fork`head
      ensures Valid() && log == old(log)
      ensures Num(head) <= Num(old(head)) && head == Ancestor(old(head), Num(head))
      ensures ok <==> head == target
      ensures old(CanReach(target)) ==> ok
      ensures Num(target) < |log| && old(CanReach(Ancestor(head, |log|))) ==> !ok && Num(head) == |log|
      ensures fork.head.Some? == old(fork.head).Some?
      ensures fork.head.Some? ==> OnWay(fork.index, old(fork.head).value, fork.head.value)
      ensures !ok ==> !(Known(head) && fork.head.Some? && fork.head.value.linked)
      ensures old(Good()) ==> Good()
      ensures old(Tidy()) ==> Tidy()
    {
      hide CanReach, Undoable, KeptAbove, IndexOk, OnWay, Tidy, Lawful, ItemOk, Known, Ancestor, Path;
      ok := true;
      ghost var floor := Ancestor(head, |log|);
      FloorOf();
      HasState();
      if fork.head.Some? { OnWayHere(fork.index, fork.head.value); }
      while head != target
        invariant Valid() && log == old(log)
        invariant Num(head) <= Num(old(head)) && head == Ancestor(old(head), Num(head))
        invariant old(CanReach(target)) ==> CanReach(target)
        invariant old(CanReach(floor)) ==> CanReach(floor)
        invariant fork.head.Some? == old(fork.head).Some?
        invariant fork.head.Some? ==> OnWay(fork.index, old(fork.head).value, fork.head.value)
        invariant old(Tidy()) ==> Tidy()
        invariant ok
        decreases if fork.head.Some? then Height(fork.head.value.block) else 0
      {
        ghost var from := head;
        ok := PopStep(if fork.head.Some? then old(fork.head).value else Item(Block(head, 0), false));
        if !ok { break; }
        AncestorTwice(old(head), Num(from), Num(head));
      }
      HasState();
      if old(Good()) { GoodBelow(old(head)); }
    }

    lemma FloorOf()
      requires Valid()
      ensures Ancestor(head, Num(head)) == head && Num(Ancestor(head, |log|)) == |log|
    {
      AtBelow(rules, head, |log|);
    }

    /** One block further down can be popped, and `target` be reached from there. */
    ghost predicate StepsTo(target: Id)
      reads this, fork
      requires fork.Valid()
    {
      && fork.head.Some? && fork.head.value.linked && Known(head) && undo != [] && head.Of?
      && Reach(fork.index, |log|, head.block.previous, fork.index[fork.head.value.block.previous], target)
    }

    lemma StepDown(target: Id)
      requires Valid() && CanReach(target) && head != target
      ensures StepsTo(target)
    {
      ReachStep(fork.index, |log|, head, fork.head.value, target);
    }

    lemma AtFloor(floor: Id)
      requires Valid() && fork.head.Some? && head == floor && |log| <= Num(head)
      ensures CanReach(floor)
    {
      ReachHere(fork.index, |log|, head, fork.head.value);
    }

    lemma ParentTidy(from: Item)
      requires Valid() && fork.head.Some?
      ensures fork.head.value.linked ==>
                var below := fork.head.value.block.previous;
                && below in fork.index && Height(fork.index[below].block) < Height(fork.head.value.block)
                && (Tidy() ==> TidyItem(fork.index, fork.index[below]))
                && (OnWay(fork.index, from, fork.head.value) ==> OnWay(fork.index, from, fork.index[below]))
    {
      if fork.head.value.linked && OnWay(fork.index, from, fork.head.value) {
        OnWayNext(fork.index, from, fork.head.value);
      }
    }

    lemma GoodBelow(top: Id)
      requires Valid() && At(rules, top).Some? && Num(head) <= Num(top) && head == Ancestor(top, Num(head))
      requires log == Path(Ancestor(top, |log|)) && KeptAbove(fork.index, top, |log|)
      ensures Good()
    {
      AncestorTwice(top, Num(head), |log|);
      forall n | |log| < n <= Num(head) ensures Ancestor(head, n) in fork.index {
        AncestorTwice(top, Num(head), n);
      }
    }

    // ----- switching forks -----

    /** One block of a branch, with the fork database set to stand on it. */
    method ApplyItem(item: Item) returns (ok: bool)
      requires Valid() && item.block.previous == head
      modifies this, fork
      ensures Valid()
      ensures ok ==> head == Of(item.block) && old(log) <= log && |log| <= Num(head)
      ensures !ok ==> unchanged(this) && fork.index == old(fork.index) && fork.head == Some(Standing(fork.index, item))
      ensures ok ==> fork.head.Some? && fork.head.value.block == item.block
      ensures ok ==> Replays(item.block, |log|) && (|log| == |old(log)| || Raises(item.block, |log|))
      ensures fork.index.Keys <= old(fork.index).Keys && Preserves(old(fork.index), fork.index, |log|)
      ensures old(Good()) && Of(item.block) in old(fork.index) ==> Good()
      ensures old(Tidy()) && TidyItem(old(fork.index), item) ==> Tidy()
      ensures forall logged: nat :: logged <= |old(log)| && Replays(item.block, logged) ==> ok && log == old(log)
      ensures old(Good() && Tidy()) && Of(item.block) in old(fork.index) && TidyItem(old(fork.index), item) && !ok ==>
                At(rules, Of(item.block)).None?
    {
      hide Undoable, KeptAbove, IndexOk, ItemOk, TidyIndex, Committable, Lawful, Erase, Misfiled, Preserves, Path,
           Raises, Replays, Applies;
      HasState();
      fork.SetHead(item);
      ghost var index := fork.index;
      WhatApplies(item.block);
      ghost var stood := fork.head;
      ok := ApplyBlock(item.block);
      PreservesRefl(index, |log|);
      if ok {
        EntersTidy(index, stood, item.block);
        NotMisfiled(index, stood.value, item.block);
        AppliedReplays(item.block, |old(log)|);
      }
    }

    lemma AppliedReplays(b: Block, logged: nat)
      requires Valid() && head == Of(b) && |log| == if logged < rules.lib(data) then rules.lib(data) else logged
      ensures Replays(b, |log|) && (|log| == logged || Raises(b, |log|))
    {
    }

    /** With the fork database standing on a child of the head, the child applies if it is a replay, or valid. */
    lemma WhatApplies(b: Block)
      requires Valid() && b.previous == head && fork.head.Some? && fork.head.value.block == b
      ensures forall logged: nat :: logged <= |log| && Replays(b, logged) ==>
                                      Applies(b) && rules.lib(rules.exec(data, b).value) <= |log|
      ensures Good() && Tidy() && Of(b) in fork.index && !Applies(b) ==> At(rules, Of(b)).None?
    {
      hide Undoable, KeptAbove, IndexOk, ItemOk, TidyIndex, Committable, Lawful, Path;
      forall logged: nat | logged <= |log| && Replays(b, logged)
        ensures Applies(b) && rules.lib(rules.exec(data, b).value) <= |log|
      {
        ReplayApplies(b, logged);
      }
      if Good() && Tidy() && Of(b) in fork.index {
        ValidApplies(b);
        if rules.exec(data, b).None? { Fails(b); }
      }
    }

    lemma Fails(b: Block)
      requires Valid() && b.previous == head && rules.exec(data, b).None?
      ensures At(rules, Of(b)).None?
    {
    }

    /** Pruning keeps links that could be in place, in place. */
    lemma EntersTidy(index0: Index, forkHead0: Option<Item>, b: Block)
      requires fork.index == Erase(index0, PrunedIds(index0, forkHead0, fork.maxSize))
      requires fork.head == RelinkedHead(forkHead0, PrunedIds(index0, forkHead0, fork.maxSize))
      ensures TidyIndex(index0) && (forkHead0.Some? ==> TidyItem(index0, forkHead0.value)) ==> Tidy()
      ensures fork.index.Keys <= index0.Keys
    {
      if TidyIndex(index0) && (forkHead0.Some? ==> TidyItem(index0, forkHead0.value)) {
        EraseTidy(index0, PrunedIds(index0, forkHead0, fork.maxSize));
        if forkHead0.Some? { RelinkedTidy(index0, forkHead0.value, PrunedIds(index0, forkHead0, fork.maxSize)); }
      }
    }

    /** Applying a branch from its lowest block up; `left` blocks are not applied. */
    method ApplyBranch(ghost tip: Id, branch: seq<Item>) returns (left: nat)
      requires Valid() && branch != [] && Above(tip, branch, head)
      modifies this, fork
      ensures Valid() && left <= |branch|
      ensures head == Ancestor(tip, Num(tip) - left)
      ensures old(log) <= log && |log| <= Num(head)
      ensures fork.head.Some? && fork.index.Keys <= old(fork.index).Keys
      ensures Preserves(old(fork.index), fork.index, |log|)
      ensures left == 0 ==> fork.head.value.block == branch[0].block
      ensures left > 0 ==> fork.head == Some(Standing(fork.index, branch[left - 1]))
      ensures old(Good() && StoredAll(fork.index, branch)) ==> Good()
      ensures old(Tidy() && TidyItems(fork.index, branch)) ==> Tidy()
      ensures Replays(branch[|branch| - 1].block, |old(log)|) ==> left < |branch|
      ensures (forall i :: 0 <= i < |branch| ==> Replays(branch[i].block, |old(log)|)) ==> left == 0 && log == old(log)
      ensures Raised(branch, left, |old(log)|, |log|)
      ensures old(Good() && StoredAll(fork.index, branch) && Tidy() && TidyItems(fork.index, branch)) && left > 0 ==>
                At(rules, Of(branch[left - 1].block)).None?
    {
      hide Undoable, Above, Preserves, KeptAbove, Lawful, IndexOk, ItemOk, TidyIndex, TidyItem, Ancestor, Path, At,
           Standing, Raised, Replays, Raises;
      left := |branch|;
      RaisedNone(branch, |log|);
      HasState();
      PreservesRefl(fork.index, |log|);
      while left > 0
        invariant Valid() && left <= |branch|
        invariant head == if left == |branch| then old(head) else Of(branch[left].block)
        invariant old(log) <= log && |log| <= Num(head)
        invariant fork.index.Keys <= old(fork.index).Keys
        invariant Preserves(old(fork.index), fork.index, |log|)
        invariant left < |branch| ==> fork.head.Some? && fork.head.value.block == branch[left].block
        invariant old(Good() && StoredAll(fork.index, branch)) ==> Good()
        invariant old(Tidy() && TidyItems(fork.index, branch)) ==> Tidy()
        invariant (forall i :: 0 <= i < |branch| ==> Replays(branch[i].block, |old(log)|)) ==> log == old(log)
        invariant Raised(branch, left, |old(log)|, |log|)
      {
        var item := branch[left - 1];
        AboveNext(tip, branch, old(head), left - 1);
        StillStored(old(fork.index), fork.index, |log|, item.block);
        if TidyItem(old(fork.index), item) { ShrunkTidy(old(fork.index), fork.index, item); }
        ghost var was, h := fork.index, |log|;
        var ok := ApplyItem(item);
        PreservesTwice(old(fork.index), was, fork.index, h, |log|);
        if !ok { break; }
        RaisedNext(branch, left, |old(log)|, h, |log|);
        left := left - 1;
      }
      AboveAt(tip, branch, old(head), left);
    }

    /** Replaying the block succeeds, and makes nothing irreversible beyond `logged`. */
    ghost predicate Replays(b: Block, logged: nat)
    {
      At(rules, Of(b)).Some? && rules.lib(At(rules, Of(b)).value) <= logged
    }

    /** Replaying the block makes everything up to height `logged` irreversible. */
    ghost predicate Raises(b: Block, logged: nat)
    {
      At(rules, Of(b)).Some? && rules.lib(At(rules, Of(b)).value) == logged
    }

    /** Replaying a branch down to position `left` extends a log of `before` blocks to `after`. */
    ghost predicate Raised(branch: seq<Item>, left: nat, before: nat, after: nat)
    {
      && left <= |branch| && before <= after
      && (forall i :: left <= i < |branch| ==> Replays(branch[i].block, after))
      && (before == after || exists i :: left <= i < |branch| && Raises(branch[i].block, after))
    }

    lemma RaisedNone(branch: seq<Item>, logged: nat)
      ensures Raised(branch, |branch|, logged, logged)
    {
    }

    lemma RaisedNext(branch: seq<Item>, left: nat, before: nat, now: nat, after: nat)
      requires Raised(branch, left, before, now) && left > 0 && now <= after && Replays(branch[left - 1].block, after)
      requires now == after || Raises(branch[left - 1].block, after)
      ensures Raised(branch, left - 1, before, after)
    {
    }

    lemma IdsNone(branch: seq<Item>, index: Index)
      ensures Ids(branch[|branch|..]) == {} && Erase(index, {}) == index
    {
    }

    lemma IdsNext(branch: seq<Item>, i: nat)
      requires i < |branch|
      ensures Ids(branch[i..]) == Ids(branch[i + 1..]) + {Of(branch[i].block)}
    {
    }

    /** Removing a block that does not apply, and everything above it on its branch. */
    method RemoveBranch(branch: seq<Item>)
      requires Valid()
      modifies fork`index, fork`head
      ensures Valid()
      ensures fork.index == Erase(old(fork.index), Ids(branch))
      ensures fork.head == RelinkedHead(old(fork.head), Ids(branch))
    {
      hide Undoable, Lawful, Ids, Erase, IndexOk, ItemOk;
      IdsNone(branch, fork.index);
      var i := |branch|;
      while i > 0
        invariant 0 <= i <= |branch| && fork.Valid()
        invariant fork.index == Erase(old(fork.index), Ids(branch[i..]))
        invariant fork.head == RelinkedHead(old(fork.head), Ids(branch[i..]))
      {
        i := i - 1;
        EraseTwice(old(fork.index), Ids(branch[i + 1..]), {Of(branch[i].block)});
        IdsNext(branch, i);
        fork.Remove(Of(branch[i].block));
      }
      assert branch[0..] == branch;
    }

    /** The blocks of the chain above the log replay without making anything irreversible. */
    lemma ChainReplays(ss: seq<Item>, target: Id)
      requires Valid() && Above(head, ss, target) && |log| <= Num(head) - |ss|
      ensures forall i :: 0 <= i < |ss| ==> Replays(ss[i].block, |log|)
    {
      forall i | 0 <= i < |ss| ensures Replays(ss[i].block, |log|) {
        AboveNext(head, ss, target, i);
        if i > 0 { assert SavedOk(rules, head, undo[|undo| - i], |log|, |undo| - i); }
        else { assert Ancestor(head, Num(head)) == head; }
      }
    }

    /** Removing blocks above the head does not touch the chain. */
    lemma GoodWithout(branch: seq<Item>, before: Index)
      requires Valid() && fork.index == Erase(before, Ids(branch)) && KeptAbove(before, head, |log|)
      requires log == Path(Ancestor(head, |log|))
      requires forall i :: 0 <= i < |branch| ==> Height(branch[i].block) > Num(head)
      ensures Good()
    {
      forall n | |log| < n <= Num(head) ensures Ancestor(head, n) in fork.index {
        AtBelow(rules, head, n);
      }
    }

    /**
     How a switch ends. The branches have to be stored down to a common ancestor. With the fork point
     below the committed block, undoing stops at that block; otherwise it gets to the fork point, and
     the switch is stranded only if blocks of the new branch have become irreversible before a later one
     failed.
     */
    ghost predicate SwitchEnds(head0: Id, log0: seq<Block>, index0: Index, item0: Item, size0: nat, r: Pushed)
      reads this, fork
    {
      var tip := Of(item0.block);
      && (r.Unwalkable? <==> !Walkable(index0, head0, tip, 0))
      && (r.Switched? ==> head == tip)
      && (r.Reverted? ==> Removed(index0, tip, r.bad))
      && (r.Stranded? ==> r.forkPoint == Ancestor(head0, Num(r.forkPoint)) == Ancestor(tip, Num(r.forkPoint)))
      && (item0.linked && r.Stranded? ==> Num(r.forkPoint) < |log| == Num(head))
      && (item0.linked && r.Stranded? && Walkable(index0, head0, tip, |log0|) ==>
            |log0| <= Num(r.forkPoint) && head == Ancestor(tip, |log|))
      && (item0.linked && Walkable(index0, head0, tip, 0) && !Walkable(index0, head0, tip, |log0|) ==>
            r.Stranded? && StopsAt(head0, log0, index0, item0, size0))
    }

    /** The block is the lowest of its branch that was not applied; it is gone with all above it, and nothing else. */
    ghost predicate Removed(index0: Index, tip: Id, bad: Block)
      reads this, fork
    {
      && Of(bad) == Ancestor(tip, Height(bad)) && Height(bad) <= Num(tip) && At(rules, bad.previous).Some?
      && Lost(index0, fork.index, tip, Height(bad), |log|) && Gone(fork.index, tip, Height(bad))
    }

    /**
     How a switch to a branch that meets the chain at height `h` ends, told from the state before. It is made if
     and only if the branch is valid. A failed one is undone if and only if the valid blocks of the branch make
     nothing above `h` irreversible; otherwise the node is left on the highest block they do.
     */
    ghost predicate Decided(tip: Id, h: nat, logged: nat, index0: Index, r: Pushed)
      reads this, fork
    {
      && (r.Switched? <==> At(rules, tip).Some?)
      && (r.Stranded? <==> At(rules, tip).None? && Commits(rules, tip, h))
      && (r.Reverted? <==> At(rules, tip).None? && !Commits(rules, tip, h))
      && Committed(rules, tip, h, logged, |log|)
      && (r.Reverted? ==> At(rules, Of(r.bad)).None?)
      && (r.Stranded? ==> r.forkPoint == Ancestor(tip, h) && head == Ancestor(tip, |log|))
      && (!r.Switched? ==> Weeded(rules, index0, fork.index, tip, h, |log|))
    }

    /** Everything above the committed block is undone, and the fork database stands on an item without a link. */
    ghost predicate StopsAt(head0: Id, log0: seq<Block>, index0: Index, item0: Item, size0: nat)
      reads this, fork
    {
      && log == log0 && head == Ancestor(head0, |log0|) && undo == []
      && fork.index == index0 && fork.maxSize == size0
      && fork.head.Some? && OnWay(index0, item0, fork.head.value) && (fork.head.value.linked ==> !Known(head))
    }

    /** `newHead` is the head of the fork database, higher than the chain and not on top of it. */
    method SwitchTo(newHead: Block) returns (r: Pushed)
      requires Valid() && fork.head.Some? && fork.head.value.block == newHead
      requires Height(newHead) > Num(head) && newHead.previous != head
      modifies this, fork
      ensures Valid() && old(log) <= log
      ensures old(Good()) ==> Good()
      ensures old(Tidy()) ==> Tidy()
      ensures r.Unwalkable? || r.Switched? || r.Reverted? || r.Stranded?
      ensures SwitchEnds(old(head), old(log), old(fork.index), old(fork.head).value, old(fork.maxSize), r)
      ensures r.Unwalkable? ==> unchanged(this) && unchanged(fork)
      ensures r.Switched? ==> head == Of(newHead) && fork.head.Some? && fork.head.value.block == newHead
      ensures r.Reverted? ==>
                head == old(head) && data == old(data) && fork.head.Some? && Of(fork.head.value.block) == head
      ensures r.Reverted? && old(Good() && Tidy()) ==> At(rules, Of(r.bad)).None?
      ensures old(Good() && Tidy()) ==>
                forall h: nat :: |old(log)| <= h && Highest(old(fork.index), old(head), Of(newHead), h) ==>
                                   Decided(Of(newHead), h, |old(log)|, old(fork.index), r)
    {
      hide Undoable, KeptAbove, Removed, Ancestor, At, Meet, TidyIndex, IndexOk, OnWay, Known, Lawful, Fork, Apart,
           Path, StopsAt, Decided;
      var tip := Of(newHead);
      var branches := fork.FetchBranchFrom(tip, head);
      if branches.None? { return Unwalkable; }
      var (fs, ss) := branches.value;
      ghost var h := Num(tip) - |fs|;
      assert Meet(fork.index, tip, head, h);
      assert Walkable(fork.index, head, tip, |log|) <==> |log| <= h by {
        if |log| <= h { assert |log| <= h && Meet(fork.index, tip, head, h); }
      }
      if Tidy() { MeetLinks(fork.index, fork.head.value, head, h); }
      r := SwitchAlong(tip, fs, ss);
      HasState();
    }

    /** Along branches that have been found: back to where they fork, and up the new one. */
    method SwitchAlong(ghost tip: Id, fs: seq<Item>, ss: seq<Item>) returns (r: Pushed)
      requires Valid() && fork.head.Some? && Of(fork.head.value.block) == tip
      requires Fork(fork.index, tip, head, fs, ss) && Apart(fs, ss) && Num(tip) > Num(head)
      modifies this, fork
      ensures Valid() && old(log) <= log
      ensures old(Good()) ==> Good()
      ensures old(Tidy()) ==> Tidy()
      ensures r.Switched? || r.Reverted? || r.Stranded?
      ensures r.Switched? ==> head == tip && fork.head.Some? && Of(fork.head.value.block) == tip
      ensures r.Reverted? ==> && head == old(head) && data == old(data)
                              && fork.head.Some? && Of(fork.head.value.block) == head
                              && Removed(old(fork.index), tip, r.bad)
      ensures r.Reverted? && old(Good() && Tidy()) ==> At(rules, Of(r.bad)).None?
      ensures old(Good() && Tidy() && fork.head.value.linked) && |old(log)| <= Num(tip) - |fs| ==>
                Decided(tip, Num(tip) - |fs|, |old(log)|, old(fork.index), r)
      ensures r.Stranded? ==> && Num(r.forkPoint) == Num(tip) - |fs|
                              && r.forkPoint == Ancestor(old(head), Num(r.forkPoint)) == Ancestor(tip, Num(r.forkPoint))
      ensures r.Stranded? && old(fork.head).value.linked && |old(log)| <= Num(tip) - |fs| ==>
                Num(r.forkPoint) < |log| == Num(head) && head == Ancestor(tip, |log|)
      ensures old(fork.head).value.linked && Num(tip) - |fs| < |old(log)| ==>
                && r.Stranded? && |log| == Num(head)
                && StopsAt(old(head), old(log), old(fork.index), old(fork.head).value, old(fork.maxSize))
    {
      hide Reach, Undoable, KeptAbove, Ancestor, At, IsBranch, TidyIndex, IndexOk, OnWay, Known, Lawful, Fork, Apart,
           Branches, Removed, Decided, Path;
      ghost var before := fork.index;
      ghost var home := head;
      HasState();
      BranchFacts(before, tip, head, fs, ss);
      var target := ss[|ss| - 1].block.previous;
      TargetFacts(before, tip, head, fs, ss, target);
      if fork.head.value.linked {
        if |log| <= Num(target) { FirstReach(fork.index, |log|, head, fork.head.value, tip, fs, ss); }
        else { FirstSink(fork.index, |log|, head, fork.head.value, tip, fs, ss); }
      }
      if |log| <= Num(target) { HomeReplays(before, tip, fs, ss, target); }
      var ok := PopTo(target);
      HasState();
      if !ok { return Stranded(target); }
      r := Cross(tip, fs, home, ss, target);
      HasState();
    }

    lemma HomeReplays(index: Index, tip: Id, fs: seq<Item>, ss: seq<Item>, target: Id)
      requires Valid() && Branches(index, tip, head, fs, ss, target) && |log| <= Num(target)
      ensures forall i :: 0 <= i < |ss| ==> Replays(ss[i].block, |log|)
    {
      ChainReplays(ss, target);
    }

    /** From the fork point up the new branch, and back if it fails. */
    method Cross(ghost tip: Id, fs: seq<Item>, ghost home: Id, ss: seq<Item>, target: Id) returns (r: Pushed)
      requires Valid() && head == target && Branches(fork.index, tip, home, fs, ss, target)
      requires forall i :: 0 <= i < |ss| ==> Replays(ss[i].block, |log|)
      modifies this, fork
      ensures Valid() && old(log) <= log
      ensures old(Good()) ==> Good()
      ensures old(Tidy()) ==> Tidy()
      ensures r.Switched? || r.Reverted? || r == Stranded(target)
      ensures r.Switched? ==> head == tip && fork.head.Some? && Of(fork.head.value.block) == tip
      ensures r.Reverted? ==> && head == home && fork.head.Some? && Of(fork.head.value.block) == head
                              && Removed(old(fork.index), tip, r.bad)
      ensures r.Reverted? && old(Good() && Tidy()) ==> At(rules, Of(r.bad)).None?
      ensures old(Good() && Tidy()) ==> Decided(tip, Num(target), |old(log)|, old(fork.index), r)
      ensures r.Stranded? ==> Num(target) < |log| == Num(head) && head == Ancestor(tip, |log|)
    {
      hide Undoable, KeptAbove, Ancestor, At, TidyIndex, IndexOk, Lawful, Above, StoredFrom, StoredAll, Preserves, Lost,
           Path, Apart, TidyItems, Standing, Disjoint;
      ghost var before := fork.index;
      if Tidy() {
        StoredTidy(before, fs);
        StoredTidy(before, ss);
      }
      AboveEnds(tip, fs, target);
      AboveEnds(home, ss, target);
      ghost var logged := |log|;
      HasState();
      var left := ApplyBranch(tip, fs);
      HasState();
      CommittedBranch(tip, fs, target, left, logged, |log|);
      if left == 0 { return Switched; }
      AboveNext(tip, fs, target, left - 1);
      forall i | 0 <= i < |ss| ensures Replays(ss[i].block, |log|) { assert Replays(ss[i].block, logged); }
      SharedHead(fs, ss, left, logged);
      ApartRest(fs, ss, left);
      r := Revert(tip, fs, home, ss, target, left, before);
      if old(Good() && Tidy()) { FailedDecided(tip, fs[left - 1].block, target, logged, before, r); }
    }

    /** What applying a branch commits, if the block it stopped at is invalid. */
    lemma CommittedBranch(tip: Id, fs: seq<Item>, base: Id, left: nat, before: nat, after: nat)
      requires Above(tip, fs, base) && Num(base) == Num(tip) - |fs| && Raised(fs, left, before, after)
      requires At(rules, Ancestor(tip, Num(tip) - left)).Some?
      ensures left == 0 || At(rules, Of(fs[left - 1].block)).None? ==>
                Committed(rules, tip, Num(base), before, after)
    {
      hide Ancestor, At, Above, LibAt, Num, Replays;
      if left == 0 || At(rules, Of(fs[left - 1].block)).None? {
        forall m: nat, lib: nat | Num(base) < m <= Num(tip) && LibAt(rules, tip, m, lib) ensures lib <= after {
          AppliedWithin(tip, fs, base, left, m, lib, after);
        }
        if before < after {
          var i :| left <= i < |fs| && Raises(fs[i].block, after);
          RaisesLib(tip, fs, base, i, after);
        }
      }
    }

    lemma RaisesLib(tip: Id, fs: seq<Item>, base: Id, i: nat, lib: nat)
      requires Above(tip, fs, base) && i < |fs| && Raises(fs[i].block, lib)
      ensures LibAt(rules, tip, Num(tip) - i, lib)
    {
      AboveNext(tip, fs, base, i);
    }

    lemma AppliedWithin(tip: Id, fs: seq<Item>, base: Id, left: nat, m: nat, lib: nat, after: nat)
      requires Above(tip, fs, base) && Num(base) == Num(tip) - |fs| && left <= |fs|
      requires forall i :: left <= i < |fs| ==> Replays(fs[i].block, after)
      requires At(rules, Ancestor(tip, Num(tip) - left)).Some?
      requires left == 0 || At(rules, Of(fs[left - 1].block)).None?
      requires Num(base) < m <= Num(tip) && LibAt(rules, tip, m, lib)
      ensures lib <= after
    {
      hide Ancestor, At, Above;
      var i := Num(tip) - m;
      AboveNext(tip, fs, base, i);
      if i < left {
        AboveNext(tip, fs, base, left - 1);
        ValidUpTo(rules, tip, Num(tip) - left + 1, m);
      }
      assert Replays(fs[i].block, after);
    }

    /** A switch that failed at an invalid block. */
    lemma FailedDecided(tip: Id, bad: Block, target: Id, logged: nat, before: Index, r: Pushed)
      requires Removed(before, tip, bad) && At(rules, Of(bad)).None? && Num(target) < Height(bad)
      requires logged <= Num(target) && target == Ancestor(tip, Num(target))
      requires Committed(rules, tip, Num(target), logged, |log|)
      requires r == if |log| <= Num(target) then Reverted(bad) else Stranded(target)
      requires r.Stranded? ==> head == Ancestor(tip, |log|)
      ensures Decided(tip, Num(target), logged, before, r)
    {
      hide Committed, Commits, Lost, Gone, Weeded;
      CommitsAbove(rules, tip, Num(target), logged, |log|);
      BadPrevious(tip, bad);
      WeedsInvalid(rules, before, fork.index, tip, Num(target), Height(bad), |log|);
      ValidUpTo(rules, tip, Height(bad), Num(tip));
    }

    lemma BadPrevious(tip: Id, bad: Block)
      requires Of(bad) == Ancestor(tip, Height(bad)) && Height(bad) <= Num(tip)
      ensures bad.previous == Ancestor(tip, Height(bad) - 1) && Height(bad) > 0 && Ancestor(tip, Num(tip)) == tip
    {
      AncestorTwice(tip, Height(bad), Height(bad) - 1);
    }

    /** If the new branch starts with the chain's head, that block applies. */
    lemma SharedHead(fs: seq<Item>, ss: seq<Item>, left: nat, logged: nat)
      requires fs != [] && ss != [] && Replays(ss[|ss| - 1].block, logged)
      requires Replays(fs[|fs| - 1].block, logged) ==> left < |fs|
      ensures fs[|fs| - 1].block == ss[|ss| - 1].block ==> left < |fs|
    {
    }

    /** Back from a branch that failed to the branch that was the chain before. */
    method Revert(ghost tip: Id, fs: seq<Item>, ghost home: Id, ss: seq<Item>, target: Id, left: nat,
                  ghost before: Index)
      returns (r: Pushed)
      requires Valid() && ss != [] && 0 < left <= |fs|
      requires Above(tip, fs, target) && Above(home, ss, target)
      requires Num(target) == Num(tip) - |fs| == Num(home) - |ss|
      requires StoredFrom(before, fs, 0) && StoredFrom(before, ss, 0) && Preserves(before, fork.index, |log|)
      requires fork.index.Keys <= before.Keys
      requires head == Ancestor(tip, Num(tip) - left) && fork.head == Some(Standing(fork.index, fs[left - 1]))
      requires forall i :: 0 <= i < |ss| ==> Replays(ss[i].block, |log|)
      requires Disjoint(fs[..left], ss)
      modifies this, fork
      ensures Valid() && old(log) <= log
      ensures old(Good()) ==> Good()
      ensures old(Tidy()) && TidyItems(before, ss) ==> Tidy()
      ensures log == old(log)
      ensures r == if |log| <= Num(target) then Reverted(fs[left - 1].block) else Stranded(target)
      ensures r.Stranded? ==> |log| == Num(head) && head == Ancestor(tip, |log|)
      ensures r.Reverted? ==> head == home && fork.head.Some? && fork.head.value.block == ss[0].block
      ensures Removed(before, tip, fs[left - 1].block)
    {
      hide Above, StoredFrom, Preserves, KeptAbove, Undoable, Erase, Lost, Disjoint, StoredAll, Ids, IndexOk, Num,
           TidyIndex, TidyItems, Lawful, At;
      ghost var applied, h := fork.index, |log|;
      HasState();
      AboveNext(tip, fs, target, left - 1);
      AboveAt(tip, fs, target, left);
      var ok := Unwind(tip, fs, target, left, before);
      HasState();
      ghost var removed := fork.index;
      PreservesRefl(removed, |log|);
      if ok {
        HomeStored(before, applied, home, ss, target, fs[..left], |log|);
        if TidyItems(before, ss) { ShrunkItems(before, fork.index, ss); }
        var rest := ApplyBranch(home, ss);
      }
      LostOnly(before, applied, fork.index, tip, fs, target, left, h, |log|);
      RemovedGone(applied, fork.index, tip, fs, target, left);
      return if ok then Reverted(fs[left - 1].block) else Stranded(target);
    }

    /** The failed block and the rest of its branch are removed, and what was applied is undone. */
    method Unwind(ghost tip: Id, fs: seq<Item>, target: Id, left: nat, ghost before: Index) returns (ok: bool)
      requires Valid() && 0 < left <= |fs|
      requires Above(tip, fs, target) && Num(target) == Num(tip) - |fs|
      requires StoredFrom(before, fs, 0) && Preserves(before, fork.index, |log|)
      requires head == Ancestor(tip, Num(tip) - left) && fork.head == Some(Standing(fork.index, fs[left - 1]))
      modifies this, fork`index, fork`head
      ensures Valid() && log == old(log)
      ensures fork.index == Erase(old(fork.index), Ids(fs[..left]))
      ensures old(Good()) ==> Good()
      ensures old(Tidy()) ==> Tidy()
      ensures if ok then head == target else Num(target) < |log| == Num(head) && head == Ancestor(tip, |log|)
    {
      hide Above, StoredFrom, Preserves, KeptAbove, Undoable, Erase, Reach, Ids, IndexOk, TidyIndex, OnWay, Lawful,
           Ancestor, Standing, At;
      ghost var applied := fork.index;
      HasState();
      RemoveBranch(fs[..left]);
      if old(Tidy()) { RemovedTidy(applied, old(fork.head), Ids(fs[..left])); }
      RestHigher(tip, fs, target, left);
      if old(Good()) { GoodWithout(fs[..left], applied); }
      if |log| <= Num(target) {
        RemovedRest(before, applied, tip, fs, target, left, |log|);
        StandingLinked(before, applied, tip, fs, target, left, |log|);
        SecondReach(fork.index, |log|, tip, fs, target, left, fork.head.value);
      } else {
        SecondSink(before, applied, |log|, tip, fs, target, left);
      }
      AncestorTwice(tip, Num(tip) - left, |log|);
      ok := PopTo(target);
    }

    lemma RemovedTidy(index0: Index, forkHead0: Option<Item>, gone: set<Id>)
      requires fork.index == Erase(index0, gone) && fork.head == RelinkedHead(forkHead0, gone)
      requires TidyIndex(index0) && (forkHead0.Some? ==> TidyItem(index0, forkHead0.value))
      ensures Tidy()
    {
      EraseTidy(index0, gone);
      if forkHead0.Some? { RelinkedTidy(index0, forkHead0.value, gone); }
    }

    // ----- the node's interface -----

    /** What decides the fate of a block. */
    function Now(): View<S>
      reads this, fork
    {
      View(head, data, log, fork.index, fork.head, fork.maxSize)
    }

    predicate OnChain(b: Block)
      reads this, fork
    {
      Now().OnChain(b)
    }

    predicate Taken(b: Block)
      reads this, fork
    {
      Now().Taken(b)
    }

    function TakenIndex(b: Block): Index
      reads this, fork
    {
      Now().TakenIndex(b)
    }

    function TakenHead(b: Block): Option<Item>
      reads this, fork
    {
      Now().TakenHead(b)
    }

    predicate Switches(b: Block)
      reads this, fork
    {
      Now().Switches(b)
    }

    predicate Clobbers(b: Block)
      reads this, fork
    {
      Now().Clobbers(b)
    }

    ghost predicate Accepts(b: Block)
      reads this, fork
    {
      Now().Accepts(rules, b)
    }

    ghost predicate Misfiles(b: Block)
      reads this, fork
    {
      Now().Misfiles(rules, b)
    }

    /** A block that is on the chain already can only be lost while the fork database's head is a child of the head. */
    lemma ClobberTop(b: Block)
      requires Taken(b)
      ensures OnChain(b) ==> (TakenHead(b).value.block.previous == head <==> OnTop(head))
      ensures Clobbers(b) <==> OnChain(b) && TakenHead(b).value.block.previous == head
    {
    }

    lemma GoodTaken(before: Index)
      requires log == Path(Ancestor(head, |log|)) && KeptAbove(before, head, |log|) && before.Keys <= fork.index.Keys
      ensures Good()
    {
    }

    lemma GoodRemoved(b: Block, before: Index)
      requires log == Path(Ancestor(head, |log|)) && KeptAbove(before, head, |log|)
      requires fork.index == Erase(before, {Of(b)}) && At(rules, head).Some?
      ensures Good() <==> !OnChain(b)
    {
      forall n | |log| < n <= Num(head) ensures Ancestor(head, n) in fork.index || Ancestor(head, n) == Of(b) {
        AtBelow(rules, head, n);
      }
      if OnChain(b) { assert Ancestor(head, Height(b)) !in fork.index; }
      if !OnChain(b) && !Good() {
        var n :| |log| < n <= Num(head) && Ancestor(head, n) !in fork.index;
        AtBelow(rules, head, n);
      }
    }

    /** The block is applied on top of the chain, or removed. */
    method Extend(b: Block) returns (r: Pushed)
      requires Valid() && OnTop(head)
      modifies this, fork
      ensures Valid() && (r.Extended? || r.BadBlock?)
      ensures r.Extended? <==> old(Applies(b))
      ensures r.Extended? ==> Entered(old(data), old(head), old(log), old(fork.index), old(fork.head), b)
      ensures r.BadBlock? ==> && unchanged(this) && fork.index == Erase(old(fork.index), {Of(b)})
                              && fork.head == RelinkedHead(old(fork.head), {Of(b)}) && fork.maxSize == old(fork.maxSize)
      ensures r.Extended? && old(Good() && Of(b) in fork.index) ==>
                (Good() <==> !(rules.lib(data) == Height(b) && Misfiled(old(fork.index), old(fork.head).value, b)))
      ensures r.BadBlock? && old(Good()) ==> (Good() <==> !OnChain(b))
      ensures old(Tidy()) ==> Tidy()
    {
      hide Undoable, KeptAbove, Ancestor, At, IndexOk, ItemOk, Lawful, Committable, Misfiled, TidyIndex, Erase,
           Preserves;
      ghost var index, stood := fork.index, fork.head;
      assert At(rules, head).Some? by { HasState(); }
      var applied := ApplyBlock(b);
      if applied {
        EntersTidy(index, stood, b);
        return Extended;
      }
      fork.Remove(Of(b));
      if old(Tidy()) { RemovedTidy(index, stood, {Of(b)}); }
      if old(Good()) { GoodRemoved(b, index); }
      return BadBlock;
    }

    /** The block is taken for the head of the fork database that it is not, or logged in place of another. */
    ghost predicate Spoils(b: Block)
      reads this, fork
      requires fork.Valid() && fork.head.Some?
    {
      && OnTop(head)
      && (OnChain(b) || (Applies(b) && rules.lib(rules.exec(data, b).value) == Height(b)
                         && Misfiled(fork.index, fork.head.value, b)))
    }

    /** What is done with a block that the fork database has taken. */
    method PushTaken(b: Block) returns (r: Pushed)
      requires Valid() && fork.head.Some? && Of(b) in fork.index
      modifies this, fork
      ensures Valid() && old(log) <= log && !r.Refused?
      ensures old(Good()) ==> (Good() <==> !old(Spoils(b)))
      ensures old(Tidy()) ==> Tidy()
      ensures r.BadBlock? || r.Waiting? || r.Unwalkable? || r.Reverted? ==> head == old(head) && data == old(data)
      ensures r.Waiting? ==> unchanged(this) && unchanged(fork)
      ensures r.BadBlock? ==> && unchanged(this) && Of(b) !in fork.index
                              && fork.index == Erase(old(fork.index), {Of(b)})
                              && fork.head == RelinkedHead(old(fork.head), {Of(b)}) && fork.maxSize == old(fork.maxSize)
      ensures r.Extended? ==> Entered(old(data), old(head), old(log), old(fork.index), old(fork.head), b)
      ensures r.Extended? <==> old(OnTop(head) && Applies(b))
      ensures r.BadBlock? <==> old(OnTop(head) && !Applies(b))
      ensures r.BadBlock? && old(Good() && Tidy()) && b.previous == head ==> rules.exec(data, b).None?
      ensures r.Switched? ==> && Num(head) > Num(old(head)) && fork.head.Some?
                              && head == Of(fork.head.value.block) == Of(old(fork.head).value.block)
      ensures r.Reverted? ==> fork.head.Some? && Of(fork.head.value.block) == head
      ensures r.Reverted? || r.Stranded? || r.Unwalkable? || r.Switched? <==>
                old(!OnTop(head) && Height(fork.head.value.block) > Num(head))
      ensures r.Reverted? || r.Stranded? || r.Unwalkable? || r.Switched? ==>
                SwitchEnds(old(head), old(log), old(fork.index), old(fork.head).value, old(fork.maxSize), r)
      ensures r.Reverted? && old(Good() && Tidy()) ==> At(rules, Of(r.bad)).None?
      ensures old(Good() && Tidy() && !OnTop(head) && Height(fork.head.value.block) > Num(head)) ==>
                var tip := Of(old(fork.head).value.block);
                forall h: nat :: |old(log)| <= h && Highest(old(fork.index), old(head), tip, h) ==>
                                   Decided(tip, h, |old(log)|, old(fork.index), r)
    {
      hide Undoable, KeptAbove, Ancestor, At, IndexOk, ItemOk, Lawful, Committable, Misfiled, TidyIndex, Erase,
           Preserves, SwitchEnds, Path, Decided, Highest;
      var newHead := fork.head.value.block;
      if newHead.previous != head {
        if Height(newHead) <= Num(head) { return Waiting; }
        r := SwitchTo(newHead);
        return;
      }
      if Good() && Tidy() && b.previous == head { ValidApplies(b); }
      r := Extend(b);
    }

    /** The chain above the log is stored with every link, and the block joins no orphan. */
    ghost predicate Regular(b: Block)
      reads this, fork
    {
      Good() && Tidy() && !Rejoins(fork.index, fork.head, b)
    }

    /** The fork database takes the block or does not. */
    method Take(b: Block) returns (taken: bool)
      requires Valid()
      modifies fork
      ensures Valid() && (taken <==> old(Taken(b)))
      ensures !taken ==> unchanged(fork) && !old(Clobbers(b)) && !old(Misfiles(b)) && !old(Accepts(b))
      ensures taken ==> && fork.index == old(TakenIndex(b)) && fork.head == old(TakenHead(b))
                        && fork.maxSize == old(fork.maxSize) && fork.head.Some? && Of(b) in fork.index
      ensures taken && old(Good()) ==> Good()
      ensures taken && old(Regular(b)) ==> Tidy()
      ensures taken ==> (Spoils(b) <==> old(Clobbers(b)) || old(Misfiles(b)))
      ensures taken ==> (OnTop(head) && Applies(b) <==> old(Accepts(b)))
    {
      hide Undoable, KeptAbove, Ancestor, At, IndexOk, ItemOk, Lawful, Committable, Misfiled, TidyIndex, Erase, Rejoins;
      if Taken(b) { ClobberTop(b); }
      taken := fork.PushBlock(b);
      if !taken { return; }
      if old(Good()) { GoodTaken(old(fork.index)); }
      if old(Tidy()) && !Rejoins(old(fork.index), old(fork.head), b) {
        InsertedTidy(old(fork.index), old(fork.head), b, MustLink(old(fork.head), b));
      }
    }

    /** `_push_block` */
    method PushBlock(b: Block) returns (r: Pushed)
      requires Valid()
      modifies this, fork
      ensures Valid() && old(log) <= log
      ensures old(Good()) ==> (Good() <==> !old(Clobbers(b)) && !old(Misfiles(b)))
      ensures old(Regular(b)) ==> Tidy()
      ensures !r.Refused? <==> old(Taken(b))
      ensures r.Refused? || r.BadBlock? || r.Waiting? || r.Unwalkable? || r.Reverted? ==>
                head == old(head) && data == old(data)
      ensures r.Refused? ==> unchanged(this) && unchanged(fork)
      ensures r.Waiting? ==> && unchanged(this) && fork.index == old(TakenIndex(b)) && fork.head == old(TakenHead(b))
                             && fork.maxSize == old(fork.maxSize)
      ensures r.BadBlock? ==> && unchanged(this) && Of(b) !in fork.index
                              && fork.index == Erase(old(TakenIndex(b)), {Of(b)})
                              && fork.head == RelinkedHead(old(TakenHead(b)), {Of(b)})
                              && fork.maxSize == old(fork.maxSize)
      ensures r.Extended? ==> Entered(old(data), old(head), old(log), old(TakenIndex(b)), old(TakenHead(b)), b)
      ensures r.Extended? || r.BadBlock? <==> old(Taken(b) && TakenHead(b).value.block.previous == head)
      ensures r.Extended? <==> old(Accepts(b))
      ensures old(Taken(b) && Extends(TakenHead(b), head, b) && Regular(b)) ==>
                (r.Extended? <==> rules.exec(old(data), b).Some?)
      ensures r.Switched? ==> && Num(head) > Num(old(head)) && fork.head.Some?
                              && head == Of(fork.head.value.block) == Of(old(TakenHead(b)).value.block)
      ensures r.Reverted? ==> fork.head.Some? && Of(fork.head.value.block) == head
      ensures r.Reverted? || r.Stranded? || r.Unwalkable? || r.Switched? <==> old(Switches(b))
      ensures old(Switches(b)) ==>
                SwitchEnds(old(head), old(log), old(TakenIndex(b)), old(TakenHead(b)).value, old(fork.maxSize), r)
      ensures old(Regular(b)) && r.Reverted? ==> At(rules, Of(r.bad)).None?
      ensures old(Regular(b) && Switches(b)) ==>
                var tip := Of(old(TakenHead(b)).value.block);
                forall h: nat :: |old(log)| <= h && Highest(old(TakenIndex(b)), old(head), tip, h) ==>
                                   Decided(tip, h, |old(log)|, old(TakenIndex(b)), r)
    {
      hide Undoable, KeptAbove, Ancestor, At, IndexOk, ItemOk, Lawful, Committable, Misfiled, TidyIndex, Erase, Rejoins,
           SwitchEnds, Entered, Path, Walkable, Decided, Highest, Spoils, Applies, View.Clobbers, View.Misfiles,
           View.TakenIndex;
      var taken := Take(b);
      if !taken { return Refused; }
      r := PushTaken(b);
    }

    /**
     A run of pushes. The chain stays stored and the log a prefix of it while no push clobbers or misfiles a
     block; every link stays in place while none joins an orphan either.
     */
    method PushAll(blocks: seq<Block>) returns (ghost trace: seq<View<S>>)
      requires Valid()
      modifies this, fork
      ensures Valid() && old(log) <= log
      ensures |trace| == |blocks| + 1 && trace[0] == old(Now()) && trace[|blocks|] == Now()
      ensures forall i :: 0 <= i <= |blocks| ==> trace[i].log <= log && At(rules, trace[i].head) == Some(trace[i].data)
      ensures old(Good()) && Clean(rules, trace, blocks, |blocks|) ==> Good()
      ensures old(Good() && Tidy()) && Clean(rules, trace, blocks, |blocks|) && Joined(trace, blocks, |blocks|) ==>
                Tidy()
    {
      hide Undoable, KeptAbove, Lawful, TidyIndex, SwitchEnds, Walkable, Entered, Rejoins;
      trace := [Now()];
      HasState();
      for i := 0 to |blocks|
        invariant Valid() && old(log) <= log
        invariant |trace| == i + 1 && trace[0] == old(Now()) && trace[i] == Now()
        invariant forall j :: 0 <= j <= i ==> trace[j].log <= log && At(rules, trace[j].head) == Some(trace[j].data)
        invariant old(Good()) && Clean(rules, trace, blocks, i) ==> Good()
        invariant old(Good() && Tidy()) && Clean(rules, trace, blocks, i) && Joined(trace, blocks, i) ==> Tidy()
      {
        var _ := PushBlock(blocks[i]);
        trace := trace + [Now()];
        HasState();
      }
    }

    /**
     Shutting down and opening again: every undo state is unwound and the fork database
     starts over from the last block of the log.
     */
    method Reopen() returns (ok: bool)
      requires Valid()
      modifies this, fork
      ensures Valid() && log == old(log) && undo == [] && Num(head) == |log|
      ensures head == Ancestor(old(head), |log|)
      ensures ok <==> Num(head) == 0 || Of(log[|log| - 1]) == head
      ensures Tidy()
      ensures old(Good()) ==> ok && Good() && At(rules, head) == Some(data) && Path(head) == log
    {
      fork.Reset();
      while undo != []
        invariant Valid() && log == old(log)
        invariant Num(head) <= Num(old(head)) && head == Ancestor(old(head), Num(head))
        invariant fork.index == map[]
        decreases |undo|
      {
        UndoableBack(rules, head, data, undo, |log|);
        AncestorTwice(old(head), Num(head), Num(head) - 1);
        var last := undo[|undo| - 1];
        head, data, undo := last.head, last.data, undo[..|undo| - 1];
      }
      if |log| == 0 { return true; }
      if Of(log[|log| - 1]) != head { return false; }
      fork.StartBlock(log[|log| - 1]);
      return true;
    }
  }
}
