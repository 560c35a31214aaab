/**
 The fork database: a tree of recent blocks, indexed by identifier, with a head.

 An item's link to its parent is weak: it stays in place for as long as the parent item
 does, and never comes back once the parent has been erased.
 */
module ForkDatabase {
  import opened Common
  import opened Blocks

  datatype Item = Item(block: Block, linked: bool)

  type Index = map<Id, Item>

  ghost predicate IndexOk(index: Index)
  {
    forall id :: id in index ==> ItemOk(index, id, index[id])
  }

  ghost predicate ItemOk(index: Index, id: Id, item: Item)
  {
    id == Of(item.block) && (item.linked ==> item.block.previous in index)
  }

  function Relinked(item: Item, gone: set<Id>): Item
  {
    if item.block.previous in gone then item.(linked := false) else item
  }

  /** Erasing items; the links of their children expire. */
  function Erase(index: Index, gone: set<Id>): (r: Index)
    ensures r.Keys == index.Keys - gone
    ensures forall id :: id in r ==> r[id] == Relinked(index[id], gone)
  {
    map id | id in index && id !in gone :: Relinked(index[id], gone)
  }

  lemma EraseOk(index: Index, gone: set<Id>)
    requires IndexOk(index)
    ensures IndexOk(Erase(index, gone))
  {
  }

  lemma EraseTwice(index: Index, a: set<Id>, b: set<Id>)
    ensures Erase(Erase(index, a), b) == Erase(index, a + b)
  {
  }

  /** What the index says about block number `n`. */
  function AtNumber(index: Index, n: nat): (r: set<Id>)
    ensures forall id :: id in r <==> id in index && Num(id) == n
  {
    set id | id in index && Num(id) == n
  }

  /** Following links from `item` down to height `n`. */
  function Walk(index: Index, item: Item, n: nat): (r: Option<Item>)
    requires IndexOk(index) && ItemOk(index, Of(item.block), item)
    ensures r.Some? && n <= Height(item.block) ==> Of(r.value.block) == Ancestor(Of(item.block), n)
    decreases Height(item.block)
  {
    if Height(item.block) <= n then Some(item)
    else if !item.linked then None
    else Walk(index, index[item.block.previous], n)
  }

  lemma {:induction false} WalkSucceeds(index: Index, item: Item, n: nat)
    requires IndexOk(index) && ItemOk(index, Of(item.block), item) && 1 <= n <= Height(item.block)
    requires LinkedTo(index, item.block.previous, n) && (item.linked || n == Height(item.block))
    ensures Walk(index, item, n).Some?
    decreases Height(item.block)
  {
    if n < Height(item.block) {
      var below := index[item.block.previous];
      assert n < Height(below.block) ==> Ancestor(item.block.previous, Height(below.block)) == Of(below.block);
      forall m | n < m <= Num(below.block.previous)
        ensures Ancestor(below.block.previous, m) == Ancestor(item.block.previous, m)
      {
      }
      WalkSucceeds(index, below, n);
    }
  }

  /** The main-branch block with number `n`, as the database looks it up. */
  ghost predicate MainBranch(index: Index, head: Item, n: nat, found: Option<Item>)
    requires IndexOk(index) && ItemOk(index, Of(head.block), head)
  {
    var ids := AtNumber(index, n);
    if |ids| == 1 then found.Some? && Of(found.value.block) in ids && found.value == index[Of(found.value.block)]
    else if |ids| == 0 || n > Height(head.block) then found == None
    else found == Walk(index, head, n)
  }

  /** The lookup of block number `n` finds a block. */
  ghost predicate Findable(index: Index, head: Item, n: nat)
    requires IndexOk(index) && ItemOk(index, Of(head.block), head)
  {
    var ids := AtNumber(index, n);
    |ids| == 1 || (|ids| > 1 && n <= Height(head.block) && Walk(index, head, n).Some?)
  }

  // ----- links -----

  /** A link that could be in place is. */
  predicate TidyItem(index: Index, item: Item)
  {
    item.block.previous in index ==> item.linked
  }

  ghost predicate TidyIndex(index: Index)
  {
    forall id :: id in index ==> TidyItem(index, index[id])
  }

  lemma EraseTidy(index: Index, gone: set<Id>)
    requires TidyIndex(index)
    ensures TidyIndex(Erase(index, gone))
  {
  }

  lemma RelinkedTidy(index: Index, item: Item, gone: set<Id>)
    requires TidyItem(index, item)
    ensures TidyItem(Erase(index, gone), Relinked(item, gone))
  {
  }

  /** An item stays tidy while blocks leave the index. */
  lemma ShrunkTidy(before: Index, after: Index, item: Item)
    requires TidyItem(before, item) && after.Keys <= before.Keys
    ensures TidyItem(after, item)
  {
  }

  lemma OnlyOne<T>(s: set<T>, x: T, y: T)
    requires |s| == 1 && x in s && y in s
    ensures x == y
  {
    assert |s - {x}| == 0;
  }

  /**
   The shortcut for a number with a single stored block agrees with walking back from the
   head exactly when the block on the main branch is still stored.
   */
  lemma ShortcutAgrees(index: Index, head: Item, n: nat, found: Option<Item>)
    requires IndexOk(index) && ItemOk(index, Of(head.block), head) && n <= Height(head.block)
    requires MainBranch(index, head, n, found) && found.Some?
    requires Num(Ancestor(Of(head.block), n)) == n
    ensures |AtNumber(index, n)| == 1 ==>
              (Of(found.value.block) == Ancestor(Of(head.block), n) <==> Ancestor(Of(head.block), n) in index)
    ensures |AtNumber(index, n)| > 1 ==> Of(found.value.block) == Ancestor(Of(head.block), n)
  {
    var ids := AtNumber(index, n);
    if |ids| == 1 && Ancestor(Of(head.block), n) in ids {
      OnlyOne(ids, Of(found.value.block), Ancestor(Of(head.block), n));
    }
  }

  /** Two blocks on the main branch and a sibling of the first; the first has been erased. */
  lemma ShortcutMisses() returns (index: Index, head: Item, found: Option<Item>)
    ensures IndexOk(index) && ItemOk(index, Of(head.block), head) && Of(head.block) in index
    ensures MainBranch(index, head, 1, found)
    ensures found.Some? && Of(found.value.block) != Ancestor(Of(head.block), 1)
  {
    var first, sibling := Block(GENESIS_ID, 0), Block(GENESIS_ID, 1);
    var second := Block(Of(first), 0);
    head := Item(second, false);
    index := map[Of(sibling) := Item(sibling, false), Of(second) := head];
    found := Some(index[Of(sibling)]);
    assert AtNumber(index, 1) == {Of(sibling)};
  }

  /** The items from `id` downwards, all but the last with their link in place. */
  ghost predicate IsBranch(index: Index, id: Id, branch: seq<Item>)
  {
    && |branch| <= Num(id)
    && (forall i :: 0 <= i < |branch| ==> Stored(index, id, i, branch[i]))
    && (forall i :: 0 <= i < |branch| - 1 ==> branch[i].linked)
  }

  ghost predicate Stored(index: Index, id: Id, i: nat, item: Item)
    requires i <= Num(id)
  {
    var at := Ancestor(id, Num(id) - i);
    at in index && index[at] == item && Num(at) == Num(id) - i && at == Of(item.block)
  }

  /** Every link from `id` down to height `h` is in place. */
  ghost predicate LinkedTo(index: Index, id: Id, h: nat)
  {
    forall n :: h < n <= Num(id) ==> Ancestor(id, n) in index && index[Ancestor(id, n)].linked
  }

  /** The blocks from `id` down to just above height `h` are stored, with the links between them in place. */
  ghost predicate StoredDown(index: Index, id: Id, h: nat)
  {
    && (forall n :: h < n <= Num(id) ==> Ancestor(id, n) in index)
    && (forall n :: h + 1 < n <= Num(id) ==> index[Ancestor(id, n)].linked)
  }

  /** The blocks have the same ancestor at height `h`, and are stored down to just above it. */
  ghost predicate Meet(index: Index, first: Id, second: Id, h: nat)
  {
    && h < Num(first) && h < Num(second) && Ancestor(first, h) == Ancestor(second, h)
    && StoredDown(index, first, h) && StoredDown(index, second, h)
  }

  /** Branches of one fork, ending just above their common ancestor. */
  ghost predicate Fork(index: Index, first: Id, second: Id, fs: seq<Item>, ss: seq<Item>)
  {
    && |fs| >= 1 && |ss| >= 1
    && IsBranch(index, first, fs) && IsBranch(index, second, ss)
    && Num(first) - |fs| == Num(second) - |ss|
    && fs[|fs| - 1].block.previous == ss[|ss| - 1].block.previous
  }

  /** No block is on both branches, unless one branch is that block alone. */
  ghost predicate Apart(fs: seq<Item>, ss: seq<Item>)
  {
    forall i, j :: 0 <= i < |fs| && 0 <= j < |ss| && fs[i].block == ss[j].block ==>
                     i == |fs| - 1 && j == |ss| - 1 && (i == 0 || j == 0)
  }

  /** What pruning to a size erases: what is that far below the head. */
  function PrunedIds(index: Index, head: Option<Item>, size: nat): (r: set<Id>)
  {
    if head.None? then {} else set id | id in index && Num(id) < Height(head.value.block) - size
  }

  function RelinkedHead(head: Option<Item>, gone: set<Id>): Option<Item>
  {
    if head.Some? then Some(Relinked(head.value, gone)) else None
  }

  /** The index with a block that was pushed. */
  function Inserted(index: Index, b: Block, linked: bool): Index
  {
    if Of(b) in index then index else index[Of(b) := Item(b, linked)]
  }

  /** A block that is not stored, although one of its children is, or is the head. */
  ghost predicate Rejoins(index: Index, head: Option<Item>, b: Block)
  {
    && Of(b) !in index
    && ((head.Some? && head.value.block.previous == Of(b))
        || exists id :: id in index && index[id].block.previous == Of(b))
  }

  lemma InsertedTidy(index: Index, head: Option<Item>, b: Block, linked: bool)
    requires IndexOk(index) && TidyIndex(index) && (head.Some? ==> TidyItem(index, head.value))
    requires !Rejoins(index, head, b)
    requires linked == (head.Some? && b.previous != GENESIS_ID) && (head.None? ==> index == map[])
    ensures TidyIndex(Inserted(index, b, linked)) && TidyItem(Inserted(index, b, linked), Item(b, linked))
    ensures head.Some? ==> TidyItem(Inserted(index, b, linked), head.value)
  {
    var after := Inserted(index, b, linked);
    assert Num(Of(b)) == Num(b.previous) + 1;
    assert forall id :: id in index ==> id.Of?;
    forall id | id in after ensures TidyItem(after, after[id]) {
      assert id in index ==> index[id].block.previous != Of(b) || Of(b) in index;
    }
  }

  /** A block so far below the head that it is not considered. */
  predicate TooOld(head: Option<Item>, maxSize: nat, b: Block)
  {
    head.Some? && Height(b) <= (if Height(head.value.block) > maxSize then Height(head.value.block) - maxSize else 0)
  }

  /** Everything but the first block has to have its parent stored. */
  predicate MustLink(head: Option<Item>, b: Block)
  {
    head.Some? && b.previous != GENESIS_ID
  }

  class ForkDb {
    var index: Index
    var head: Option<Item>
    var maxSize: nat

    ghost predicate Valid()
      reads this
    {
      && IndexOk(index)
      && (head.None? ==> index == map[])
      && (head.Some? ==> ItemOk(index, Of(head.value.block), head.value))
    }

    constructor ()
      ensures Valid() && index == map[] && head == None && maxSize == 1024
    {
      index, head, maxSize := map[], None, 1024;
    }

    method StartBlock(b: Block)
      requires index == map[]
      modifies this`index, this`head
      ensures Valid() && index == map[Of(b) := Item(b, false)] && head == Some(Item(b, false))
    {
      index := map[Of(b) := Item(b, false)];
      head := Some(Item(b, false));
    }

    method Reset()
      modifies this`index, this`head
      ensures Valid() && index == map[] && head == None
    {
      index, head := map[], None;
    }

    method PushBlock(b: Block) returns (ok: bool)
      requires Valid()
      modifies this`index, this`head
      ensures Valid()
      ensures ok <==> !TooOld(old(head), maxSize, b) && (MustLink(old(head), b) ==> b.previous in old(index))
      ensures !ok ==> index == old(index) && head == old(head)
      ensures ok ==> var item := Item(b, MustLink(old(head), b));
                     && index == Inserted(old(index), b, MustLink(old(head), b))
                     && head == (if old(head).None? || Height(b) > Height(old(head).value.block) then Some(item)
                                 else old(head))
    {
      if TooOld(head, maxSize, b) { return false; }
      if MustLink(head, b) && b.previous !in index { return false; }
      var item := Item(b, MustLink(head, b));
      if Of(b) !in index { index := index[Of(b) := item]; }
      if head.None? || Height(b) > Height(head.value.block) { head := Some(item); }
      return true;
    }

    method PopBlock() returns (ok: bool)
      requires Valid()
      modifies this`head
      ensures Valid()
      ensures ok <==> old(head).Some? && old(head).value.linked
      ensures ok ==> head == Some(index[old(head).value.block.previous])
      ensures !ok ==> head == old(head)
    {
      if head.None? || !head.value.linked { return false; }
      head := Some(index[head.value.block.previous]);
      return true;
    }

    /** An item that has left the index keeps its link for as long as its parent is stored. */
    method SetHead(item: Item)
      requires Valid()
      modifies this`head
      ensures Valid()
      ensures head == Some(item.(linked := item.linked && item.block.previous in index))
    {
      head := Some(item.(linked := item.linked && item.block.previous in index));
    }

    method Remove(id: Id)
      requires Valid()
      modifies this`index, this`head
      ensures Valid()
      ensures index == Erase(old(index), {id})
      ensures head == RelinkedHead(old(head), {id})
    {
      EraseOk(index, {id});
      index := Erase(index, {id});
      head := if head.Some? then Some(Relinked(head.value, {id})) else None;
    }

    /** Pruning, one item after the other. */
    method SetMaxSize(size: nat)
      requires Valid()
      modifies this
      ensures Valid() && maxSize == size
      ensures index == Erase(old(index), old(PrunedIds(index, head, size)))
      ensures head == RelinkedHead(old(head), old(PrunedIds(index, head, size)))
    {
      maxSize := size;
      var todo := PrunedIds(index, head, size);
      assert index == Erase(index, {});
      if head.None? { return; }
      ghost var gone := {};
      while todo != {}
        invariant Valid() && maxSize == size
        invariant old(head).Some? && head == Some(Relinked(old(head).value, gone))
        invariant index == Erase(old(index), gone)
        invariant todo !! gone && todo + gone == old(PrunedIds(index, head, size))
        decreases todo
      {
        var id :| id in todo;
        EraseTwice(old(index), gone, {id});
        EraseOk(index, {id});
        index := Erase(index, {id});
        head := Some(Relinked(head.value, {id}));
        todo := todo - {id};
        gone := gone + {id};
      }
      assert gone == old(PrunedIds(index, head, size));
    }

    /** `fetch_block_on_main_branch_by_number` */
    method FetchMainBranch(n: nat) returns (r: Option<Item>)
      requires Valid()
      ensures head.Some? ==> MainBranch(index, head.value, n, r) && (r.Some? <==> Findable(index, head.value, n))
      ensures head.None? ==> r == None
    {
      var ids := AtNumber(index, n);
      if |ids| == 1 {
        var id :| id in ids;
        return Some(index[id]);
      }
      if |ids| == 0 || head.None? { return None; }
      r := WalkMainBranch(n);
    }

    /** `walk_main_branch_to_num` */
    method WalkMainBranch(n: nat) returns (r: Option<Item>)
      requires Valid() && head.Some?
      ensures r == if n > Height(head.value.block) then None else Walk(index, head.value, n)
    {
      if n > Height(head.value.block) { return None; }
      var next := head.value;
      while Height(next.block) > n
        invariant ItemOk(index, Of(next.block), next)
        invariant Walk(index, next, n) == Walk(index, head.value, n)
        decreases Height(next.block)
      {
        if !next.linked { return None; }
        next := index[next.block.previous];
      }
      return Some(next);
    }

    /** Walking down from `id` to the height of another block. */
    method WalkTo(id: Id, height: nat) returns (ok: bool, branch: seq<Item>, at: Item)
      requires Valid() && id in index
      ensures ok ==> Walked(id, branch, at) && (branch == [] || Height(at.block) == height)
      ensures ok ==> Height(at.block) <= height
      ensures !ok ==> forall h: nat :: StoredDown(index, id, h) ==> height <= h
    {
      branch, at := [], index[id];
      while Height(at.block) > height
        invariant Walked(id, branch, at)
        invariant branch == [] || Height(at.block) >= height
        decreases Height(at.block)
      {
        if !at.linked {
          assert Ancestor(id, Height(at.block)) == Of(at.block);
          return false, branch, at;
        }
        WalkStep(id, branch, at);
        branch := branch + [at];
        at := index[at.block.previous];
      }
      return true, branch, at;
    }

    /**
     The two branches from the given blocks down to where they fork, which is the highest common
     ancestor below both. The walk fails exactly when they are not stored down to one.
     */
    method FetchBranchFrom(first: Id, second: Id) returns (r: Option<(seq<Item>, seq<Item>)>)
      requires Valid()
      ensures r.Some? <==> exists h: nat :: Meet(index, first, second, h)
      ensures r.Some? ==> first in index && second in index && Fork(index, first, second, r.value.0, r.value.1)
      ensures r.Some? ==> Apart(r.value.0, r.value.1)
      ensures r.Some? ==> |r.value.0| <= Num(first) && Meet(index, first, second, Num(first) - |r.value.0|)
      ensures r.Some? ==> forall h: nat :: Meet(index, first, second, h) ==> h <= Num(first) - |r.value.0|
    {
      hide StoredDown, Meet;
      if first !in index || second !in index {
        forall h: nat ensures !Meet(index, first, second, h) { MeetStored(first, second, h); }
        return None;
      }
      var ok, fs, a := WalkTo(first, Num(second));
      if !ok {
        forall h: nat ensures !Meet(index, first, second, h) { MeetParts(first, second, h); }
        return None;
      }
      var ok', ss, b := WalkTo(second, Height(a.block));
      if !ok' {
        forall h: nat ensures !Meet(index, first, second, h) {
          MeetParts(first, second, h);
          assert Stored(index, first, |fs|, a);
        }
        return None;
      }
      forall h: nat ensures Meet(index, first, second, h) ==> h < Height(a.block) { MeetParts(first, second, h); }
      while a.block.previous != b.block.previous
        invariant Walked(first, fs, a) && Walked(second, ss, b) && Height(a.block) == Height(b.block)
        invariant forall h: nat :: Meet(index, first, second, h) ==> h < Height(a.block)
        invariant forall i, j :: 0 <= i < |fs| && 0 <= j < |ss| ==> fs[i].block != ss[j].block
        invariant fs != [] && ss != [] ==> a.block != b.block
        decreases Height(a.block)
      {
        forall h: nat ensures Meet(index, first, second, h) ==> h + 1 < Height(a.block) && a.linked && b.linked {
          MeetAbove(first, second, h, fs, ss, a, b);
        }
        if !a.linked || !b.linked { return None; }
        WalkStep(first, fs, a);
        WalkStep(second, ss, b);
        Pushed(first, second, fs, ss, a, b);
        fs, ss := fs + [a], ss + [b];
        a, b := index[a.block.previous], index[b.block.previous];
      }
      Pushed(first, second, fs, ss, a, b);
      WalkEnds(first, fs, a);
      WalkEnds(second, ss, b);
      MeetHere(first, second, fs, ss, a, b);
      fs, ss := fs + [a], ss + [b];
      return Some((fs, ss));
    }

    lemma MeetStored(first: Id, second: Id, h: nat)
      ensures Meet(index, first, second, h) ==> first in index && second in index
    {
      assert Ancestor(first, Num(first)) == first && Ancestor(second, Num(second)) == second;
    }

    lemma MeetParts(first: Id, second: Id, h: nat)
      ensures Meet(index, first, second, h) ==>
                && h < Num(first) && h < Num(second)
                && StoredDown(index, first, h) && StoredDown(index, second, h)
    {
    }

    /** Where the walk ends is where the branches meet. */
    lemma MeetHere(first: Id, second: Id, fs: seq<Item>, ss: seq<Item>, a: Item, b: Item)
      requires Valid() && Walked(first, fs, a) && Walked(second, ss, b) && Height(a.block) == Height(b.block)
      requires a.block.previous == b.block.previous
      ensures Meet(index, first, second, Height(a.block) - 1) && Height(a.block) == Num(first) - |fs|
    {
      StoredHere(first, fs, a);
      StoredHere(second, ss, b);
      AncestorTwice(first, Height(a.block), Height(a.block) - 1);
      AncestorTwice(second, Height(a.block), Height(a.block) - 1);
    }

    lemma StoredHere(id: Id, branch: seq<Item>, at: Item)
      requires Valid() && Walked(id, branch, at)
      ensures StoredDown(index, id, Height(at.block) - 1)
      ensures Height(at.block) == Num(id) - |branch| && Ancestor(id, Height(at.block)) == Of(at.block)
    {
      var h := Height(at.block) - 1;
      forall n | h < n <= Num(id) ensures Ancestor(id, n) in index && (h + 1 < n ==> index[Ancestor(id, n)].linked) {
        var i := Num(id) - n;
        if i < |branch| { assert Stored(index, id, i, branch[i]); }
      }
    }

    /** The walk from `id` has collected `branch` and now stands at `at`. */
    ghost predicate Walked(id: Id, branch: seq<Item>, at: Item)
      reads this
    {
      && id in index
      && |branch| < Num(id)
      && Stored(index, id, |branch|, at)
      && IsBranch(index, id, branch)
      && (forall i :: 0 <= i < |branch| ==> branch[i].linked)
    }

    lemma WalkStep(id: Id, branch: seq<Item>, at: Item)
      requires Valid() && Walked(id, branch, at) && at.linked
      ensures Walked(id, branch + [at], index[at.block.previous])
    {
      AncestorTwice(id, Num(id) - |branch|, Num(id) - |branch| - 1);
      WalkEnds(id, branch, at);
    }

    lemma WalkEnds(id: Id, branch: seq<Item>, at: Item)
      requires Walked(id, branch, at)
      ensures IsBranch(index, id, branch + [at])
    {
      var longer := branch + [at];
      forall i | 0 <= i < |longer| ensures Stored(index, id, i, longer[i]) {
        assert i < |branch| ==> longer[i] == branch[i];
      }
    }

    /** Blocks already collected are higher, so the next pair can only repeat each other. */
    lemma Pushed(first: Id, second: Id, fs: seq<Item>, ss: seq<Item>, a: Item, b: Item)
      requires Walked(first, fs, a) && Walked(second, ss, b) && Height(a.block) == Height(b.block)
      requires forall i, j :: 0 <= i < |fs| && 0 <= j < |ss| ==> fs[i].block != ss[j].block
      ensures forall i, j :: 0 <= i <= |fs| && 0 <= j <= |ss| && (i < |fs| || j < |ss|) ==>
                               (fs + [a])[i].block != (ss + [b])[j].block
    {
      forall i, j | 0 <= i <= |fs| && 0 <= j <= |ss| && (i < |fs| || j < |ss|)
        ensures (fs + [a])[i].block != (ss + [b])[j].block
      {
        if i < |fs| { assert Stored(index, first, i, fs[i]); }
        if j < |ss| { assert Stored(index, second, j, ss[j]); }
      }
    }

    lemma MeetAbove(first: Id, second: Id, h: nat, fs: seq<Item>, ss: seq<Item>, a: Item, b: Item)
      requires Walked(first, fs, a) && Walked(second, ss, b) && Height(a.block) == Height(b.block)
      requires a.block.previous != b.block.previous
      ensures Meet(index, first, second, h) && h < Height(a.block) ==> h + 1 < Height(a.block) && a.linked && b.linked
    {
      assert Ancestor(first, Height(a.block)) == Of(a.block) && Ancestor(second, Height(b.block)) == Of(b.block);
      if Meet(index, first, second, h) && h == Height(a.block) - 1 {
        AncestorTwice(first, Height(a.block), h);
        AncestorTwice(second, Height(a.block), h);
      }
    }
  }
}
