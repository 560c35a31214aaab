/**
 Blocks named by a collision-free hash of their contents. The identifier of a block carries
 its number, and names exactly one block, so a block determines the whole path below it.
 */
module Blocks {
  import opened Common

  /** `body` stands for everything in a block besides the link to its predecessor. */
  datatype Block = Block(previous: Id, body: int)

  /** `Unknown` identifiers are the hash of no block; the genesis identifier is one of them. */
  datatype Id = Unknown(num: nat, tag: int) | Of(block: Block)

  const GENESIS_ID: Id := Unknown(0, 0)

  function Num(id: Id): nat
  {
    match id
    case Unknown(n, _) => n
    case Of(b) => Num(b.previous) + 1
  }

  function Height(b: Block): nat
  {
    Num(b.previous) + 1
  }

  /** The identifier at height `n` on the way down from `id`. */
  function Ancestor(id: Id, n: nat): Id
  {
    match id
    case Unknown(_, _) => id
    case Of(b) => if Num(id) <= n then id else Ancestor(b.previous, n)
  }

  ghost predicate Rooted(id: Id)
  {
    match id
    case Unknown(_, _) => id == GENESIS_ID
    case Of(b) => Rooted(b.previous)
  }

  /** Every block on the path from genesis to `id`. */
  function Path(id: Id): seq<Block>
  {
    match id
    case Unknown(_, _) => []
    case Of(b) => Path(b.previous) + [b]
  }

  lemma {:induction false} AncestorNum(id: Id, n: nat)
    requires Rooted(id) && n <= Num(id)
    ensures Num(Ancestor(id, n)) == n && Rooted(Ancestor(id, n))
  {
    if Num(id) > n { AncestorNum(id.block.previous, n); }
  }

  lemma {:induction false} RootedAbove(id: Id, n: nat)
    requires Rooted(Ancestor(id, n))
    ensures Rooted(id)
  {
    if id.Of? && Num(id) > n { RootedAbove(id.block.previous, n); }
  }

  lemma {:induction false} AncestorTwice(id: Id, m: nat, n: nat)
    requires n <= m
    ensures Ancestor(Ancestor(id, m), n) == Ancestor(id, n)
  {
    if id.Of? && Num(id) > m { AncestorTwice(id.block.previous, m, n); }
  }

  lemma {:induction false} PathAt(id: Id, n: nat)
    requires Rooted(id) && n <= Num(id)
    ensures |Path(id)| == Num(id)
    ensures Path(Ancestor(id, n)) == Path(id)[..n]
    ensures 1 <= n ==> Of(Path(id)[n - 1]) == Ancestor(id, n)
  {
    if id.Of? {
      var below := id.block.previous;
      PathAt(below, if n <= Num(below) then n else Num(below));
      if n <= Num(below) { assert Path(id)[..n] == Path(below)[..n]; }
      else { assert Path(id)[..n] == Path(id); }
    }
  }
}
