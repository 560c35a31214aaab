/**
 The irreversibility rule as the rule set of a chain: the last irreversible block is never above the head,
 which is what the chain database relies on, and below it unless one witness alone is scheduled. So a chain
 with two or more scheduled witnesses never logs one block in place of another.
 */
module FinalityRules {
  import opened Common
  import opened Blocks
  import opened ChainDb
  import opened Irreversible

  /** Who signed a block, and the schedule that was in force. */
  type Signing = Block -> (Name, seq<Name>)

  /** A block is valid when its signer and schedule are. */
  function Final(signing: Signing, witnesses: map<Name, nat>): Rules<Finality>
  {
    Rules(Finality(0, 0, witnesses),
          (f: Finality, b: Block) => Apply(signing, f, b),
          (f: Finality) => f.lib)
  }

  function Apply(signing: Signing, f: Finality, b: Block): Option<Finality>
  {
    var (signer, schedule) := signing(b);
    if Inv(f) && f.head == Num(b.previous) && Scheduled(f.confirmed, schedule)
    then Some(Step(f, signer, schedule)) else None
  }

  lemma FinalIsLawful(signing: Signing, witnesses: map<Name, nat>)
    ensures Lawful(Final(signing, witnesses))
  {
    forall f, b | Apply(signing, f, b).Some? ensures Apply(signing, f, b).value.lib <= Height(b) {
      StepKeeps(f, signing(b).0, signing(b).1);
    }
  }

  /** With two or more scheduled witnesses no block is irreversible at once. */
  lemma FinalNeverMisfiles(signing: Signing, c: Chain<Finality>, b: Block)
    requires c.Valid() && c.rules == Final(signing, c.rules.genesis.confirmed) && |signing(b).1| >= 2
    ensures !c.Misfiles(b)
  {
    if c.rules.exec(c.data, b).Some? { StepKeeps(c.data, signing(b).0, signing(b).1); }
  }
}
