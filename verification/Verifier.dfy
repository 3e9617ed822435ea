/**
 What the code generator's verifier asks of a function before it is compiled, as far as the examples
 need it: a function that it rejects does not count as crashing.
 */
module Verifier {
  import opened Lists
  import opened Wrappers
  import opened Layouts
  import opened Ir
  import Entities

  predicate IsTerminator(op: Op)
  {
    op.Jump? || op.Brif? || op.BrTable? || op.TryCall? || op.TryCallIndirect? || op.Trap? || op == RETURN
  }

  /** All instructions are there, and the last one, and no other, is a terminator. */
  predicate Ended(f: Func, insts: List<Inst>)
  {
    && insts.Cons? && insts.head in f.insts && (IsTerminator(f.insts[insts.head].op) <==> insts.tail.Nil?)
    && (insts.tail.Cons? ==> Ended(f, insts.tail))
  }

  predicate AllEnded(f: Func, layout: List<Blk>)
  {
    layout.Cons? ==> Ended(f, layout.head.insts) && AllEnded(f, layout.tail)
  }

  /** Branches go to blocks of the layout other than the entry block, with a value for each parameter. */
  predicate DestsOk(f: Func, dests: List<Dest>)
  {
    dests.Cons? ==>
      && f.layout.Cons? && dests.head.block != f.layout.head.id && HasBlock(f.layout, dests.head.block)
      && Length(dests.head.args) == Length(Params(f, dests.head.block)) && DestsOk(f, dests.tail)
  }

  predicate RefOk(f: Func, kind: Entities.Kind, r: Option<nat>) { r.Some? ==> r.value < Entities.Size(f, kind) }

  /** What the verifier asks of terminators, destinations and references. */
  ghost predicate Accepted(f: Func)
  {
    && Sound(f) && AllEnded(f, f.layout)
    && (forall i :: i in f.insts ==> DestsOk(f, f.insts[i].dests))
    && (forall i, kind :: i in f.insts ==>
          RefOk(f, kind, Entities.OpRef(kind, f.insts[i].op)) && RefOk(f, kind, Entities.HiddenIn(kind, f.insts[i].op)))
    && RefOk(f, Entities.Globals, f.stackLimit)
  }
}
