/** One journal, read twice: for the index's bookkeeping and for the world's hierarchy. */
module Journals {
  import opened Wrappers
  import opened Envelopes
  import Mirrors

  /** A structural op as the index sees it. */
  function IndexOp(op: WireOp): Mirrors.Op {
    match op
    case WireSpawn(net, local, _) => Mirrors.Spawn(net, local)
    case WireDestroy(net) => Mirrors.Destroy(net)
    case WireReparent(_, _) => Mirrors.OtherOp
  }

  function IndexOps(ops: seq<WireOp>): seq<Mirrors.Op> {
    seq(|ops|, i requires 0 <= i < |ops| => IndexOp(ops[i]))
  }

  ghost predicate PlausibleOps(ops: seq<WireOp>) {
    forall i :: 0 <= i < |ops| && ops[i].WireSpawn? ==> Mirrors.Plausible(ops[i].net)
  }

  ghost predicate SameNames(names: map<int, nat>, index: map<int, int>) {
    && (forall n :: n in names <==> n in index)
    && (forall n :: n in names ==> names[n] == index[n])
  }

  /** In the middle of an envelope: the same netIds mapped, and the same ones waiting to be unmapped. */
  ghost predicate SameJournal(p: Pass, j: Mirrors.Journal) {
    SameNames(p.world.toLocal, j.index.toLocal) && forall n :: n in p.unmap <==> n in j.unmap
  }

  lemma HookNamesNothing(w: World, net: int, local: nat, parent: Option<int>)
    ensures Spawned(w, net, local, parent).toLocal == w.toLocal[net := local]
  {
  }

  lemma OpAgrees(p: Pass, j: Mirrors.Journal, op: WireOp)
    requires SameJournal(p, j) && (op.WireSpawn? ==> Mirrors.Plausible(op.net))
    ensures SameJournal(Applied(p, op), Mirrors.Applied(j, IndexOp(op)))
  {
    match op
    case WireSpawn(net, local, parent) => HookNamesNothing(p.world, net, local, parent);
    case WireDestroy(_) =>
    case WireReparent(_, _) =>
  }

  lemma {:induction false} OpsAgree(w: World, index: Mirrors.Index, ops: seq<WireOp>)
    requires SameNames(w.toLocal, index.toLocal) && PlausibleOps(ops)
    ensures SameJournal(PassAll(w, ops), Mirrors.AppliedAll(Mirrors.Journal(index, [], 0, 0), IndexOps(ops)))
    decreases |ops|
  {
    if ops != [] {
      var init := ops[..|ops| - 1];
      assert IndexOps(ops)[..|ops| - 1] == IndexOps(init);
      OpsAgree(w, index, init);
      OpAgrees(PassAll(w, init), Mirrors.AppliedAll(Mirrors.Journal(index, [], 0, 0), IndexOps(init)), ops[|ops| - 1]);
    }
  }

  lemma {:induction false} UnboundNames(index: Mirrors.Index, nets: seq<int>)
    ensures forall n :: n in Mirrors.UnboundAll(index, nets).toLocal <==> n in index.toLocal && n !in nets
    ensures forall n :: n in Mirrors.UnboundAll(index, nets).toLocal ==> Mirrors.UnboundAll(index, nets).toLocal[n] == index.toLocal[n]
    decreases |nets|
  {
    if nets != [] {
      var init, last := nets[..|nets| - 1], nets[|nets| - 1];
      assert nets == init + [last];
      UnboundNames(index, init);
    }
  }

  /** After any envelope of plausible spawns the world's names are the index's. */
  lemma EnvelopeNames(w: World, index: Mirrors.Index, ops: seq<WireOp>)
    requires SameNames(w.toLocal, index.toLocal) && PlausibleOps(ops)
    ensures SameNames(Drained(PassAll(w, ops)).toLocal, Mirrors.AfterEnvelope(index, IndexOps(ops)).toLocal)
  {
    var j := Mirrors.AppliedAll(Mirrors.Journal(index, [], 0, 0), IndexOps(ops));
    OpsAgree(w, index, ops);
    UnboundNames(j.index, j.unmap);
  }
}
