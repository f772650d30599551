/** The block law over the integers: exactly when f_bfree wraps, and the law for all
    runs in which it does not. */
module Overdraft {
  import opened Base
  import opened Model
  import opened Graph
  import opened Invariant
  import opened Runs
  import opened Laws
  import opened Accounting
  import opened Slots

  // ------------------------------------------------------- blocks owned by inodes

  ghost function Growth(fs: Fs, g: Fs): int {
    SumBlocks(g) - SumBlocks(fs)
  }

  lemma {:induction false} SetNodeGrowth(fs: Fs, g: Fs, i: nat)
    requires Live(fs, i) && Live(g, i) && g.nodes == fs.nodes[i := g.nodes[i]]
    ensures Growth(fs, g) == At(g, i).h.blocks - At(fs, i).h.blocks
  {
    SumUpdate(fs.nodes, i, g.nodes[i], BlocksW());
  }

  lemma {:induction false} HeadGrowth(fs: Fs, i: nat, n: int)
    ensures Growth(fs, AddLinks(fs, i, n)) == 0 && Growth(fs, AddLookups(fs, i, n)) == 0
  {
    hide SumBlocks, Wrap;
    if Live(fs, i) {
      SetNodeGrowth(fs, AddLinks(fs, i, n), i);
      SetNodeGrowth(fs, AddLookups(fs, i, n), i);
    }
  }

  lemma {:induction false} AddGrowth(fs: Fs, d: nat, name: Name, ino: nat)
    requires Lawful(fs)
    ensures 0 <= Growth(fs, AddChild(fs, d, name, ino).0) <= fs.stat.bfree
    ensures AddChild(fs, d, name, ino).0.stat.bfree == fs.stat.bfree - Growth(fs, AddChild(fs, d, name, ino).0)
  {
    hide SumBlocks, NBlocks, HasSpaceFor, Lawful, UseBlocks;
    if AddChild(fs, d, name, ino).1 == OK {
      SetNodeGrowth(fs, AddChild(fs, d, name, ino).0, d);
      AddChildCovered(fs, d, name, ino);
    }
  }

  lemma {:induction false} UpdateGrowth(fs: Fs, d: nat, name: Name, ino: nat)
    ensures Growth(fs, UpdateChild(fs, d, name, ino)) == 0
  {
    hide SumBlocks;
    if IsDir(fs, d) {
      SetNodeGrowth(fs, UpdateChild(fs, d, name, ino), d);
    }
  }

  lemma {:induction false} RemoveGrowth(fs: Fs, d: nat, name: Name)
    requires Lawful(fs)
    ensures Growth(fs, RemoveChild(fs, d, name)) <= 0
  {
    hide SumBlocks, UseBlocks;
    if IsDir(fs, d) {
      assert NodeLaw(At(fs, d));
      SetNodeGrowth(fs, RemoveChild(fs, d, name), d);
    }
  }

  lemma {:induction false} DataGrowth(fs: Fs, op: Op)
    requires Lawful(fs) && (op.WriteOp? || op.TruncateOp?)
    ensures Growth(fs, FsStep(fs, op).0) <= fs.stat.bfree
  {
    hide SumBlocks, UseBlocks, Overwrite, Resized, HasSpaceFor, Lawful, NBlocks;
    if Live(fs, op.ino) {
      DataCovered(fs, op);
      SetNodeGrowth(fs, FsStep(fs, op).0, op.ino);
    }
  }

  lemma {:induction false} ForgetGrowth(fs: Fs, ino: nat, n: nat)
    ensures Growth(fs, Forget(fs, ino, n)) <= 0
  {
    hide UseBlocks, UseInodes, Wrap;
    HeadGrowth(fs, ino, 0 - n);
    var f := AddLookups(fs, ino, 0 - n);
    if Live(fs, ino) {
      SumUpdate(f.nodes, ino, None, BlocksW());
    }
  }

  lemma {:induction false} RmdirGrowth(fs: Fs, p: nat, name: Name)
    requires Lawful(fs)
    ensures Growth(fs, Rmdir(fs, p, name).0) <= 0
  {
    hide SumBlocks, RemoveChild, AddLinks, Drained, Lawful;
    if CheckParent(fs, p) == OK {
      var ino := ChildIno(Children(fs, p), name);
      var f := AddLinks(RemoveChild(fs, p, name), p, -1);
      RemoveGrowth(fs, p, name);
      HeadGrowth(RemoveChild(fs, p, name), p, -1);
      if Live(f, ino) {
        var h := At(f, ino).h;
        SetNodeGrowth(f, SetHead(f, ino, h.(nlink := Drained(h.nlink))), ino);
      }
    }
  }

  lemma {:induction false} RenameGrowth(fs: Fs, p: nat, name: Name, np: nat, newname: Name)
    requires Lawful(fs)
    ensures Growth(fs, Rename(fs, p, name, np, newname).0) <= fs.stat.bfree
  {
    hide Lawful, SumBlocks, AddChild, UpdateChild, RemoveChild, AddLinks, IsEmpty;
    if RenameCheck(fs, p, name, np) == OK {
      var src, dst := ChildIno(Children(fs, p), name), ChildIno(Children(fs, np), newname);
      if Occupied(fs, dst) {
        var h0 := AddLinks(fs, dst, -1);
        var h1 := UpdateChild(h0, np, newname, src);
        var h2 := RemoveChild(h1, p, name);
        HeadGrowth(fs, dst, -1);
        LinksLawful(fs, dst, -1);
        UpdateGrowth(h0, np, newname, src);
        UpdateLawful(h0, np, newname, src);
        RemoveGrowth(h1, p, name);
        HeadGrowth(h2, dst, -2);
        HeadGrowth(AddLinks(h2, dst, -2), p, -1);
      } else {
        var f1 := AddChild(fs, np, newname, src).0;
        var f2 := RemoveChild(f1, p, name);
        AddGrowth(fs, np, newname, src);
        AddLawful(fs, np, newname, src);
        RemoveGrowth(f1, p, name);
        HeadGrowth(f2, p, -1);
        HeadGrowth(AddLinks(f2, p, -1), np, 1);
      }
    }
  }

  /** No request but a create takes more blocks than are free. */
  lemma {:induction false} OthersCovered(fs: Fs, op: Op)
    requires Lawful(fs) && !IsCreate(op) && !op.CheckpointOp? && !op.RestoreOp?
    ensures Growth(fs, FsStep(fs, op).0) <= fs.stat.bfree
  {
    hide Lawful, SumBlocks, AddChild, RemoveChild, AddLinks, AddLookups, SetData, Overwrite, Resized;
    hide Rename, Rmdir, Forget, HasSpaceFor, Write, Truncate;
    match op
    case LookupOp(p, name) =>
      if CheckParent(fs, p) == OK {
        HeadGrowth(fs, ChildIno(Children(fs, p), name), 1);
      }
    case UnlinkOp(p, name) =>
      if CheckParent(fs, p) == OK {
        RemoveGrowth(fs, p, name);
        HeadGrowth(RemoveChild(fs, p, name), ChildIno(Children(fs, p), name), -1);
      }
    case RmdirOp(p, name) => RmdirGrowth(fs, p, name);
    case RenameOp(p, name, np, newname) => RenameGrowth(fs, p, name, np, newname);
    case LinkOp(ino, np, newname) =>
      var f := AddChild(fs, np, newname, ino).0;
      AddGrowth(fs, np, newname, ino);
      HeadGrowth(f, ino, 1);
      HeadGrowth(AddLinks(f, ino, 1), ino, 1);
    case ForgetOp(ino, n) => ForgetGrowth(fs, ino, n);
    case WriteOp(_, _, _, _) => DataGrowth(fs, op);
    case TruncateOp(_, _, _) => DataGrowth(fs, op);
    case ReadOp(_, _, _) =>
    case SetAttrOp(ino, mode, meta) =>
      if Live(fs, ino) {
        SetNodeGrowth(fs, SetHead(fs, ino, At(fs, ino).h.(mode := mode, meta := meta)), ino);
      }
  }

  // ---------------------------------------------------------------- when it wraps

  /** What a request's charges and refunds add up to. */
  ghost function Spent(fs: Fs, op: Op): int
    requires !op.CheckpointOp? && !op.RestoreOp?
  {
    Growth(fs, FsStep(fs, op).0) + DriftOf(fs, op)
  }

  /** The blocks a create charges without asking are free: its node's, and those of
      the undoing when the name does not fit. */
  predicate Covered(fs: Fs, op: Op) {
    IsCreate(op) && Attempt(fs, op).Some? ==>
      var n := Attempt(fs, op).value;
      Charge(n) + (if Enters(fs, op) then 0 else n.h.blocks) <= fs.stat.bfree
  }

  lemma {:induction false} WrapCancel(k: int, a: int, b: int)
    requires Wrap(k - a) == Wrap(k - b)
    ensures Wrap(a) == Wrap(b)
  {
    var m := 0x1_0000_0000_0000_0000;
    assert ((k - b) - (k - a)) % m == 0;
    assert (a - b) % m == 0;
  }

  /** f_bfree after any request, as the 64-bit difference. */
  lemma {:induction false} FreeBlocks(fs: Fs, op: Op)
    requires SlotsOk(fs) && !op.CheckpointOp? && !op.RestoreOp?
    ensures FsStep(fs, op).0.stat.bfree == Wrap(fs.stat.bfree - Spent(fs, op))
  {
    hide FsStep, SlotsOk, SumBlocks, DriftOf, Wrap;
    var g := FsStep(fs, op).0;
    BlockLaw(fs, op);
    WrapShift(Excess(fs), DriftOf(fs, op));
    WrapCancel(fs.stat.blocks - SumBlocks(g), g.stat.bfree, fs.stat.bfree - Spent(fs, op));
    WrapExact(g.stat.bfree);
  }

  lemma {:induction false} PlacedGrowth(fs: Fs, n: Node)
    requires SlotsOk(fs)
    ensures Growth(fs, Placed(fs, n)) == n.h.blocks
  {
    if fs.deleted == [] {
      SumAppend(fs.nodes, Some(n), BlocksW());
    } else {
      assert fs.deleted[0] in fs.deleted;
      SumUpdate(fs.nodes, NextSlot(fs), Some(n), BlocksW());
    }
  }

  lemma {:induction false} AbandonedGrowth(fs: Fs, n: Node)
    ensures Growth(fs, Abandoned(fs, n)) == 0
  {
    SumAppend(fs.nodes, None, BlocksW());
  }

  lemma {:induction false} FinishedGrowth(fs: Fs, n: Node, p: nat, name: Name)
    requires SlotsOk(fs) && Lawful(fs) && NodeLaw(n)
    ensures var more := Growth(fs, Finished(fs, n, p, name)) - n.h.blocks;
            0 <= more && (Charge(n) <= fs.stat.bfree ==> Charge(n) + more <= fs.stat.bfree)
  {
    hide SumBlocks, AddChild, AddLinks, AddLookups, SlotsOk, NodeLaw;
    var f0 := Placed(fs, n);
    var f1 := AddChild(f0, p, name, NextSlot(fs)).0;
    PlacedGrowth(fs, n);
    PutLawful(fs, f0, NextSlot(fs), Some(n));
    hide Lawful;
    AddGrowth(f0, p, name, NextSlot(fs));
    HeadGrowth(f1, p, 1);
    HeadGrowth(f1, NextSlot(fs), 1);
    HeadGrowth(AddLinks(f1, p, 1), NextSlot(fs), 1);
  }

  lemma {:induction false} AttemptLawful(fs: Fs, op: Op)
    requires SlotsOk(fs) && IsCreate(op) && Attempt(fs, op).Some?
    ensures NodeLaw(Attempt(fs, op).value)
  {
    hide NewBody, NewNode, CreateMode, NodeLaw;
    assert fs.deleted != [] ==> fs.deleted[0] in fs.deleted;
    NewNodeOk(fs, op.p, CreateMode(op), CreateLink(op), op.meta);
  }

  lemma {:induction false} SpentIff(fs: Fs, op: Op)
    requires SlotsOk(fs) && Lawful(fs) && !op.CheckpointOp? && !op.RestoreOp?
    ensures Spent(fs, op) <= fs.stat.bfree <==> Covered(fs, op)
    ensures IsCreate(op) ==> Spent(fs, op) >= 0
  {
    hide FsStep, SlotsOk, Lawful, SumBlocks, Attempt, Enters, NodeLaw, Finished, Abandoned;
    if !IsCreate(op) {
      OthersCovered(fs, op);
    } else {
      CreateOutcome(fs, op);
      if Attempt(fs, op).Some? {
        var n := Attempt(fs, op).value;
        AttemptLawful(fs, op);
        NewDirHasOneBlock(fs, op);
        FinishedGrowth(fs, n, op.p, op.name);
        AbandonedGrowth(fs, n);
      } else {
        NotAttempted(fs, op);
      }
    }
  }

  /** A create leaves f_bfree less by exactly what it charges if and only if the
      charge is covered; otherwise the counter wraps. */
  lemma {:induction false} CreateWrapsIff(fs: Fs, op: Op)
    requires SlotsOk(fs) && Lawful(fs) && IsCreate(op)
    ensures FsStep(fs, op).0.stat.bfree == fs.stat.bfree - Spent(fs, op) <==> Covered(fs, op)
  {
    hide FsStep, SlotsOk, Lawful, Spent, Covered;
    FreeBlocks(fs, op);
    SpentIff(fs, op);
  }

  lemma {:induction false} OwnedBlocks(fs: Fs)
    ensures SumBlocks(fs) >= 0
  {
    SumBounds(fs.nodes, BlocksW());
  }

  /** The block law over the integers: the excess grows by exactly DriftOf if and only
      if the request is covered. */
  lemma {:induction false} ExactIff(fs: Fs, op: Op)
    requires SlotsOk(fs) && Lawful(fs) && !op.CheckpointOp? && !op.RestoreOp? && Excess(fs) >= 0
    ensures Excess(FsStep(fs, op).0) == Excess(fs) + DriftOf(fs, op) <==> Covered(fs, op)
    ensures FsStep(fs, op).0.stat.blocks == fs.stat.blocks
  {
    hide FsStep, SlotsOk, Lawful, SumBlocks, DriftOf, Covered, Drift;
    FreeBlocks(fs, op);
    SpentIff(fs, op);
    BlockLaw(fs, op);
    OwnedBlocks(FsStep(fs, op).0);
  }

  // ------------------------------------------------------------------- whole runs

  /** What the requests of a run add to the drift of the live file system. */
  function TotalDrift(st: State, ops: seq<Op>): nat
    requires forall k :: 0 <= k < |ops| ==> !ops[k].RestoreOp?
    decreases |ops|
  {
    if ops == [] then 0
    else (if ops[0].CheckpointOp? then 0 else DriftOf(st.live, ops[0])) + TotalDrift(Step(st, ops[0]).0, ops[1..])
  }

  /** The block law modulo 2^64 over any run without restore. */
  lemma {:induction false} RunDrift(st: State, ops: seq<Op>)
    requires SlotsOk(st.live) && SparingRun(st, ops) && forall k :: 0 <= k < |ops| ==> !ops[k].RestoreOp?
    ensures Drift(Run(st, ops).live) == Wrap(Drift(st.live) + TotalDrift(st, ops))
    ensures Run(st, ops).live.stat.blocks == st.live.stat.blocks
    decreases |ops|
  {
    hide FsStep, Drift, DriftOf, SlotsOk, Spares, Wrap;
    WrapExact(Drift(st.live));
    if ops != [] {
      var op, next := ops[0], Step(st, ops[0]).0;
      if !op.CheckpointOp? {
        StepSlots(st.live, op);
        BlockLaw(st.live, op);
        WrapShift(Drift(st.live) + DriftOf(st.live, op), TotalDrift(next, ops[1..]));
      }
      RunDrift(next, ops[1..]);
    }
  }

  ghost predicate CoveredRun(st: State, ops: seq<Op>)
    decreases |ops|
  {
    ops != [] ==> Covered(st.live, ops[0]) && CoveredRun(Step(st, ops[0]).0, ops[1..])
  }

  /** The integer law for every run whose creates are covered. */
  lemma {:induction false} RunExact(st: State, ops: seq<Op>)
    requires SlotsOk(st.live) && Lawful(st.live) && BenignRun(st, ops)
    requires forall k :: 0 <= k < |ops| ==> !ops[k].RestoreOp?
    requires Excess(st.live) >= 0 && CoveredRun(st, ops)
    ensures Excess(Run(st, ops).live) == Excess(st.live) + TotalDrift(st, ops)
    decreases |ops|
  {
    hide FsStep, Excess, DriftOf, SlotsOk, Covered, Lawful, Spares, KeepsType;
    if ops != [] {
      if !ops[0].CheckpointOp? {
        StepSlots(st.live, ops[0]);
        FsStepLawful(st.live, ops[0]);
        ExactIff(st.live, ops[0]);
      }
      RunExact(Step(st, ops[0]).0, ops[1..]);
    }
  }

  /** For every run at all: at its end the integer law holds if and only if the blocks
      owned and the excess together are no more than f_blocks. */
  lemma {:induction false} RunExactIff(st: State, ops: seq<Op>)
    requires SlotsOk(st.live) && SparingRun(st, ops) && forall k :: 0 <= k < |ops| ==> !ops[k].RestoreOp?
    requires Excess(st.live) >= 0
    ensures var g, due := Run(st, ops).live, Excess(st.live) + TotalDrift(st, ops);
            Excess(g) == due <==> SumBlocks(g) + due <= g.stat.blocks
  {
    hide SlotsOk, SumBlocks, Run, TotalDrift, SparingRun, Wrap;
    var g, due := Run(st, ops).live, Excess(st.live) + TotalDrift(st, ops);
    RunDrift(st, ops);
    OwnedBlocks(g);
    WrapShift(Excess(st.live), TotalDrift(st, ops));
    WrapCancel(g.stat.blocks - SumBlocks(g), g.stat.bfree, g.stat.blocks - SumBlocks(g) - due);
    WrapExact(g.stat.bfree);
    if SumBlocks(g) + due <= g.stat.blocks {
      WrapExact(g.stat.blocks - SumBlocks(g) - due);
    }
  }

  /** Every mount starts with an excess of one block, the root's second charge. */
  lemma {:induction false} MountedExcess(capacity: word, inodes: word, fixed: seq<byte>, rootMode: nat, meta: seq<byte>)
    requires Mountable(capacity, inodes)
    ensures Excess(Mounted(capacity, inodes, fixed, rootMode, meta)) == 1
  {
    hide Init;
    var fs := Mounted(capacity, inodes, fixed, rootMode, meta);
    InitShape(capacity / 512, inodes, fixed, rootMode, meta);
    assert fs.nodes == [fs.nodes[0]] + [fs.nodes[1]] && [] + [fs.nodes[0]] == [fs.nodes[0]];
    SumAppend([fs.nodes[0]], fs.nodes[1], BlocksW());
    SumAppend([], fs.nodes[0], BlocksW());
  }
}
