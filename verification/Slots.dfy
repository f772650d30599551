/** Slots, numbers and counters under every request whatever: nothing is asked of names,
    parents, link counts or the tree, only that no forget reclaims slot 0 or the root. */
module Slots {
  import opened Base
  import opened Model
  import opened Graph
  import opened Invariant
  import opened Namespace
  import opened Runs
  import opened Laws
  import opened Accounting

  /** The forget that reclaims inode i. */
  predicate Reclaims(fs: Fs, op: Op, i: nat) {
    && op.ForgetOp? && op.ino == i && Live(fs, i)
    && Wrap(At(fs, i).h.nlookup - op.n) == 0 && At(fs, i).h.nlink == 0
  }

  predicate Spares(fs: Fs, op: Op) {
    !Reclaims(fs, op, 0) && !Reclaims(fs, op, ROOT)
  }

  /** Each request of the run spares the placeholder and the root. */
  ghost predicate SparingRun(st: State, ops: seq<Op>)
    decreases |ops|
  {
    ops != [] ==> Spares(st.live, ops[0]) && SparingRun(Step(st, ops[0]).0, ops[1..])
  }

  // ----------------------------------------------------------------- the slot law

  lemma {:induction false} LookupSlots(fs: Fs, i: nat, n: int)
    ensures SameSlots(fs, AddLookups(fs, i, n))
  {
  }

  lemma {:induction false} CreateSlots(fs: Fs, op: Op)
    requires SlotsOk(fs) && IsCreate(op)
    ensures SlotsOk(FsStep(fs, op).0)
  {
    hide FsStep, SlotsOk, Enters, Finished, Abandoned, NewNode;
    CreateOutcome(fs, op);
    if Attempt(fs, op).Some? {
      AbandonedUnseen(fs, Attempt(fs, op).value);
      FinishedSlots(fs, Attempt(fs, op).value, op.p, op.name);
    } else {
      NotAttempted(fs, op);
    }
  }

  lemma {:induction false} FinishedSlots(fs: Fs, n: Node, p: nat, name: Name)
    requires SlotsOk(fs) && fs.stat.ffree != 0
    ensures SlotsOk(Finished(fs, n, p, name)) && LiveCount(Finished(fs, n, p, name)) == LiveCount(fs) + 1
    ensures Finished(fs, n, p, name).stat.files == fs.stat.files
  {
    hide SlotsOk, AddChild, AddLinks, AddLookups, Drift, LiveCount, Wrap;
    var f0, ino := Placed(fs, n), NextSlot(fs);
    FillSlot(fs, f0, n);
    var f1 := AddChild(f0, p, name, ino).0;
    AddChildSteady(f0, p, name, ino);
    AddLinksSteady(f1, p, 1);
    var f2 := if n.body.DirBody? then AddLinks(f1, p, 1) else f1;
    SameSlotsOk(f0, f1);
    SameSlotsOk(f1, f2);
    LookupSlots(f2, ino, 1);
    SameSlotsOk(f2, AddLookups(f2, ino, 1));
  }

  lemma {:induction false} ForgetSlots(fs: Fs, op: Op)
    requires SlotsOk(fs) && op.ForgetOp? && Spares(fs, op)
    ensures SlotsOk(Forget(fs, op.ino, op.n)) && LiveCount(Forget(fs, op.ino, op.n)) <= LiveCount(fs)
    ensures Forget(fs, op.ino, op.n).stat.files == fs.stat.files
  {
    hide SlotsOk, LiveCount, Wrap;
    var f := AddLookups(fs, op.ino, 0 - op.n);
    LookupSlots(fs, op.ino, 0 - op.n);
    SameSlotsOk(fs, f);
    if Reclaims(fs, op, op.ino) {
      ClearSlot(f, Forget(fs, op.ino, op.n), op.ino);
    }
  }

  lemma {:induction false} OtherSlots(fs: Fs, op: Op)
    requires op.LookupOp? || op.LinkOp?
    ensures SameSlots(fs, FsStep(fs, op).0)
  {
    hide AddLookups, AddLinks, AddChild, Drift;
    if op.LookupOp? {
      if IsDir(fs, op.p) {
        LookupSlots(fs, ChildIno(Children(fs, op.p), op.name), 1);
      }
    } else {
      var f := AddChild(fs, op.np, op.newname, op.ino).0;
      AddChildSteady(fs, op.np, op.newname, op.ino);
      AddLinksSteady(f, op.ino, 1);
      LookupSlots(AddLinks(f, op.ino, 1), op.ino, 1);
    }
  }

  /** Every request, legal or not, keeps the slot law. */
  lemma {:induction false} StepSlots(fs: Fs, op: Op)
    requires SlotsOk(fs) && Spares(fs, op) && !op.CheckpointOp? && !op.RestoreOp?
    ensures SlotsOk(FsStep(fs, op).0)
  {
    hide FsStep, SlotsOk, Reclaims, Drift;
    if IsCreate(op) {
      CreateSlots(fs, op);
    } else if IsQuiet(op) {
      QuietSteady(fs, op);
      SameSlotsOk(fs, FsStep(fs, op).0);
    } else if op.ForgetOp? {
      ForgetSlots(fs, op);
      ForgetIs(fs, op);
    } else {
      OtherSlots(fs, op);
      SameSlotsOk(fs, FsStep(fs, op).0);
    }
  }

  lemma {:induction false} ForgetIs(fs: Fs, op: Op)
    requires op.ForgetOp?
    ensures FsStep(fs, op) == (Forget(fs, op.ino, op.n), Done)
  {
  }

  ghost predicate StateSlots(st: State) {
    SlotsOk(st.live) && forall k :: k in st.pool ==> SlotsOk(st.pool[k])
  }

  /** So does every run, restores included, in the live table and all snapshots. */
  lemma {:induction false} RunSlots(st: State, ops: seq<Op>)
    requires StateSlots(st) && SparingRun(st, ops)
    ensures StateSlots(Run(st, ops))
    decreases |ops|
  {
    hide SlotsOk, FsStep, Spares;
    if ops != [] {
      if !ops[0].CheckpointOp? && !ops[0].RestoreOp? {
        StepSlots(st.live, ops[0]);
      }
      RunSlots(Step(st, ops[0]).0, ops[1..]);
    }
  }

  // ---------------------------------------------------------- numbers and the zero

  /** Slot i holds inode number i; only the placeholder has no type. */
  ghost predicate Tagged(fs: Fs) {
    forall i: nat :: Live(fs, i) ==> Tag(i, At(fs, i))
  }

  predicate Tag(i: nat, n: Node) {
    n.h.ino == i && (n.body.SpecialBody? ==> if i == 0 then n.h.mode == 0 else IsSpecialMode(n.h.mode))
  }

  /** No name leads to number 0, which is taken by an inode without links. */
  ghost predicate ZeroFree(fs: Fs) {
    && Live(fs, 0) && !IsDir(fs, 0) && At(fs, 0).h.nlink == 0
    && forall p: nat, k: nat :: IsDir(fs, p) && k < |Children(fs, p)| && !Dot(Children(fs, p)[k].name) ==>
         Children(fs, p)[k].ino != 0
  }

  ghost predicate Numbered(fs: Fs) {
    Tagged(fs) && ZeroFree(fs)
  }

  lemma {:induction false} TableIff(fs: Fs)
    ensures TableOk(fs) <==> Tagged(fs) && Lawful(fs)
  {
    hide NodeLaw;
    if TableOk(fs) {
      forall i: nat | Live(fs, i) ensures Tag(i, At(fs, i)) && NodeLaw(At(fs, i)) {
        assert NodeOk(i, At(fs, i));
      }
    }
    if Tagged(fs) && Lawful(fs) {
      forall i: nat | Live(fs, i) ensures NodeOk(i, At(fs, i)) {
        assert Tag(i, At(fs, i)) && NodeLaw(At(fs, i));
      }
    }
  }

  /** One node replaced by another with the same tag and no entry for 0. */
  lemma {:induction false} NodeNumbered(fs: Fs, g: Fs, i: nat)
    requires Numbered(fs) && Live(fs, i) && Live(g, i) && g.nodes == fs.nodes[i := g.nodes[i]]
    requires Tag(i, At(g, i)) && (IsDir(g, i) <==> IsDir(fs, i))
    requires i == 0 ==> At(g, i).h.nlink == 0
    requires IsDir(g, i) ==>
               Children(g, i) == Children(fs, i) || forall e :: e in Children(g, i) && !Dot(e.name) ==> e.ino != 0
    ensures Numbered(g)
  {
    forall j: nat | Live(g, j) ensures Tag(j, At(g, j)) {
      assert j != i ==> Live(fs, j) && At(g, j) == At(fs, j);
    }
    forall p: nat, k: nat | IsDir(g, p) && k < |Children(g, p)| && !Dot(Children(g, p)[k].name)
      ensures Children(g, p)[k].ino != 0
    {
      assert Children(g, p)[k] in Children(g, p);
      assert p != i ==> IsDir(fs, p) && Children(g, p) == Children(fs, p);
    }
  }

  lemma {:induction false} LinksNumbered(fs: Fs, i: nat, n: int)
    requires Numbered(fs)
    ensures i != 0 ==> Numbered(AddLinks(fs, i, n))
    ensures Numbered(AddLookups(fs, i, n))
  {
    hide Wrap, IsSpecialMode;
    if Live(fs, i) {
      assert Tag(i, At(fs, i));
      if i != 0 {
        NodeNumbered(fs, AddLinks(fs, i, n), i);
      }
      NodeNumbered(fs, AddLookups(fs, i, n), i);
    }
  }

  lemma {:induction false} HeadNumbered(fs: Fs, i: nat, h: Head)
    requires Numbered(fs) && Live(fs, i) && i != 0 && h.ino == At(fs, i).h.ino
    requires TypeBits(h.mode) == TypeBits(At(fs, i).h.mode)
    ensures Numbered(SetHead(fs, i, h))
  {
    assert Tag(i, At(fs, i));
    NodeNumbered(fs, SetHead(fs, i, h), i);
  }

  lemma {:induction false} AddNumbered(fs: Fs, d: nat, name: Name, ino: nat)
    requires Numbered(fs) && ino != 0
    ensures Numbered(AddChild(fs, d, name, ino).0)
  {
    hide UseBlocks, NBlocks, HasSpaceFor, IsSpecialMode;
    if AddChild(fs, d, name, ino).1 == OK {
      assert Tag(d, At(fs, d));
      NodeNumbered(fs, AddChild(fs, d, name, ino).0, d);
    }
  }

  lemma {:induction false} UpdateNumbered(fs: Fs, d: nat, name: Name, ino: nat)
    requires Numbered(fs) && ino != 0
    ensures Numbered(UpdateChild(fs, d, name, ino))
  {
    hide IsSpecialMode;
    if IsDir(fs, d) {
      assert Tag(d, At(fs, d));
      NodeNumbered(fs, UpdateChild(fs, d, name, ino), d);
    }
  }

  lemma {:induction false} RemoveNumbered(fs: Fs, d: nat, name: Name)
    requires Numbered(fs)
    ensures Numbered(RemoveChild(fs, d, name))
  {
    hide UseBlocks, NBlocks, IsSpecialMode;
    if IsDir(fs, d) {
      assert Tag(d, At(fs, d));
      NodeNumbered(fs, RemoveChild(fs, d, name), d);
    }
  }

  lemma {:induction false} DataNumbered(fs: Fs, i: nat, data: seq<byte>)
    requires Numbered(fs) && IsFile(fs, i)
    ensures Numbered(SetData(fs, i, data))
  {
    hide UseBlocks, NBlocks, IsSpecialMode;
    assert Tag(i, At(fs, i));
    NodeNumbered(fs, SetData(fs, i, data), i);
  }

  /** Filling or clearing a slot other than 0. */
  lemma {:induction false} SlotNumbered(fs: Fs, g: Fs, i: nat, o: Option<Node>)
    requires Numbered(fs) && 0 < i <= |fs.nodes| && g.nodes == PutSlot(fs.nodes, i, o)
    requires o.Some? ==> Tag(i, o.value)
    requires o.Some? && o.value.body.DirBody? ==>
               forall k :: 0 <= k < |o.value.body.children| ==> Dot(o.value.body.children[k].name)
    ensures Numbered(g)
  {
    forall j: nat | Live(g, j) ensures Tag(j, At(g, j)) {
      assert j != i ==> Live(fs, j) && At(g, j) == At(fs, j);
    }
    forall p: nat, k: nat | IsDir(g, p) && k < |Children(g, p)| && !Dot(Children(g, p)[k].name)
      ensures Children(g, p)[k].ino != 0
    {
      assert p != i ==> IsDir(fs, p) && Children(g, p) == Children(fs, p);
    }
  }

  // -------------------------------------------------------------------- requests

  lemma {:induction false} NextIsFree(fs: Fs)
    requires SlotsOk(fs)
    ensures 0 < NextSlot(fs) <= |fs.nodes| && !Live(fs, NextSlot(fs))
  {
    assert fs.deleted != [] ==> fs.deleted[0] in fs.deleted;
  }

  lemma {:induction false} NewTag(fs: Fs, op: Op)
    requires SlotsOk(fs) && Numbered(fs) && IsCreate(op) && Attempt(fs, op).Some?
    ensures var n := Attempt(fs, op).value;
            && Tag(NextSlot(fs), n)
            && (n.body.DirBody? ==> forall k :: 0 <= k < |n.body.children| ==> Dot(n.body.children[k].name))
  {
    hide NewBody, CreateMode, NodeLaw, SlotsOk;
    NextIsFree(fs);
    NewNodeOk(fs, op.p, CreateMode(op), CreateLink(op), op.meta);
  }

  lemma {:induction false} CreateNumbered(fs: Fs, op: Op)
    requires SlotsOk(fs) && Numbered(fs) && IsCreate(op)
    ensures Numbered(FsStep(fs, op).0)
  {
    hide FsStep, SlotsOk, Numbered, Enters, AddChild, AddLinks, AddLookups, Attempt;
    CreateOutcome(fs, op);
    if Attempt(fs, op).Some? {
      var n, ino := Attempt(fs, op).value, NextSlot(fs);
      NextIsFree(fs);
      NewTag(fs, op);
      ParentNotZero(fs, op);
      SlotNumbered(fs, Placed(fs, n), ino, Some(n));
      AbandonedNumbered(fs, n);
      var f := AddChild(Placed(fs, n), op.p, op.name, ino).0;
      AddNumbered(Placed(fs, n), op.p, op.name, ino);
      LinksNumbered(f, op.p, 1);
      LinksNumbered(f, ino, 1);
      LinksNumbered(AddLinks(f, op.p, 1), ino, 1);
    } else {
      NotAttempted(fs, op);
    }
  }

  lemma {:induction false} ParentNotZero(fs: Fs, op: Op)
    requires Numbered(fs) && IsCreate(op) && Attempt(fs, op).Some?
    ensures op.p != 0
  {
    hide NewBody, NewNode;
  }

  lemma {:induction false} AbandonedNumbered(fs: Fs, n: Node)
    requires SlotsOk(fs) && Numbered(fs)
    ensures Numbered(Abandoned(fs, n))
  {
    hide UseBlocks;
    NextIsFree(fs);
    assert fs.deleted != [] ==> fs.deleted[0] in fs.deleted;
    assert Abandoned(fs, n).nodes == PutSlot(fs.nodes, NextSlot(fs), None);
    hide SlotsOk;
    SlotNumbered(fs, Abandoned(fs, n), NextSlot(fs), None);
  }

  lemma {:induction false} RmdirNumbered(fs: Fs, p: nat, name: Name)
    requires Numbered(fs)
    ensures Numbered(Rmdir(fs, p, name).0)
  {
    hide Tagged, RemoveChild, AddLinks, Drained, IsEmpty;
    if CheckParent(fs, p) == OK {
      assert p != 0;
      hide ZeroFree;
      var ino := ChildIno(Children(fs, p), name);
      var f := AddLinks(RemoveChild(fs, p, name), p, -1);
      RemoveNumbered(fs, p, name);
      LinksNumbered(RemoveChild(fs, p, name), p, -1);
      if ino != 0 && Live(f, ino) {
        HeadNumbered(f, ino, At(f, ino).h.(nlink := Drained(At(f, ino).h.nlink)));
      }
    }
  }

  lemma {:induction false} RenameNumbered(fs: Fs, p: nat, name: Name, np: nat, newname: Name)
    requires Numbered(fs)
    ensures Numbered(Rename(fs, p, name, np, newname).0)
  {
    hide Tagged, AddChild, UpdateChild, RemoveChild, AddLinks, IsEmpty;
    if RenameCheck(fs, p, name, np) == OK {
      var src, dst := ChildIno(Children(fs, p), name), ChildIno(Children(fs, np), newname);
      assert p != 0 && np != 0 && src != 0 && (Occupied(fs, dst) ==> dst != 0);
      hide ZeroFree;
      var f1 := AddChild(fs, np, newname, src).0;
      var f2 := RemoveChild(f1, p, name);
      AddNumbered(fs, np, newname, src);
      RemoveNumbered(f1, p, name);
      LinksNumbered(f2, p, -1);
      LinksNumbered(AddLinks(f2, p, -1), np, 1);
      if Occupied(fs, dst) {
        var h0 := AddLinks(fs, dst, -1);
        var h1 := UpdateChild(h0, np, newname, src);
        var h2 := RemoveChild(h1, p, name);
        LinksNumbered(fs, dst, -1);
        UpdateNumbered(h0, np, newname, src);
        RemoveNumbered(h1, p, name);
        LinksNumbered(h2, dst, -2);
        LinksNumbered(AddLinks(h2, dst, -2), p, -1);
      }
    }
  }

  lemma {:induction false} ForgetNumbered(fs: Fs, op: Op)
    requires Numbered(fs) && op.ForgetOp? && Spares(fs, op)
    ensures Numbered(Forget(fs, op.ino, op.n))
  {
    hide Numbered, Wrap, UseBlocks, UseInodes;
    var f := AddLookups(fs, op.ino, 0 - op.n);
    LinksNumbered(fs, op.ino, 0 - op.n);
    if Reclaims(fs, op, op.ino) {
      SlotNumbered(f, Forget(fs, op.ino, op.n), op.ino, None);
    }
  }

  /** Every request keeps numbers, types and the zero as they should be. */
  lemma {:induction false} StepNumbered(fs: Fs, op: Op)
    requires SlotsOk(fs) && Numbered(fs) && Spares(fs, op) && KeepsType(fs, op)
    requires !op.CheckpointOp? && !op.RestoreOp?
    ensures Numbered(FsStep(fs, op).0)
  {
    hide SlotsOk, Tagged, AddChild, RemoveChild, AddLinks, AddLookups, SetData, Overwrite, Resized, HasSpaceFor;
    hide Rename, Rmdir, Forget, Reclaims;
    if IsCreate(op) {
      CreateNumbered(fs, op);
    } else {
      match op
      case LookupOp(p, name) =>
        if CheckParent(fs, p) == OK {
          LinksNumbered(fs, ChildIno(Children(fs, p), name), 1);
        }
      case UnlinkOp(p, name) =>
        if CheckParent(fs, p) == OK {
          RemoveNumbered(fs, p, name);
          LinksNumbered(RemoveChild(fs, p, name), ChildIno(Children(fs, p), name), -1);
        }
      case RmdirOp(p, name) => RmdirNumbered(fs, p, name);
      case RenameOp(p, name, np, newname) => RenameNumbered(fs, p, name, np, newname);
      case LinkOp(ino, np, newname) =>
        if !Gone(fs, ino) {
          var f := AddChild(fs, np, newname, ino).0;
          AddNumbered(fs, np, newname, ino);
          LinksNumbered(f, ino, 1);
          LinksNumbered(AddLinks(f, ino, 1), ino, 1);
        }
      case ForgetOp(ino, n) => ForgetNumbered(fs, op);
      case WriteOp(ino, data, off, mem) =>
        if IsFile(fs, ino) {
          DataNumbered(fs, ino, Overwrite(At(fs, ino).body.data, data, off));
        }
      case TruncateOp(ino, size, mem) =>
        if IsFile(fs, ino) {
          DataNumbered(fs, ino, Resized(At(fs, ino).body.data, size));
        }
      case ReadOp(_, _, _) =>
      case SetAttrOp(ino, mode, meta) =>
        if !Gone(fs, ino) {
          HeadNumbered(fs, ino, At(fs, ino).h.(mode := mode, meta := meta));
        }
    }
  }

  // ------------------------------------------------------------------- whole runs

  /** All that holds of a table under every request: slots, numbers, and the laws of
      single inodes. */
  ghost predicate Tidy(fs: Fs) {
    SlotsOk(fs) && Numbered(fs) && Lawful(fs)
  }

  ghost predicate StateTidy(st: State) {
    Tidy(st.live) && forall k :: k in st.pool ==> Tidy(st.pool[k])
  }

  /** A request that spares 0 and the root and keeps type bits; otherwise anything. */
  predicate Benign(fs: Fs, op: Op) {
    Spares(fs, op) && KeepsType(fs, op)
  }

  ghost predicate BenignRun(st: State, ops: seq<Op>)
    decreases |ops|
  {
    ops != [] ==> Benign(st.live, ops[0]) && BenignRun(Step(st, ops[0]).0, ops[1..])
  }

  lemma {:induction false} StepTidy(st: State, op: Op)
    requires StateTidy(st) && Benign(st.live, op)
    ensures StateTidy(Step(st, op).0)
  {
    hide SlotsOk, Numbered, Lawful, FsStep, Spares, KeepsType;
    if !op.CheckpointOp? && !op.RestoreOp? {
      StepSlots(st.live, op);
      StepNumbered(st.live, op);
      FsStepLawful(st.live, op);
    }
  }

  lemma {:induction false} RunTidy(st: State, ops: seq<Op>)
    requires StateTidy(st) && BenignRun(st, ops)
    ensures StateTidy(Run(st, ops))
    decreases |ops|
  {
    hide Tidy, Step, Benign;
    if ops != [] {
      StepTidy(st, ops[0]);
      RunTidy(Step(st, ops[0]).0, ops[1..]);
    }
  }

  /** Slot conservation in a tidy table: the free queue lists exactly the null slots,
      once each, and never 0 or 1; slot i holds inode i; the slots in use are f_files
      less f_ffree; a name that is present never yields 0, so 0 can mean "not found". */
  lemma {:induction false} Conservation(fs: Fs)
    requires Tidy(fs)
    ensures NoDup(fs.deleted) && 0 !in fs.deleted && 1 !in fs.deleted
    ensures forall i: nat :: i in fs.deleted <==> i < |fs.nodes| && fs.nodes[i].None?
    ensures forall i: nat :: Live(fs, i) ==> At(fs, i).h.ino == i
    ensures fs.stat.ffree == Wrap(fs.stat.files - LiveCount(fs))
    ensures forall d: nat, name: Name :: IsDir(fs, d) && !Dot(name) ==>
              (ChildIno(Children(fs, d), name) == 0 <==> Find(Children(fs, d), name) == |Children(fs, d)|)
  {
    forall i: nat | Live(fs, i) ensures At(fs, i).h.ino == i {
      assert Tag(i, At(fs, i));
    }
    hide SlotsOk, Lawful, Tagged;
    forall d: nat, name: Name | IsDir(fs, d) && !Dot(name)
      ensures ChildIno(Children(fs, d), name) == 0 <==> Find(Children(fs, d), name) == |Children(fs, d)|
    {
      var k := Find(Children(fs, d), name);
      assert k < |Children(fs, d)| ==> Children(fs, d)[k].name == name;
    }
  }

  lemma {:induction false} InitTidy(blocks: word, files: word, fixed: seq<byte>, rootMode: nat, meta: seq<byte>)
    ensures StateTidy(State(Init(blocks, files, fixed, rootMode, meta), map[]))
  {
    hide Init, SlotsOk, LinksOk, TreeOk, TableOk;
    var fs := Init(blocks, files, fixed, rootMode, meta);
    InitShape(blocks, files, fixed, rootMode, meta);
    InitOk(blocks, files, fixed, rootMode, meta);
    TableIff(fs);
  }

  /** Slot conservation on every run from FuseInit, restores included, in the live table
      and every snapshot. */
  lemma {:induction false} SlotsConserved(blocks: word, files: word, fixed: seq<byte>, rootMode: nat, meta: seq<byte>,
                                          ops: seq<Op>)
    requires BenignRun(State(Init(blocks, files, fixed, rootMode, meta), map[]), ops)
    ensures StateTidy(Run(State(Init(blocks, files, fixed, rootMode, meta), map[]), ops))
  {
    hide Init, BenignRun, Run, Tidy;
    InitTidy(blocks, files, fixed, rootMode, meta);
    RunTidy(State(Init(blocks, files, fixed, rootMode, meta), map[]), ops);
  }

  // ------------------------------------------------------ number 0 in any table at all

  /** Slot 0 holds an inode without links and is not up for reuse.  This is asked and
      kept of loaded tables too, whose queue may list slots that are in use. */
  predicate ZeroHeld(fs: Fs) {
    Live(fs, 0) && At(fs, 0).h.nlink == 0 && 0 !in fs.deleted
  }

  lemma {:induction false} PrimitivesHoldZero(fs: Fs, d: nat, name: Name, ino: nat, n: int)
    requires ZeroHeld(fs)
    ensures ZeroHeld(AddChild(fs, d, name, ino).0) && ZeroHeld(UpdateChild(fs, d, name, ino))
    ensures ZeroHeld(RemoveChild(fs, d, name)) && ZeroHeld(AddLookups(fs, ino, n))
    ensures ino != 0 ==> ZeroHeld(AddLinks(fs, ino, n))
  {
    hide UseBlocks, NBlocks, HasSpaceFor, Wrap;
  }

  lemma {:induction false} CreateHoldsZero(fs: Fs, p: nat, name: Name, mode: nat, link: Option<seq<byte>>,
                                           meta: seq<byte>)
    requires ZeroHeld(fs) && p != 0
    ensures ZeroHeld(ReplyNew(DoCreateNode(fs, p, name, mode, link, meta)).0)
  {
    hide AddChild, AddLinks, AddLookups, NewBody, Fresh, UseBlocks, UseInodes, Rollback;
    if NewBody(mode, link).Some? && fs.stat.ffree != 0 {
      var body, ino := NewBody(mode, link).value, NextSlot(fs);
      assert ino != 0;
      var f0 := Register(fs, mode, if body.DirBody? then 2 else 1, meta, body);
      assert ZeroHeld(f0);
      hide Register, ZeroHeld;
      var up := if Live(fs, p) then At(fs, p).h.ino else p;
      PrimitivesHoldZero(f0, ino, DOT, ino, 0);
      PrimitivesHoldZero(AddChild(f0, ino, DOT, ino).0, ino, DOTDOT, up, 0);
      var f := Prepared(fs, p, mode, body, meta);
      var g := AddChild(f, p, name, ino).0;
      PrimitivesHoldZero(f, p, name, ino, 0);
      RollbackHoldsZero(g, ino);
      PrimitivesHoldZero(g, p, name, p, 1);
      PrimitivesHoldZero(g, p, name, ino, 1);
      PrimitivesHoldZero(AddLinks(g, p, 1), p, name, ino, 1);
    }
  }

  lemma {:induction false} RollbackHoldsZero(fs: Fs, ino: nat)
    requires ZeroHeld(fs) && ino != 0
    ensures ZeroHeld(Rollback(fs, ino))
  {
    hide UseBlocks, UseInodes;
  }

  lemma {:induction false} RenameHoldsZero(fs: Fs, p: nat, name: Name, np: nat, newname: Name)
    requires ZeroHeld(fs)
    ensures ZeroHeld(Rename(fs, p, name, np, newname).0)
  {
    hide AddChild, UpdateChild, RemoveChild, AddLinks, IsEmpty;
    if RenameCheck(fs, p, name, np) == OK {
      var src, dst := ChildIno(Children(fs, p), name), ChildIno(Children(fs, np), newname);
      assert p != 0 && np != 0 && (Occupied(fs, dst) ==> dst != 0);
      hide ZeroHeld;
      var f1 := AddChild(fs, np, newname, src).0;
      var f2 := RemoveChild(f1, p, name);
      PrimitivesHoldZero(fs, np, newname, src, 0);
      PrimitivesHoldZero(f1, p, name, p, 0);
      PrimitivesHoldZero(f2, p, name, p, -1);
      PrimitivesHoldZero(AddLinks(f2, p, -1), p, name, np, 1);
      if Occupied(fs, dst) {
        var h0 := AddLinks(fs, dst, -1);
        var h1 := UpdateChild(h0, np, newname, src);
        var h2 := RemoveChild(h1, p, name);
        PrimitivesHoldZero(fs, p, name, dst, -1);
        PrimitivesHoldZero(h0, np, newname, src, 0);
        PrimitivesHoldZero(h1, p, name, p, 0);
        PrimitivesHoldZero(h2, p, name, dst, -2);
        PrimitivesHoldZero(AddLinks(h2, dst, -2), p, name, p, -1);
      }
    }
  }

  /** Every request that does not reclaim number 0 keeps it so, in any table. */
  lemma {:induction false} StepHoldsZero(fs: Fs, op: Op)
    requires ZeroHeld(fs) && !Reclaims(fs, op, 0) && !op.CheckpointOp? && !op.RestoreOp?
    ensures ZeroHeld(FsStep(fs, op).0)
  {
    hide AddChild, RemoveChild, AddLinks, AddLookups, DoCreateNode, ReplyNew, Overwrite, Resized, HasSpaceFor;
    hide Rename, Rmdir, Forget, Write, Truncate, SetAttr, SymlinkRoom, Reclaims, CreateMode, OrBit;
    match op
    case LookupOp(p, name) =>
      if CheckParent(fs, p) == OK {
        PrimitivesHoldZero(fs, p, name, ChildIno(Children(fs, p), name), 1);
      }
    case MknodOp(p, name, mode, meta) =>
      if CheckParent(fs, p) == OK {
        CreateHoldsZero(fs, p, name, mode, None, meta);
      }
    case MkdirOp(p, name, mode, meta) =>
      if CheckParent(fs, p) == OK {
        CreateHoldsZero(fs, p, name, OrBit(mode, S_IFDIR), None, meta);
      }
    case SymlinkOp(target, p, name, meta) =>
      if CheckParent(fs, p) == OK {
        CreateHoldsZero(fs, p, name, SYMLINK_MODE, Some(target), meta);
      }
    case CreateOp(p, name, mode, meta) =>
      if CheckParent(fs, p) == OK {
        CreateHoldsZero(fs, p, name, OrBit(mode, S_IFREG), None, meta);
      }
    case UnlinkOp(p, name) =>
      if CheckParent(fs, p) == OK {
        PrimitivesHoldZero(fs, p, name, 0, 0);
        PrimitivesHoldZero(RemoveChild(fs, p, name), p, name, ChildIno(Children(fs, p), name), -1);
      }
    case RmdirOp(p, name) => RmdirHoldsZero(fs, p, name);
    case RenameOp(p, name, np, newname) => RenameHoldsZero(fs, p, name, np, newname);
    case LinkOp(ino, np, newname) =>
      if !Gone(fs, ino) {
        var f := AddChild(fs, np, newname, ino).0;
        PrimitivesHoldZero(fs, np, newname, ino, 0);
        PrimitivesHoldZero(f, np, newname, ino, 1);
        PrimitivesHoldZero(AddLinks(f, ino, 1), np, newname, ino, 1);
      }
    case ForgetOp(ino, n) => ForgetHoldsZero(fs, op);
    case WriteOp(_, _, _, _) => DataHoldsZero(fs, op);
    case TruncateOp(_, _, _) => DataHoldsZero(fs, op);
    case SetAttrOp(_, _, _) => DataHoldsZero(fs, op);
    case ReadOp(_, _, _) =>
  }

  lemma {:induction false} RmdirHoldsZero(fs: Fs, p: nat, name: Name)
    requires ZeroHeld(fs)
    ensures ZeroHeld(Rmdir(fs, p, name).0)
  {
    hide RemoveChild, AddLinks, Drained, IsEmpty;
    if CheckParent(fs, p) == OK {
      PrimitivesHoldZero(fs, p, name, 0, 0);
      PrimitivesHoldZero(RemoveChild(fs, p, name), p, name, p, -1);
    }
  }

  lemma {:induction false} DataHoldsZero(fs: Fs, op: Op)
    requires ZeroHeld(fs) && (op.WriteOp? || op.TruncateOp? || op.SetAttrOp?)
    ensures ZeroHeld(FsStep(fs, op).0)
  {
    hide UseBlocks, NBlocks, HasSpaceFor, Overwrite, Resized;
  }

  lemma {:induction false} ForgetHoldsZero(fs: Fs, op: Op)
    requires ZeroHeld(fs) && op.ForgetOp? && !Reclaims(fs, op, 0)
    ensures ZeroHeld(Forget(fs, op.ino, op.n))
  {
    hide UseBlocks, UseInodes, Wrap;
  }
}
