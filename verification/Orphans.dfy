/** A directory replaced by rename: its wrapped link count keeps its slot for good. */
module Orphans {
  import opened Base
  import opened Model
  import opened Graph
  import opened Invariant
  import opened Namespace
  import opened RenameProofs
  import opened Runs
  import opened Laws
  import opened Accounting
  import opened Slots
  import opened Names

  const ALL_ONES: word := 0xFFFF_FFFF_FFFF_FFFF

  /** No entry but a dot leads to x. */
  ghost predicate NamesNot(fs: Fs, x: nat) {
    forall p: nat, k: nat :: IsDir(fs, p) && k < |Children(fs, p)| && !Dot(Children(fs, p)[k].name) ==>
      Children(fs, p)[k].ino != x
  }

  /** No entry of x but a dot leads to a directory. */
  ghost predicate NoDirsIn(fs: Fs, x: nat)
    requires IsDir(fs, x)
  {
    forall k: nat :: k < |Children(fs, x)| && !Dot(Children(fs, x)[k].name) ==> !IsDir(fs, Children(fs, x)[k].ino)
  }

  ghost predicate Orphan(fs: Fs, x: nat) {
    IsDir(fs, x) && x != ROOT && At(fs, x).h.nlink == ALL_ONES && NamesNot(fs, x) && NoDirsIn(fs, x)
  }

  lemma {:induction false} UnnamedIff(fs: Fs, x: nat)
    ensures NamesNot(fs, x) <==> LinksTo(fs, x) == 0
  {
    if NamesNot(fs, x) {
      forall i: nat | i < |fs.nodes| ensures HolderW(x)(fs.nodes[i]) == 0 {
        if IsDir(fs, i) {
          SumZero(Children(fs, i), NamesW(x));
        }
      }
      SumZero(fs.nodes, HolderW(x));
    } else {
      var p: nat, k: nat :| IsDir(fs, p) && k < |Children(fs, p)| && !Dot(Children(fs, p)[k].name)
                            && Children(fs, p)[k].ino == x;
      EntryCounts(fs, p, k);
    }
  }

  // ------------------------------------------------------------------ primitives

  lemma {:induction false} LinksKeep(fs: Fs, i: nat, n: int, x: nat)
    requires Orphan(fs, x)
    ensures i != x ==> Orphan(AddLinks(fs, i, n), x)
    ensures Orphan(AddLookups(fs, i, n), x)
  {
    hide Wrap;
    assert forall p: nat :: IsDir(AddLinks(fs, i, n), p) <==> IsDir(fs, p);
    assert forall p: nat :: IsDir(fs, p) ==> Children(AddLinks(fs, i, n), p) == Children(fs, p);
    assert forall p: nat :: IsDir(AddLookups(fs, i, n), p) <==> IsDir(fs, p);
    assert forall p: nat :: IsDir(fs, p) ==> Children(AddLookups(fs, i, n), p) == Children(fs, p);
  }

  lemma {:induction false} HeadKeeps(fs: Fs, i: nat, h: Head, x: nat)
    requires Orphan(fs, x) && Live(fs, i) && (i == x ==> h.nlink == At(fs, i).h.nlink)
    ensures Orphan(SetHead(fs, i, h), x)
  {
    var g := SetHead(fs, i, h);
    assert forall p: nat :: IsDir(g, p) <==> IsDir(fs, p);
    assert forall p: nat :: IsDir(fs, p) ==> Children(g, p) == Children(fs, p);
  }

  /** Changing the entries of one directory, none of the new ones for x. */
  lemma {:induction false} EntriesKeep(fs: Fs, g: Fs, d: nat, x: nat)
    requires Orphan(fs, x) && IsDir(fs, d) && IsDir(g, d) && g.nodes == fs.nodes[d := g.nodes[d]]
    requires At(g, d).h.nlink == At(fs, d).h.nlink
    requires forall e :: e in Children(g, d) && !Dot(e.name) ==>
               e in Children(fs, d) || (e.ino != x && (d == x ==> !IsDir(fs, e.ino)))
    ensures Orphan(g, x)
  {
    forall k: nat | k < |Children(g, x)| && !Dot(Children(g, x)[k].name) ensures !IsDir(g, Children(g, x)[k].ino) {
      var e := Children(g, x)[k];
      assert e in Children(g, x);
      if d != x || e in Children(fs, d) {
        var j :| 0 <= j < |Children(fs, x)| && Children(fs, x)[j] == e;
      }
    }
    forall p: nat, k: nat | IsDir(g, p) && k < |Children(g, p)| && !Dot(Children(g, p)[k].name)
      ensures Children(g, p)[k].ino != x
    {
      if p == d {
        var e := Children(g, d)[k];
        assert e in Children(g, d);
        if e in Children(fs, d) {
          var j :| 0 <= j < |Children(fs, d)| && Children(fs, d)[j] == e;
        }
      } else {
        assert Children(g, p) == Children(fs, p);
      }
    }
  }

  lemma {:induction false} AddKeeps(fs: Fs, d: nat, name: Name, ino: nat, x: nat)
    requires Orphan(fs, x) && ino != x && (d == x ==> !IsDir(fs, ino))
    ensures Orphan(AddChild(fs, d, name, ino).0, x)
  {
    hide UseBlocks, NBlocks, HasSpaceFor, Orphan;
    if AddChild(fs, d, name, ino).1 == OK {
      EntriesKeep(fs, AddChild(fs, d, name, ino).0, d, x);
    }
  }

  lemma {:induction false} UpdateKeeps(fs: Fs, d: nat, name: Name, ino: nat, x: nat)
    requires Orphan(fs, x) && ino != x && (d == x ==> !IsDir(fs, ino))
    ensures Orphan(UpdateChild(fs, d, name, ino), x)
  {
    hide Orphan;
    if IsDir(fs, d) {
      EntriesKeep(fs, UpdateChild(fs, d, name, ino), d, x);
    }
  }

  lemma {:induction false} RemoveKeeps(fs: Fs, d: nat, name: Name, x: nat)
    requires Orphan(fs, x)
    ensures Orphan(RemoveChild(fs, d, name), x)
  {
    hide UseBlocks, NBlocks, Orphan;
    if IsDir(fs, d) {
      EntriesKeep(fs, RemoveChild(fs, d, name), d, x);
    }
  }

  lemma {:induction false} DataKeeps(fs: Fs, i: nat, data: seq<byte>, x: nat)
    requires Orphan(fs, x) && IsFile(fs, i)
    ensures Orphan(SetData(fs, i, data), x)
  {
    hide UseBlocks, NBlocks;
    var g := SetData(fs, i, data);
    assert forall p: nat :: IsDir(g, p) <==> IsDir(fs, p);
    assert forall p: nat :: IsDir(fs, p) ==> Children(g, p) == Children(fs, p);
  }

  /** Filling or clearing a slot other than x. */
  lemma {:induction false} SlotKeeps(fs: Fs, g: Fs, i: nat, o: Option<Node>, x: nat)
    requires Orphan(fs, x) && i != x && i <= |fs.nodes| && g.nodes == PutSlot(fs.nodes, i, o)
    requires o.Some? && o.value.body.DirBody? ==>
               forall k :: 0 <= k < |o.value.body.children| ==> Dot(o.value.body.children[k].name)
    requires o.Some? ==> forall e :: e in Children(fs, x) && !Dot(e.name) ==> e.ino != i
    ensures Orphan(g, x)
  {
    forall k: nat | k < |Children(g, x)| && !Dot(Children(g, x)[k].name) ensures !IsDir(g, Children(g, x)[k].ino) {
      var e := Children(fs, x)[k];
      assert e in Children(fs, x);
      assert e.ino != i ==> (IsDir(g, e.ino) <==> IsDir(fs, e.ino));
    }
    forall p: nat, k: nat | IsDir(g, p) && k < |Children(g, p)| && !Dot(Children(g, p)[k].name)
      ensures Children(g, p)[k].ino != x
    {
      assert g.nodes[p] != o ==> IsDir(fs, p) && Children(g, p) == Children(fs, p);
    }
  }

  // -------------------------------------------------------------------- requests

  /** A name does not lead to the orphan; 0 stands for no name. */
  lemma {:induction false} ChildIsNot(fs: Fs, p: nat, name: Name, x: nat)
    requires Orphan(fs, x) && !IsDir(fs, 0) && IsDir(fs, p) && !Dot(name)
    ensures ChildIno(Children(fs, p), name) != x
    ensures p == x ==> !IsDir(fs, ChildIno(Children(fs, p), name))
  {
  }

  /** A sober request neither creates nor moves anything into the orphan. */
  lemma {:induction false} NoRoomIn(fs: Fs, p: nat, x: nat)
    requires Orphan(fs, x) && RoomToLink(fs, p)
    ensures p != x
  {
  }

  lemma {:induction false} NothingAt(fs: Fs, x: nat, i: nat)
    requires NamesOk(fs) && Orphan(fs, x) && !Live(fs, i)
    ensures forall e :: e in Children(fs, x) && !Dot(e.name) ==> e.ino != i
  {
    hide NamesOk, LinksTo;
    forall e | e in Children(fs, x) && !Dot(e.name) ensures e.ino != i {
      var k :| 0 <= k < |Children(fs, x)| && Children(fs, x)[k] == e;
      NameLeads(fs, x, k);
    }
  }

  lemma {:induction false} CreateKeeps(fs: Fs, op: Op, x: nat)
    requires Safe(fs) && Orphan(fs, x) && IsCreate(op) && Sober(fs, op)
    ensures Orphan(FsStep(fs, op).0, x)
  {
    hide FsStep, Orphan, Tidy, NamesOk, SlotsOk, Enters, AddChild, AddLinks, AddLookups, NewNode, NewBody;
    TidyTable(fs);
    CreateOutcome(fs, op);
    if Attempt(fs, op).Some? {
      var n, ino := Attempt(fs, op).value, NextSlot(fs);
      NoRoomIn(fs, op.p, x);
      SlotIsNot(fs, x);
      NextIsFree(fs);
      NothingAt(fs, x, ino);
      DotsOnly(fs, op);
      SlotKeeps(fs, Placed(fs, n), ino, Some(n), x);
      AbandonedKeeps(fs, n, x);
      var f := AddChild(Placed(fs, n), op.p, op.name, ino).0;
      AddKeeps(Placed(fs, n), op.p, op.name, ino, x);
      LinksKeep(f, op.p, 1, x);
      LinksKeep(f, ino, 1, x);
      LinksKeep(AddLinks(f, op.p, 1), ino, 1, x);
    } else {
      NotAttempted(fs, op);
    }
  }

  lemma {:induction false} SlotIsNot(fs: Fs, x: nat)
    requires SlotsOk(fs) && Orphan(fs, x)
    ensures NextSlot(fs) != x && NextSlot(fs) <= |fs.nodes|
  {
    assert fs.deleted != [] ==> fs.deleted[0] in fs.deleted;
  }

  lemma {:induction false} DotsOnly(fs: Fs, op: Op)
    requires IsCreate(op) && Attempt(fs, op).Some?
    ensures var n := Attempt(fs, op).value;
            n.body.DirBody? ==> forall k :: 0 <= k < |n.body.children| ==> Dot(n.body.children[k].name)
  {
    hide NewBody, TypeBits;
  }

  lemma {:induction false} AbandonedKeeps(fs: Fs, n: Node, x: nat)
    requires Orphan(fs, x)
    ensures Orphan(Abandoned(fs, n), x)
  {
    hide UseBlocks;
    var g := Abandoned(fs, n);
    assert forall p: nat :: IsDir(g, p) <==> IsDir(fs, p);
    assert forall p: nat :: IsDir(fs, p) ==> Children(g, p) == Children(fs, p);
  }

  lemma {:induction false} RmdirKeeps(fs: Fs, p: nat, name: Name, x: nat)
    requires Orphan(fs, x) && !IsDir(fs, 0) && !Dot(name)
    ensures Orphan(Rmdir(fs, p, name).0, x)
  {
    hide Orphan, RemoveChild, AddLinks, Drained, IsEmpty;
    if Rmdir(fs, p, name).1 == Done {
      ChildIsNot(fs, p, name, x);
      var ino := ChildIno(Children(fs, p), name);
      var f := AddLinks(RemoveChild(fs, p, name), p, -1);
      RemoveKeeps(fs, p, name, x);
      LinksKeep(RemoveChild(fs, p, name), p, -1, x);
      if Live(f, ino) {
        HeadKeeps(f, ino, At(f, ino).h.(nlink := Drained(At(f, ino).h.nlink)), x);
      }
    }
  }

  lemma {:induction false} RenameKeeps(fs: Fs, p: nat, name: Name, np: nat, newname: Name, x: nat)
    requires TableOk(fs) && Orphan(fs, x) && !IsDir(fs, 0) && Sober(fs, RenameOp(p, name, np, newname))
    ensures Orphan(Rename(fs, p, name, np, newname).0, x)
  {
    hide Orphan, AddChild, UpdateChild, RemoveChild, AddLinks, IsEmpty, TableOk;
    if RenameCheck(fs, p, name, np) == OK {
      var src, dst := ChildIno(Children(fs, p), name), ChildIno(Children(fs, np), newname);
      ChildIsNot(fs, p, name, x);
      ChildIsNot(fs, np, newname, x);
      NoRoomIn(fs, np, x);
      ModeIsKind(fs, src);
      if Occupied(fs, dst) {
        var h0 := AddLinks(fs, dst, -1);
        var h1 := UpdateChild(h0, np, newname, src);
        var h2 := RemoveChild(h1, p, name);
        LinksKeep(fs, dst, -1, x);
        UpdateKeeps(h0, np, newname, src, x);
        RemoveKeeps(h1, p, name, x);
        LinksKeep(h2, dst, -2, x);
        LinksKeep(AddLinks(h2, dst, -2), p, -1, x);
      } else {
        var f1 := AddChild(fs, np, newname, src).0;
        var f2 := RemoveChild(f1, p, name);
        AddKeeps(fs, np, newname, src, x);
        RemoveKeeps(f1, p, name, x);
        LinksKeep(f2, p, -1, x);
        if p != x {
          LinksKeep(AddLinks(f2, p, -1), np, 1, x);
        }
      }
    }
  }

  lemma {:induction false} ModeIsKind(fs: Fs, i: nat)
    requires TableOk(fs) && Live(fs, i)
    ensures IsDirMode(At(fs, i).h.mode) <==> IsDir(fs, i)
  {
    assert NodeOk(i, At(fs, i));
  }

  lemma {:induction false} ForgetKeeps(fs: Fs, ino: nat, n: nat, x: nat)
    requires Orphan(fs, x)
    ensures Orphan(Forget(fs, ino, n), x)
  {
    LinksKeep(fs, ino, 0 - n, x);
    var f := AddLookups(fs, ino, 0 - n);
    if Live(fs, ino) && At(f, ino).h.nlookup == 0 && At(f, ino).h.nlink == 0 {
      SlotKeeps(f, Forget(fs, ino, n), ino, None, x);
    }
  }

  lemma {:induction false} FsStepKeeps(fs: Fs, op: Op, x: nat)
    requires Safe(fs) && Orphan(fs, x) && Sober(fs, op) && !op.CheckpointOp? && !op.RestoreOp?
    ensures Orphan(FsStep(fs, op).0, x)
  {
    hide Orphan, Tidy, NamesOk, TableOk, AddChild, RemoveChild, AddLinks, AddLookups, SetData, Overwrite, Resized;
    hide Rename, Rmdir, Forget, HasSpaceFor, RenameCheck;
    TidyTable(fs);
    ZeroIsNoDir(fs);
    if IsCreate(op) {
      CreateKeeps(fs, op, x);
    } else {
      match op
      case LookupOp(p, name) =>
        if CheckParent(fs, p) == OK {
          LinksKeep(fs, ChildIno(Children(fs, p), name), 1, x);
        }
      case UnlinkOp(p, name) =>
        if CheckParent(fs, p) == OK {
          ChildIsNot(fs, p, name, x);
          RemoveKeeps(fs, p, name, x);
          LinksKeep(RemoveChild(fs, p, name), ChildIno(Children(fs, p), name), -1, x);
        }
      case RmdirOp(p, name) => RmdirKeeps(fs, p, name, x);
      case RenameOp(p, name, np, newname) => RenameKeeps(fs, p, name, np, newname, x);
      case LinkOp(ino, np, newname) =>
        OrphanIsDir(fs, x);
        var f := AddChild(fs, np, newname, ino).0;
        AddKeeps(fs, np, newname, ino, x);
        LinksKeep(f, ino, 1, x);
        LinksKeep(AddLinks(f, ino, 1), ino, 1, x);
      case ForgetOp(ino, n) => ForgetKeeps(fs, ino, n, x);
      case WriteOp(ino, data, off, mem) =>
        if IsFile(fs, ino) {
          DataKeeps(fs, ino, Overwrite(At(fs, ino).body.data, data, off), x);
        }
      case TruncateOp(ino, size, mem) =>
        if IsFile(fs, ino) {
          DataKeeps(fs, ino, Resized(At(fs, ino).body.data, size), x);
        }
      case ReadOp(_, _, _) =>
      case SetAttrOp(ino, mode, meta) =>
        if Live(fs, ino) {
          HeadKeeps(fs, ino, At(fs, ino).h.(mode := mode, meta := meta), x);
        }
    }
  }

  lemma {:induction false} ZeroIsNoDir(fs: Fs)
    requires Tidy(fs)
    ensures !IsDir(fs, 0)
  {
    hide SlotsOk, Lawful, Tagged;
  }

  lemma {:induction false} OrphanIsDir(fs: Fs, x: nat)
    requires Orphan(fs, x)
    ensures IsDir(fs, x)
  {
  }

  // ------------------------------------------------------------------- whole runs

  lemma {:induction false} OrphanStays(st: State, ops: seq<Op>, x: nat)
    requires StateSafe(st) && Orphan(st.live, x) && SoberRun(st, ops)
    requires forall k :: 0 <= k < |ops| ==> !ops[k].RestoreOp?
    ensures StateSafe(Run(st, ops)) && Orphan(Run(st, ops).live, x)
    decreases |ops|
  {
    hide Orphan, Safe, FsStep, Sober;
    if ops != [] {
      StepSafe(st, ops[0]);
      if !ops[0].CheckpointOp? {
        FsStepKeeps(st.live, ops[0], x);
      }
      OrphanStays(Step(st, ops[0]).0, ops[1..], x);
    }
  }

  /** Once a legal rename has replaced a directory, no sober run without restore reclaims
      its slot or gives its number out again: it stays, unnamed, with 2^64 - 1 links. */
  lemma {:induction false} ReplacedNeverReclaimed(st: State, p: nat, name: Name, np: nat, newname: Name, ops: seq<Op>)
    requires StateOk(st) && Legal(st, RenameOp(p, name, np, newname))
    requires Rename(st.live, p, name, np, newname).1 == Done
    requires var dst := ChildIno(Children(st.live, np), newname); IsDir(st.live, dst) && Occupied(st.live, dst)
    requires SoberRun(Step(st, RenameOp(p, name, np, newname)).0, ops)
    requires forall k :: 0 <= k < |ops| ==> !ops[k].RestoreOp?
    ensures var dst := ChildIno(Children(st.live, np), newname);
            var g := Run(Step(st, RenameOp(p, name, np, newname)).0, ops).live;
            Orphan(g, dst) && dst !in g.deleted
  {
    hide FsOk, Safe, Replace, Move, RenameLegal, RenameFits, SoberRun, Run, NamesNot, NoDirsIn, LinksTo, Subdirs;
    var op, dst := RenameOp(p, name, np, newname), ChildIno(Children(st.live, np), newname);
    var next := Step(st, op).0;
    StepOk(st, op);
    ReplacedDirectory(st.live, p, name, np, newname);
    UnnamedIff(next.live, dst);
    NothingIn(next.live, dst);
    OkStateIsSafe(next);
    OrphanStays(next, ops, dst);
    NotQueued(Run(next, ops).live, dst);
  }

  lemma {:induction false} OkStateIsSafe(st: State)
    requires StateOk(st)
    ensures StateSafe(st)
  {
    hide FsOk, Safe;
    OkIsSafe(st.live);
    forall k | k in st.pool ensures Safe(st.pool[k]) {
      OkIsSafe(st.pool[k]);
    }
  }

  /** An unnamed directory of a state that satisfies the invariant has no entries. */
  lemma {:induction false} NothingIn(fs: Fs, x: nat)
    requires FsOk(fs) && IsDir(fs, x) && x != ROOT && LinksTo(fs, x) == 0
    ensures NoDirsIn(fs, x)
  {
    hide TableOk, SlotsOk, LinksOk, In, Subdirs;
    NoEntries(fs, x);
  }

  lemma {:induction false} NotQueued(fs: Fs, x: nat)
    requires Safe(fs) && IsDir(fs, x)
    ensures x !in fs.deleted
  {
    hide NamesOk, Numbered, Lawful;
  }
}
