/** The size law and unique names in every table whatever, loaded ones included:
    nothing is asked of slots, queue, link counts or the tree. */
module Laws {
  import opened Base
  import opened Model
  import opened Graph
  import opened Invariant
  import opened Runs

  ghost predicate Lawful(fs: Fs) {
    forall i: nat :: Live(fs, i) ==> NodeLaw(At(fs, i))
  }

  ghost predicate StateLawful(st: State) {
    Lawful(st.live) && forall k :: k in st.pool ==> Lawful(st.pool[k])
  }

  /** setattr keeps the type bits; all other requests are free. */
  predicate KeepsType(fs: Fs, op: Op) {
    op.SetAttrOp? && Live(fs, op.ino) ==> TypeBits(op.mode) == TypeBits(At(fs, op.ino).h.mode)
  }

  lemma {:induction false} OkIsLawful(fs: Fs)
    requires TableOk(fs)
    ensures Lawful(fs)
  {
    forall i: nat | Live(fs, i) ensures NodeLaw(At(fs, i)) {
      assert NodeOk(i, At(fs, i));
    }
  }

  /** Attributes: st_blocks is st_size in 512-byte blocks, rounded up; st_size is the
      length of a file or link text, and for a directory the base size plus a fixed
      cost and the name length per entry; class and type bits agree; names are unique. */
  lemma {:induction false} Attributes(fs: Fs, i: nat)
    requires Lawful(fs) && Live(fs, i)
    ensures var h := At(fs, i).h; h.size <= 512 * h.blocks < h.size + 512 && Castable(At(fs, i))
    ensures match At(fs, i).body
            case FileBody(data) => At(fs, i).h.size == |data|
            case DirBody(es) => At(fs, i).h.size == DIR_BASE + Sum(es, CostW()) && UniqueNames(es)
            case LinkBody(t) => At(fs, i).h.size == |t|
            case SpecialBody(_) => At(fs, i).h.size == 0
  {
    hide Sum;
    assert NodeLaw(At(fs, i));
  }

  // ------------------------------------------------------------------ primitives

  lemma {:induction false} PutLawful(fs: Fs, g: Fs, i: nat, o: Option<Node>)
    requires Lawful(fs) && g.nodes == PutSlot(fs.nodes, i, o) && (o.Some? ==> NodeLaw(o.value))
    ensures Lawful(g)
  {
    hide NodeLaw;
    forall j: nat | Live(g, j) ensures NodeLaw(At(g, j)) {
      assert g.nodes[j] == o || (Live(fs, j) && At(g, j) == At(fs, j));
    }
  }

  lemma {:induction false} HeadLawful(fs: Fs, i: nat, h: Head)
    requires Lawful(fs) && Live(fs, i) && TypeBits(h.mode) == TypeBits(At(fs, i).h.mode)
    requires h.size == At(fs, i).h.size && h.blocks == At(fs, i).h.blocks
    ensures Lawful(SetHead(fs, i, h))
  {
    PutLawful(fs, SetHead(fs, i, h), i, Some(At(fs, i).(h := h)));
  }

  lemma {:induction false} LinksLawful(fs: Fs, i: nat, n: int)
    requires Lawful(fs)
    ensures Lawful(AddLinks(fs, i, n)) && Lawful(AddLookups(fs, i, n))
  {
    hide NodeLaw, Wrap;
    if Live(fs, i) {
      HeadLawful(fs, i, At(AddLinks(fs, i, n), i).h);
      HeadLawful(fs, i, At(AddLookups(fs, i, n), i).h);
    }
  }

  lemma {:induction false} AddLawful(fs: Fs, d: nat, name: Name, ino: nat)
    requires Lawful(fs)
    ensures Lawful(AddChild(fs, d, name, ino).0)
  {
    hide UseBlocks, HasSpaceFor, NBlocks, TypeBits;
    var g := AddChild(fs, d, name, ino).0;
    if AddChild(fs, d, name, ino).1 == OK {
      SumAppend(Children(fs, d), Entry(name, ino), CostW());
      assert NodeLaw(At(fs, d));
      PutLawful(fs, g, d, g.nodes[d]);
    }
  }

  lemma {:induction false} UpdateLawful(fs: Fs, d: nat, name: Name, ino: nat)
    requires Lawful(fs)
    ensures Lawful(UpdateChild(fs, d, name, ino))
  {
    hide NBlocks, TypeBits;
    if IsDir(fs, d) && Find(Children(fs, d), name) < |Children(fs, d)| {
      var es, g := Children(fs, d), UpdateChild(fs, d, name, ino);
      SumUpdate(es, Find(es, name), Entry(name, ino), CostW());
      assert NodeLaw(At(fs, d));
      PutLawful(fs, g, d, g.nodes[d]);
    }
  }

  /** The negative-size assertion cannot fire in any lawful table. */
  lemma {:induction false} NoNegativeSize(fs: Fs, d: nat, name: Name)
    requires Lawful(fs) && IsDir(fs, d) && Find(Children(fs, d), name) < |Children(fs, d)|
    ensures Cost(name) + DIR_BASE <= At(fs, d).h.size
  {
    var es := Children(fs, d);
    assert NodeLaw(At(fs, d));
    SumBounds(es, CostW());
    assert CostW()(es[Find(es, name)]) == Cost(name);
  }

  lemma {:induction false} RemoveLawful(fs: Fs, d: nat, name: Name)
    requires Lawful(fs)
    ensures Lawful(RemoveChild(fs, d, name))
  {
    hide UseBlocks, NBlocks, TypeBits, Sum;
    if IsDir(fs, d) && Find(Children(fs, d), name) < |Children(fs, d)| {
      var es, g := Children(fs, d), RemoveChild(fs, d, name);
      NoNegativeSize(fs, d, name);
      SumRemove(es, Find(es, name), CostW());
      assert NodeLaw(At(fs, d));
      PutLawful(fs, g, d, g.nodes[d]);
    }
  }

  lemma {:induction false} DataLawful(fs: Fs, i: nat, data: seq<byte>)
    requires Lawful(fs) && IsFile(fs, i)
    ensures Lawful(SetData(fs, i, data))
  {
    hide UseBlocks, TypeBits;
    var g := SetData(fs, i, data);
    assert NodeLaw(At(fs, i));
    PutLawful(fs, g, i, g.nodes[i]);
  }

  lemma {:induction false} RegisterLawful(fs: Fs, mode: nat, nlink: word, meta: seq<byte>, link: Option<seq<byte>>)
    requires Lawful(fs) && NewBody(mode, link).Some?
    ensures Lawful(Register(fs, mode, nlink, meta, NewBody(mode, link).value))
  {
    hide UseBlocks, UseInodes;
    var body := NewBody(mode, link).value;
    PutLawful(fs, Register(fs, mode, nlink, meta, body), NextSlot(fs),
              Some(Fresh(NextSlot(fs), mode, nlink, meta, body)));
  }

  // -------------------------------------------------------------------- requests

  lemma {:induction false} CreateLawful(fs: Fs, p: nat, name: Name, mode: nat, link: Option<seq<byte>>, meta: seq<byte>)
    requires Lawful(fs)
    ensures Lawful(ReplyNew(DoCreateNode(fs, p, name, mode, link, meta)).0)
  {
    hide Lawful, Register, AddChild, NewBody, AddLinks, AddLookups, DeleteInode;
    if NewBody(mode, link).Some? && fs.stat.ffree != 0 {
      var body, ino := NewBody(mode, link).value, NextSlot(fs);
      var f0 := Register(fs, mode, if body.DirBody? then 2 else 1, meta, body);
      RegisterLawful(fs, mode, if body.DirBody? then 2 else 1, meta, link);
      var up := if Live(fs, p) then At(fs, p).h.ino else p;
      AddLawful(f0, ino, DOT, ino);
      AddLawful(AddChild(f0, ino, DOT, ino).0, ino, DOTDOT, up);
      var f := Prepared(fs, p, mode, body, meta);
      var g := AddChild(f, p, name, ino).0;
      AddLawful(f, p, name, ino);
      RollbackLawful(g, ino);
      LinksLawful(g, p, 1);
      LinksLawful(g, ino, 1);
      LinksLawful(AddLinks(g, p, 1), ino, 1);
    }
  }

  lemma {:induction false} RollbackLawful(fs: Fs, ino: nat)
    requires Lawful(fs)
    ensures Lawful(Rollback(fs, ino))
  {
    PutLawful(fs, Rollback(fs, ino), ino, None);
  }

  lemma {:induction false} RmdirLawful(fs: Fs, p: nat, name: Name)
    requires Lawful(fs)
    ensures Lawful(Rmdir(fs, p, name).0)
  {
    hide Lawful, RemoveChild, AddLinks, Drained;
    if CheckParent(fs, p) == OK {
      var ino := ChildIno(Children(fs, p), name);
      var f := AddLinks(RemoveChild(fs, p, name), p, -1);
      RemoveLawful(fs, p, name);
      LinksLawful(RemoveChild(fs, p, name), p, -1);
      if Live(f, ino) {
        HeadLawful(f, ino, At(f, ino).h.(nlink := Drained(At(f, ino).h.nlink)));
      }
    }
  }

  lemma {:induction false} RenameLawful(fs: Fs, p: nat, name: Name, np: nat, newname: Name)
    requires Lawful(fs)
    ensures Lawful(Rename(fs, p, name, np, newname).0)
  {
    hide Lawful, AddChild, UpdateChild, RemoveChild, AddLinks, IsEmpty;
    if RenameCheck(fs, p, name, np) == OK {
      var src, dst := ChildIno(Children(fs, p), name), ChildIno(Children(fs, np), newname);
      var f1 := AddChild(fs, np, newname, src).0;
      var f2 := RemoveChild(f1, p, name);
      AddLawful(fs, np, newname, src);
      RemoveLawful(f1, p, name);
      LinksLawful(f2, p, -1);
      LinksLawful(AddLinks(f2, p, -1), np, 1);
      var h0 := AddLinks(fs, dst, -1);
      var h1 := UpdateChild(h0, np, newname, src);
      var h2 := RemoveChild(h1, p, name);
      LinksLawful(fs, dst, -1);
      UpdateLawful(h0, np, newname, src);
      RemoveLawful(h1, p, name);
      LinksLawful(h2, dst, -2);
      LinksLawful(AddLinks(h2, dst, -2), p, -1);
    }
  }

  lemma {:induction false} ForgetLawful(fs: Fs, ino: nat, n: nat)
    requires Lawful(fs)
    ensures Lawful(Forget(fs, ino, n))
  {
    hide Lawful, AddLookups, UseBlocks, UseInodes;
    if Live(fs, ino) {
      LinksLawful(fs, ino, 0 - n);
      StillLive(fs, ino, 0 - n);
      PutLawful(AddLookups(fs, ino, 0 - n), DeleteInode(AddLookups(fs, ino, 0 - n), ino), ino, None);
      SameNodesLawful(DeleteInode(AddLookups(fs, ino, 0 - n), ino), Forget(fs, ino, n));
    }
  }

  lemma {:induction false} StillLive(fs: Fs, i: nat, n: int)
    requires Live(fs, i)
    ensures Live(AddLookups(fs, i, n), i)
  {
  }

  lemma {:induction false} SameNodesLawful(fs: Fs, g: Fs)
    ensures Lawful(fs) && g.nodes == fs.nodes ==> Lawful(g)
  {
    assert g.nodes == fs.nodes ==> forall i: nat :: Live(g, i) ==> Live(fs, i) && At(g, i) == At(fs, i);
  }

  /** Every request keeps the laws of every lawful table. */
  lemma {:induction false} FsStepLawful(fs: Fs, op: Op)
    requires Lawful(fs) && KeepsType(fs, op) && !op.CheckpointOp? && !op.RestoreOp?
    ensures Lawful(FsStep(fs, op).0)
  {
    hide Lawful, AddChild, RemoveChild, AddLinks, AddLookups, DoCreateNode, ReplyNew, SetData, Overwrite, Resized;
    hide Rename, Rmdir, Forget, SymlinkRoom, HasSpaceFor;
    match op
    case LookupOp(p, name) =>
      if CheckParent(fs, p) == OK {
        LinksLawful(fs, ChildIno(Children(fs, p), name), 1);
      }
    case MknodOp(p, name, mode, meta) => CreateLawful(fs, p, name, mode, None, meta);
    case MkdirOp(p, name, mode, meta) => CreateLawful(fs, p, name, OrBit(mode, S_IFDIR), None, meta);
    case SymlinkOp(target, p, name, meta) => CreateLawful(fs, p, name, SYMLINK_MODE, Some(target), meta);
    case CreateOp(p, name, mode, meta) => CreateLawful(fs, p, name, OrBit(mode, S_IFREG), None, meta);
    case UnlinkOp(p, name) =>
      if CheckParent(fs, p) == OK {
        RemoveLawful(fs, p, name);
        LinksLawful(RemoveChild(fs, p, name), ChildIno(Children(fs, p), name), -1);
      }
    case RmdirOp(p, name) => RmdirLawful(fs, p, name);
    case RenameOp(p, name, np, newname) => RenameLawful(fs, p, name, np, newname);
    case LinkOp(ino, np, newname) =>
      var f := AddChild(fs, np, newname, ino).0;
      AddLawful(fs, np, newname, ino);
      LinksLawful(f, ino, 1);
      LinksLawful(AddLinks(f, ino, 1), ino, 1);
    case ForgetOp(ino, n) => ForgetLawful(fs, ino, n);
    case WriteOp(ino, data, off, mem) =>
      if IsFile(fs, ino) {
        DataLawful(fs, ino, Overwrite(At(fs, ino).body.data, data, off));
      }
    case TruncateOp(ino, size, mem) =>
      if IsFile(fs, ino) {
        DataLawful(fs, ino, Resized(At(fs, ino).body.data, size));
      }
    case ReadOp(_, _, _) =>
    case SetAttrOp(ino, mode, meta) =>
      if Live(fs, ino) {
        HeadLawful(fs, ino, At(fs, ino).h.(mode := mode, meta := meta));
      }
  }

  ghost predicate TypeKeepingRun(st: State, ops: seq<Op>)
    decreases |ops|
  {
    ops != [] ==> KeepsType(st.live, ops[0]) && TypeKeepingRun(Step(st, ops[0]).0, ops[1..])
  }

  /** So do all runs, restores included, from every lawful state. */
  lemma {:induction false} RunLawful(st: State, ops: seq<Op>)
    requires StateLawful(st) && TypeKeepingRun(st, ops)
    ensures StateLawful(Run(st, ops))
    decreases |ops|
  {
    hide Lawful, FsStep, KeepsType;
    if ops != [] {
      if !ops[0].CheckpointOp? && !ops[0].RestoreOp? {
        FsStepLawful(st.live, ops[0]);
      }
      RunLawful(Step(st, ops[0]).0, ops[1..]);
    }
  }
}
