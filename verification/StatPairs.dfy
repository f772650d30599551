/** The two pairs of statvfs counters, for unprivileged users and in all, never part. */
module StatPairs {
  import opened Base
  import opened Model
  import opened StateCodec

  predicate Even(s: Stat) {
    s.bavail == s.bfree && s.favail == s.ffree
  }

  ghost predicate StateEven(st: State) {
    Even(st.live.stat) && forall k :: k in st.pool ==> Even(st.pool[k].stat)
  }

  lemma {:induction false} ChargesEven(s: Stat, blocks: int, inodes: int)
    requires Even(s)
    ensures Even(UseBlocks(s, blocks)) && Even(UseInodes(s, inodes))
  {
  }

  lemma {:induction false} AddEven(fs: Fs, d: nat, name: Name, ino: nat)
    requires Even(fs.stat)
    ensures Even(AddChild(fs, d, name, ino).0.stat)
  {
  }

  lemma {:induction false} RemoveEven(fs: Fs, d: nat, name: Name)
    requires Even(fs.stat)
    ensures Even(RemoveChild(fs, d, name).stat)
  {
  }

  lemma {:induction false} PreparedEven(fs: Fs, p: nat, mode: nat, body: Body, meta: seq<byte>)
    requires Even(fs.stat)
    ensures Even(Prepared(fs, p, mode, body, meta).stat)
  {
    hide AddChild;
    var f := Register(fs, mode, if body.DirBody? then 2 else 1, meta, body);
    var parent := if Live(fs, p) then At(fs, p).h.ino else p;
    AddEven(f, NextSlot(fs), DOT, NextSlot(fs));
    AddEven(AddChild(f, NextSlot(fs), DOT, NextSlot(fs)).0, NextSlot(fs), DOTDOT, parent);
  }

  lemma {:induction false} CreateEven(fs: Fs, p: nat, name: Name, mode: nat, link: Option<seq<byte>>, meta: seq<byte>)
    requires Even(fs.stat)
    ensures Even(ReplyNew(DoCreateNode(fs, p, name, mode, link, meta)).0.stat)
  {
    hide Prepared, AddChild;
    var body := NewBody(mode, link);
    if body.Some? {
      PreparedEven(fs, p, mode, body.value, meta);
      AddEven(Prepared(fs, p, mode, body.value, meta), p, name, NextSlot(fs));
    }
  }

  /** Every request keeps both pairs equal. */
  lemma {:induction false} StepEven(fs: Fs, op: Op)
    requires !op.CheckpointOp? && !op.RestoreOp? && Even(fs.stat)
    ensures Even(FsStep(fs, op).0.stat)
  {
    hide AddChild, RemoveChild, UpdateChild, DoCreateNode, ReplyNew, Overwrite, Resized, IsEmpty, Find, NumLinks;
    match op
    case MknodOp(p, name, mode, meta) => CreateEven(fs, p, name, mode, None, meta);
    case MkdirOp(p, name, mode, meta) => CreateEven(fs, p, name, OrBit(mode, S_IFDIR), None, meta);
    case CreateOp(p, name, mode, meta) => CreateEven(fs, p, name, OrBit(mode, S_IFREG), None, meta);
    case SymlinkOp(target, p, name, meta) => CreateEven(fs, p, name, SYMLINK_MODE, Some(target), meta);
    case UnlinkOp(p, name) => RemoveEven(fs, p, name);
    case RmdirOp(p, name) => RemoveEven(fs, p, name);
    case LinkOp(ino, np, newname) => AddEven(fs, np, newname, ino);
    case RenameOp(p, name, np, newname) => RenameEven(fs, p, name, np, newname);
    case _ =>
  }

  lemma {:induction false} RenameEven(fs: Fs, p: nat, name: Name, np: nat, newname: Name)
    requires Even(fs.stat)
    ensures Even(Rename(fs, p, name, np, newname).0.stat)
  {
    hide AddChild, RemoveChild, IsEmpty, Find, ReplaceCheck, Occupied;
    if RenameCheck(fs, p, name, np) == OK {
      var src, dst := ChildIno(Children(fs, p), name), ChildIno(Children(fs, np), newname);
      AddEven(fs, np, newname, src);
      RemoveEven(AddChild(fs, np, newname, src).0, p, name);
      RemoveEven(UpdateChild(AddLinks(fs, dst, -1), np, newname, src), p, name);
    }
  }

  /** So f_bavail is f_bfree and f_favail is f_ffree after any requests, checkpoints,
      restores and loads from FuseInit on, in the live file system and in every snapshot. */
  lemma {:induction false} EvenForever(st: State, es: seq<Event>)
    requires StateEven(st)
    ensures StateEven(RunEvents(st, es))
    decreases |es|
  {
    hide FsStep, Even, Copyable, Squeeze;
    if es != [] {
      var e := es[0];
      if e.Request? && !e.op.CheckpointOp? && !e.op.RestoreOp? {
        StepEven(st.live, e.op);
      }
      EvenForever(Next(st, e), es[1..]);
    }
  }

  lemma {:induction false} EvenFromInit(blocks: word, files: word, fixed: seq<byte>, rootMode: nat, meta: seq<byte>,
                                        es: seq<Event>)
    ensures StateEven(RunEvents(State(Init(blocks, files, fixed, rootMode, meta), map[]), es))
  {
    hide AddChild, RunEvents;
    var f0 := Register(Fs([], [], Sized(blocks, files, fixed)), 0, 0, meta, SpecialBody(0));
    var f1 := Register(f0, S_IFDIR + rootMode % 512, 2, meta, DirBody([]));
    AddEven(f1, 1, DOT, 1);
    AddEven(AddChild(f1, 1, DOT, 1).0, 1, DOTDOT, 1);
    EvenForever(State(Init(blocks, files, fixed, rootMode, meta), map[]), es);
  }
}
