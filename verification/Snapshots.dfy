/** Checkpoint and restore: what any run leaves of a snapshot. */
module Snapshots {
  import opened Base
  import opened Model
  import opened Invariant
  import opened Runs
  import opened Laws

  /** What checkpoint and restore need of a table: two slots, and inodes whose class and
      mode agree. */
  ghost predicate Storable(fs: Fs) {
    Lawful(fs) && |fs.nodes| >= 2
  }

  ghost predicate StateStorable(st: State) {
    Storable(st.live) && forall k :: k in st.pool ==> Storable(st.pool[k])
  }

  lemma {:induction false} StorableIsCopyable(fs: Fs)
    requires Storable(fs)
    ensures Copyable(fs)
  {
    forall i: nat | i < |fs.nodes| ensures fs.nodes[i].None? || Castable(fs.nodes[i].value) {
      if Live(fs, i) {
        assert NodeLaw(At(fs, i));
      }
    }
  }

  // ------------------------------------------------------ the table never shrinks

  lemma {:induction false} EntriesKeepLength(fs: Fs, d: nat, name: Name, ino: nat)
    ensures |AddChild(fs, d, name, ino).0.nodes| == |fs.nodes|
    ensures |UpdateChild(fs, d, name, ino).nodes| == |fs.nodes|
    ensures |RemoveChild(fs, d, name).nodes| == |fs.nodes|
  {
  }

  lemma {:induction false} LinksKeepLength(fs: Fs, i: nat, n: int)
    ensures |AddLinks(fs, i, n).nodes| == |fs.nodes| && |AddLookups(fs, i, n).nodes| == |fs.nodes|
  {
  }

  lemma {:induction false} CreateGrows(fs: Fs, p: nat, name: Name, mode: nat, link: Option<seq<byte>>, meta: seq<byte>)
    ensures |ReplyNew(DoCreateNode(fs, p, name, mode, link, meta)).0.nodes| >= |fs.nodes|
  {
    hide AddChild, AddLinks, AddLookups, NewBody, Fresh, UseBlocks, UseInodes;
    if NewBody(mode, link).Some? && fs.stat.ffree != 0 {
      var body, ino := NewBody(mode, link).value, NextSlot(fs);
      var f0 := Register(fs, mode, if body.DirBody? then 2 else 1, meta, body);
      var up := if Live(fs, p) then At(fs, p).h.ino else p;
      EntriesKeepLength(f0, ino, DOT, ino);
      EntriesKeepLength(AddChild(f0, ino, DOT, ino).0, ino, DOTDOT, up);
      var f := Prepared(fs, p, mode, body, meta);
      var g := AddChild(f, p, name, ino).0;
      EntriesKeepLength(f, p, name, ino);
      LinksKeepLength(g, p, 1);
      LinksKeepLength(g, ino, 1);
      LinksKeepLength(AddLinks(g, p, 1), ino, 1);
    }
  }

  lemma {:induction false} RenameKeepsLength(fs: Fs, p: nat, name: Name, np: nat, newname: Name)
    ensures |Rename(fs, p, name, np, newname).0.nodes| == |fs.nodes|
  {
    hide AddChild, UpdateChild, RemoveChild, AddLinks, IsEmpty;
    if RenameCheck(fs, p, name, np) == OK {
      var src, dst := ChildIno(Children(fs, p), name), ChildIno(Children(fs, np), newname);
      var f1 := AddChild(fs, np, newname, src).0;
      var f2 := RemoveChild(f1, p, name);
      EntriesKeepLength(fs, np, newname, src);
      EntriesKeepLength(f1, p, name, src);
      LinksKeepLength(f2, p, -1);
      LinksKeepLength(AddLinks(f2, p, -1), np, 1);
      var h0 := AddLinks(fs, dst, -1);
      var h1 := UpdateChild(h0, np, newname, src);
      var h2 := RemoveChild(h1, p, name);
      LinksKeepLength(fs, dst, -1);
      EntriesKeepLength(h0, np, newname, src);
      EntriesKeepLength(h1, p, name, src);
      LinksKeepLength(h2, dst, -2);
      LinksKeepLength(AddLinks(h2, dst, -2), p, -1);
    }
  }

  lemma {:induction false} StepGrows(fs: Fs, op: Op)
    requires !op.CheckpointOp? && !op.RestoreOp?
    ensures |FsStep(fs, op).0.nodes| >= |fs.nodes|
  {
    hide AddChild, RemoveChild, AddLinks, AddLookups, DoCreateNode, ReplyNew, Overwrite, Resized, Rename;
    hide SymlinkRoom, HasSpaceFor, UseBlocks, Drained, IsEmpty;
    match op
    case LookupOp(p, name) =>
      if CheckParent(fs, p) == OK {
        LinksKeepLength(fs, ChildIno(Children(fs, p), name), 1);
      }
    case MknodOp(p, name, mode, meta) => CreateGrows(fs, p, name, mode, None, meta);
    case MkdirOp(p, name, mode, meta) => CreateGrows(fs, p, name, OrBit(mode, S_IFDIR), None, meta);
    case SymlinkOp(target, p, name, meta) => CreateGrows(fs, p, name, SYMLINK_MODE, Some(target), meta);
    case CreateOp(p, name, mode, meta) => CreateGrows(fs, p, name, OrBit(mode, S_IFREG), None, meta);
    case UnlinkOp(p, name) =>
      if CheckParent(fs, p) == OK {
        EntriesKeepLength(fs, p, name, 0);
        LinksKeepLength(RemoveChild(fs, p, name), ChildIno(Children(fs, p), name), -1);
      }
    case RmdirOp(p, name) =>
      EntriesKeepLength(fs, p, name, 0);
      LinksKeepLength(RemoveChild(fs, p, name), p, -1);
    case RenameOp(p, name, np, newname) => RenameKeepsLength(fs, p, name, np, newname);
    case LinkOp(ino, np, newname) =>
      var f := AddChild(fs, np, newname, ino).0;
      EntriesKeepLength(fs, np, newname, ino);
      LinksKeepLength(f, ino, 1);
      LinksKeepLength(AddLinks(f, ino, 1), ino, 1);
    case ForgetOp(ino, n) => LinksKeepLength(fs, ino, 0 - n);
    case _ =>
  }

  /** Storable states stay storable on every run that keeps type bits, legal or not. */
  lemma {:induction false} RunStorable(st: State, ops: seq<Op>)
    requires StateStorable(st) && TypeKeepingRun(st, ops)
    ensures StateStorable(Run(st, ops))
    decreases |ops|
  {
    hide Lawful, FsStep, KeepsType;
    if ops != [] {
      if !ops[0].CheckpointOp? && !ops[0].RestoreOp? {
        FsStepLawful(st.live, ops[0]);
        StepGrows(st.live, ops[0]);
      }
      RunStorable(Step(st, ops[0]).0, ops[1..]);
    }
  }

  lemma {:induction false} InitStorable(blocks: word, files: word, fixed: seq<byte>, rootMode: nat, meta: seq<byte>)
    ensures StateStorable(State(Init(blocks, files, fixed, rootMode, meta), map[]))
  {
    hide Init, TableOk, LinksOk, TreeOk, Lawful;
    InitOk(blocks, files, fixed, rootMode, meta);
    OkIsLawful(Init(blocks, files, fixed, rootMode, meta));
  }

  // ------------------------------------------------------------------ the theorems

  /** checkpoint fails exactly for a key in use, restore exactly for a key not in use. */
  lemma {:induction false} PoolErrors(st: State, key: nat)
    requires StateStorable(st)
    ensures Checkpoint(st, key).1 == if key in st.pool then Error(EEXIST) else Done
    ensures Restore(st, key).1 == if key in st.pool then Done else Error(ENOENT)
  {
    hide Lawful;
    StorableIsCopyable(st.live);
    if key in st.pool {
      StorableIsCopyable(st.pool[key]);
    }
  }

  /** No request but its own restore changes a pooled snapshot. */
  lemma {:induction false} SnapshotUntouched(st: State, key: nat, ops: seq<Op>)
    requires key in st.pool
    requires forall i :: 0 <= i < |ops| ==> ops[i] != RestoreOp(key)
    ensures key in Run(st, ops).pool && Run(st, ops).pool[key] == st.pool[key]
    decreases |ops|
  {
    hide FsStep;
    if ops != [] {
      SnapshotUntouched(Step(st, ops[0]).0, key, ops[1..]);
    }
  }

  /** Time travel: whatever is done after checkpoint(key), restore(key) brings back the
      file system of the checkpoint moment and uses the key up. */
  lemma {:induction false} TimeTravel(st: State, key: nat, ops: seq<Op>)
    requires StateStorable(st) && key !in st.pool
    requires forall i :: 0 <= i < |ops| ==> ops[i] != RestoreOp(key)
    ensures var mid := Run(Checkpoint(st, key).0, ops);
            && Checkpoint(st, key).1 == Done
            && Restore(mid, key) == (State(st.live, mid.pool - {key}), Done)
  {
    hide Lawful, Copyable;
    StorableIsCopyable(st.live);
    SnapshotUntouched(Checkpoint(st, key).0, key, ops);
  }

  /** In particular from FuseInit on: after any run `before` that keeps type bits and any
      run `after` at all. */
  lemma {:induction false} TimeTravelFromInit(blocks: word, files: word, fixed: seq<byte>, rootMode: nat,
                                              meta: seq<byte>, before: seq<Op>, key: nat, after: seq<Op>)
    requires TypeKeepingRun(State(Init(blocks, files, fixed, rootMode, meta), map[]), before)
    requires key !in Run(State(Init(blocks, files, fixed, rootMode, meta), map[]), before).pool
    requires forall i :: 0 <= i < |after| ==> after[i] != RestoreOp(key)
    ensures var st := Run(State(Init(blocks, files, fixed, rootMode, meta), map[]), before);
            var mid := Run(Checkpoint(st, key).0, after);
            && Checkpoint(st, key).1 == Done
            && Restore(mid, key) == (State(st.live, mid.pool - {key}), Done)
  {
    hide Init, Run, TypeKeepingRun, Storable, Checkpoint, Restore;
    InitStorable(blocks, files, fixed, rootMode, meta);
    RunStorable(State(Init(blocks, files, fixed, rootMode, meta), map[]), before);
    TimeTravel(Run(State(Init(blocks, files, fixed, rootMode, meta), map[]), before), key, after);
  }
}
