/** Whole legal runs: initial state, every step, and what the invariant means for a
    caller. */
module Runs {
  import opened Base
  import opened Model
  import opened Graph
  import opened Invariant
  import opened Namespace
  import opened RenameProofs

  // ------------------------------------------------------------------ the start

  /** The table FuseInit builds. */
  lemma {:induction false} InitShape(blocks: word, files: word, fixed: seq<byte>, rootMode: nat, meta: seq<byte>)
    ensures var fs := Init(blocks, files, fixed, rootMode, meta);
            && fs.nodes == [Some(Fresh(0, 0, 0, meta, SpecialBody(0))),
                            Some(Node(Head(1, S_IFDIR + rootMode % 512, 2, 171, 1, 0, false, meta, []),
                                      DirBody([Entry(DOT, 1), Entry(DOTDOT, 1)])))]
            && fs.deleted == []
            && fs.stat == UseBlocks(UseInodes(Sized(blocks, files, fixed), 2), 2)
  {
    var s := Sized(blocks, files, fixed);
    var f0 := Register(Fs([], [], s), 0, 0, meta, SpecialBody(0));
    assert f0.nodes == [Some(Fresh(0, 0, 0, meta, SpecialBody(0)))];
    var f1 := Register(f0, S_IFDIR + rootMode % 512, 2, meta, DirBody([]));
    DotsShape(f1, 1, 1);
    InitCharges(s);
  }

  lemma {:induction false} InitCharges(s: Stat)
    ensures UseBlocks(UseBlocks(UseInodes(UseBlocks(UseInodes(s, 1), 0), 1), 1), 1) == UseBlocks(UseInodes(s, 2), 2)
  {
    hide Wrap;
    WrapShift(s.ffree - 1, -1);
    WrapShift(s.favail - 1, -1);
    WrapShift(s.bfree, 0);
    WrapShift(s.bavail, 0);
    WrapExact(s.bfree);
    WrapExact(s.bavail);
    WrapShift(s.bfree - 1, -1);
    WrapShift(s.bavail - 1, -1);
  }

  lemma {:induction false} InitOk(blocks: word, files: word, fixed: seq<byte>, rootMode: nat, meta: seq<byte>)
    ensures FsOk(Init(blocks, files, fixed, rootMode, meta))
  {
    var fs := Init(blocks, files, fixed, rootMode, meta);
    InitShape(blocks, files, fixed, rootMode, meta);
    hide Init;
    var es := Children(fs, 1);
    assert es == [es[0]] + [es[1]] && [] + [es[0]] == [es[0]];
    SumAppend([es[0]], es[1], CostW());
    SumAppend([], es[0], CostW());
    assert NodeOk(1, At(fs, 1)) && NodeOk(0, At(fs, 0));
    AllDots(fs, 1);
    forall x: nat ensures LinksTo(fs, x) == 0 {
      assert fs.nodes == [fs.nodes[0]] + [fs.nodes[1]] && [] + [fs.nodes[0]] == [fs.nodes[0]];
      SumAppend([fs.nodes[0]], fs.nodes[1], HolderW(x));
      SumAppend([], fs.nodes[0], HolderW(x));
      assert In(fs, 1, x) == 0 && In(fs, 0, x) == 0;
    }
    assert fs.nodes == [fs.nodes[0]] + [fs.nodes[1]] && [] + [fs.nodes[0]] == [fs.nodes[0]];
    SumAppend([fs.nodes[0]], fs.nodes[1], LiveW());
    SumAppend([], fs.nodes[0], LiveW());
    assert Climbs(fs, ROOT, ROOT, 0);
    assert SlotsOk(fs);
  }

  // ------------------------------------------------------------------- the steps

  lemma {:induction false} FsStepOk(fs: Fs, op: Op)
    requires FsOk(fs) && FsLegal(fs, op) && !op.CheckpointOp? && !op.RestoreOp?
    ensures FsOk(FsStep(fs, op).0)
  {
    match op
    case LookupOp(p, name) => LookupOk(fs, p, name);
    case MknodOp(_, _, _, _) => CreateOk(fs, op);
    case MkdirOp(_, _, _, _) => CreateOk(fs, op);
    case SymlinkOp(_, _, _, _) => CreateOk(fs, op);
    case CreateOp(_, _, _, _) => CreateOk(fs, op);
    case UnlinkOp(p, name) => UnlinkOk(fs, p, name);
    case RmdirOp(p, name) => RmdirOk(fs, p, name);
    case RenameOp(p, name, np, newname) => RenameOk(fs, p, name, np, newname);
    case LinkOp(ino, np, newname) => LinkOk(fs, ino, np, newname);
    case ForgetOp(ino, n) => ForgetOk(fs, ino, n);
    case WriteOp(ino, data, off, mem) => WriteOk(fs, ino, data, off, mem);
    case TruncateOp(ino, size, mem) => TruncateOk(fs, ino, size, mem);
    case SetAttrOp(ino, mode, meta) => SetAttrOk(fs, ino, mode, meta);
    case ReadOp(_, _, _) =>
  }

  lemma {:induction false} StepOk(st: State, op: Op)
    requires StateOk(st) && Legal(st, op)
    ensures StateOk(Step(st, op).0)
  {
    hide FsOk, FsStep, FsLegal;
    if !op.CheckpointOp? && !op.RestoreOp? {
      FsStepOk(st.live, op);
    }
  }

  function Run(st: State, ops: seq<Op>): State
    decreases |ops|
  {
    if ops == [] then st else Run(Step(st, ops[0]).0, ops[1..])
  }

  /** The replies of a run, in order. */
  function Replies(st: State, ops: seq<Op>): seq<Reply>
    decreases |ops|
  {
    if ops == [] then [] else [Step(st, ops[0]).1] + Replies(Step(st, ops[0]).0, ops[1..])
  }

  /** Each request of the run meets the kernel's promises when it is made. */
  ghost predicate LegalRun(st: State, ops: seq<Op>)
    decreases |ops|
  {
    ops != [] ==> Legal(st, ops[0]) && LegalRun(Step(st, ops[0]).0, ops[1..])
  }

  /** Every reachable state satisfies the invariant. */
  lemma {:induction false} RunOk(st: State, ops: seq<Op>)
    requires StateOk(st) && LegalRun(st, ops)
    ensures StateOk(Run(st, ops))
    decreases |ops|
  {
    if ops != [] {
      StepOk(st, ops[0]);
      RunOk(Step(st, ops[0]).0, ops[1..]);
    }
  }

  ghost predicate Reachable(st: State) {
    exists blocks: word, files: word, fixed: seq<byte>, rootMode: nat, meta: seq<byte>, ops: seq<Op> ::
      var s0 := State(Init(blocks, files, fixed, rootMode, meta), map[]);
      LegalRun(s0, ops) && st == Run(s0, ops)
  }

  lemma {:induction false} ReachableOk(st: State)
    requires Reachable(st)
    ensures StateOk(st)
  {
    var blocks: word, files: word, fixed: seq<byte>, rootMode: nat, meta: seq<byte>, ops: seq<Op> :|
      var s0 := State(Init(blocks, files, fixed, rootMode, meta), map[]);
      LegalRun(s0, ops) && st == Run(s0, ops);
    InitOk(blocks, files, fixed, rootMode, meta);
    RunOk(State(Init(blocks, files, fixed, rootMode, meta), map[]), ops);
  }

  // ------------------------------------------------- what holds in every reachable state

  /** A file system of a reachable state: the live one or a pooled snapshot. */
  ghost predicate Occurs(fs: Fs) {
    exists st: State :: Reachable(st) && (fs == st.live || exists k :: k in st.pool && fs == st.pool[k])
  }

  lemma {:induction false} OccursOk(fs: Fs)
    requires Occurs(fs)
    ensures FsOk(fs)
  {
    hide FsOk;
    var st: State :| Reachable(st) && (fs == st.live || exists k :: k in st.pool && fs == st.pool[k]);
    ReachableOk(st);
  }

  /** Link counts: a non-directory has as many links as names; the root and every
      named directory has two plus one per subdirectory; no name dangles. */
  lemma {:induction false} LinkCounts(fs: Fs)
    requires Occurs(fs)
    ensures forall i: nat :: Live(fs, i) && !IsDir(fs, i) ==> At(fs, i).h.nlink == LinksTo(fs, i)
    ensures forall i: nat :: IsDir(fs, i) && Named(fs, i) ==> At(fs, i).h.nlink == 2 + Subdirs(fs, i)
    ensures forall d: nat, k: nat :: IsDir(fs, d) && k < |Children(fs, d)| && !Dot(Children(fs, d)[k].name)
                                     ==> !Gone(fs, Children(fs, d)[k].ino)
  {
    hide LinksTo, Subdirs;
    OccursOk(fs);
    forall d: nat, k: nat | IsDir(fs, d) && k < |Children(fs, d)| && !Dot(Children(fs, d)[k].name)
      ensures !Gone(fs, Children(fs, d)[k].ino)
    {
      NoDangling(fs, d, k);
    }
  }

  /** The directories form a tree: at most one name each, none for the root; every
      named one climbs to the root and never meets itself on the way. */
  lemma {:induction false} Tree(fs: Fs, d: nat)
    requires Occurs(fs) && IsDir(fs, d)
    ensures LinksTo(fs, d) <= 1 && LinksTo(fs, ROOT) == 0
    ensures Named(fs, d) ==> Within(fs, d, ROOT)
    ensures forall k: nat :: Named(fs, d) && Climbs(fs, d, d, k) ==> k == 0
  {
    hide LinksTo, In, Subdirs, NonDots, TableOk, SlotsOk, Climbs;
    OccursOk(fs);
    forall k: nat | Named(fs, d) && Climbs(fs, d, d, k) ensures k == 0 {
      var n: nat :| Climbs(fs, d, ROOT, n);
      ClimbJoin(fs, d, d, ROOT, k, n);
      ClimbLength(fs, d, k + n, n);
    }
  }

  lemma {:induction false} ClimbJoin(fs: Fs, a: nat, b: nat, c: nat, k: nat, n: nat)
    requires Climbs(fs, a, b, k) && Climbs(fs, b, c, n)
    ensures Climbs(fs, a, c, k + n)
    decreases k
  {
    if k > 0 {
      var p: nat :| In(fs, p, a) > 0 && Climbs(fs, p, b, k - 1);
      ClimbJoin(fs, p, b, c, k - 1, n);
    }
  }

  /** The way up is unique, so its length is. */
  lemma {:induction false} ClimbLength(fs: Fs, i: nat, k: nat, n: nat)
    requires FsOk(fs) && IsDir(fs, i) && Climbs(fs, i, ROOT, k) && Climbs(fs, i, ROOT, n)
    ensures k == n
    decreases k
  {
    hide LinksTo, In, Subdirs, NonDots, TableOk, SlotsOk;
    forall q: nat ensures In(fs, q, ROOT) <= 0 {
      InBounds(fs, q, ROOT);
    }
    if k > 0 && n > 0 {
      var p: nat :| In(fs, p, i) > 0 && Climbs(fs, p, ROOT, k - 1);
      var q: nat :| In(fs, q, i) > 0 && Climbs(fs, q, ROOT, n - 1);
      InBounds(fs, p, i);
      if p != q {
        TwoHolders(fs, p, q, i);
      }
      ClimbLength(fs, p, k - 1, n - 1);
    }
  }
}
