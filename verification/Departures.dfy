/** Concrete runs on which the code departs from what POSIX or its own comments
    intend; the exact conditions are the if-and-only-if lemmas named beside them. */
module Departures {
  import opened Base
  import opened Model
  import opened Graph
  import opened Invariant
  import opened Runs
  import opened RenameProofs
  import Slots
  import ReadDir

  const A: Name := [97]

  /** A name too long for the space left in the directory's block. */
  function LongName(): (s: Name)
    ensures |s| == 400 && forall j :: 0 <= j < |s| ==> s[j] == 98
  {
    seq(400, _ => 98)
  }

  /** A fresh file system of two blocks, both charged to the root directory. */
  function Tiny(meta: seq<byte>): Fs {
    Init(2, 16, [], 0, meta)
  }

  function AfterCreate(meta: seq<byte>): (Fs, Reply) {
    Create(Tiny(meta), ROOT, A, 0, meta)
  }

  lemma {:induction false} TinyShape(meta: seq<byte>)
    ensures var fs := Tiny(meta);
            && |fs.nodes| == 2 && fs.deleted == [] && fs.stat.bfree == 0 && fs.stat.ffree == 14
            && Live(fs, 0) && At(fs, 0).h.nlink == 0
            && IsDir(fs, ROOT) && At(fs, ROOT).h.nlink == 2 && At(fs, ROOT).h.size == 171 && At(fs, ROOT).h.blocks == 1
            && Children(fs, ROOT) == [Entry(DOT, 1), Entry(DOTDOT, 1)]
  {
    hide Init, Register, AddDots;
    InitShape(2, 16, [], 0, meta);
  }

  /** Creating "a" still works: the entry fits the root's block. */
  lemma {:induction false} CreateShape(meta: seq<byte>)
    ensures var (fs, r) := AfterCreate(meta);
            && r == EntryOf(2) && |fs.nodes| == 3 && fs.deleted == [] && fs.stat.bfree == 0
            && Live(fs, 0) && At(fs, 0).h.nlink == 0
            && IsDir(fs, ROOT) && At(fs, ROOT).h.nlink == 2 && At(fs, ROOT).h.size == 244 && At(fs, ROOT).h.blocks == 1
            && Children(fs, ROOT) == [Entry(DOT, 1), Entry(DOTDOT, 1), Entry(A, 2)]
            && IsFile(fs, 2) && At(fs, 2).h.nlink == 1 && At(fs, 2).h.nlookup == 1
  {
    hide Init;
    TinyShape(meta);
    var t := Tiny(meta);
    assert OrBit(0, S_IFREG) == S_IFREG && IsReg(S_IFREG);
    var f := Prepared(t, ROOT, S_IFREG, FileBody([]), meta);
    assert f.nodes[..2] == t.nodes && |f.nodes| == 3;
    assert f.nodes[1] == t.nodes[1];
    assert NextSlot(t) == 2;
    var es := Children(t, ROOT);
    assert Find(es, A) == 2;
  }

  /** rename answers success although the new name did not fit: the file keeps its
      link count and no entry names it any more (RenameMeaning: exactly when
      RenameFits fails). */
  lemma {:induction false} RenameLosesFile(meta: seq<byte>)
    ensures var fs := AfterCreate(meta).0;
            var (g, r) := Rename(fs, ROOT, A, ROOT, LongName());
            && RenameLegal(fs, ROOT, A, ROOT, LongName()) && !RenameFits(fs, ROOT, A, ROOT, LongName())
            && r == Done && Children(g, ROOT) == [Entry(DOT, 1), Entry(DOTDOT, 1)]
            && IsFile(g, 2) && At(g, 2).h.nlink == 1
  {
    hide AfterCreate, Within, LongName;
    CreateShape(meta);
    var fs := AfterCreate(meta).0;
    var es := Children(fs, ROOT);
    var long := LongName();
    assert long != DOT && long != DOTDOT && long != A;
    FindA(es);
    assert Find(es, long) == 3 && ChildIno(es, long) == 0;
    assert !IsDir(fs, 2);
    assert NBlocks(716) == 2;
    assert AddChild(fs, ROOT, long, 2) == (fs, ENOSPC);
    assert es[..2] + es[3..] == es[..2];
  }

  lemma {:induction false} FindA(es: seq<Entry>)
    requires es == [Entry(DOT, 1), Entry(DOTDOT, 1), Entry(A, 2)]
    ensures Find(es, A) == 2 && ChildIno(es, A) == 2
  {
    assert es[0].name != A && es[1].name != A && es[2].name == A;
  }

  /** Create, unlink and forget leave a null slot and its number in the queue. */
  lemma {:induction false} NullSlotReachable(meta: seq<byte>)
    ensures var st := State(Tiny(meta), map[]);
            var ops := [CreateOp(ROOT, A, 0, meta), UnlinkOp(ROOT, A), ForgetOp(2, 1)];
            Reachable(Run(st, ops)) && Run(st, ops).live.deleted == [2]
  {
    hide Init, Create, Unlink, Forget, Legal, Step;
    var st := State(Tiny(meta), map[]);
    var ops := [CreateOp(ROOT, A, 0, meta), UnlinkOp(ROOT, A), ForgetOp(2, 1)];
    var s1 := State(AfterCreate(meta).0, map[]);
    var s2 := State(Unlink(s1.live, ROOT, A).0, map[]);
    var s3 := State(Forget(s2.live, 2, 1), map[]);
    CreateServed(meta);
    UnlinkServed(meta);
    ForgetServed(s2);
    UnlinkShape(meta);
    Three(st, ops, s1, s2, s3);
  }

  lemma {:induction false} CreateServed(meta: seq<byte>)
    ensures var st, op := State(Tiny(meta), map[]), CreateOp(ROOT, A, 0, meta);
            Legal(st, op) && Step(st, op).0 == State(AfterCreate(meta).0, map[])
  {
    hide Init, Create;
    TinyShape(meta);
  }

  lemma {:induction false} UnlinkServed(meta: seq<byte>)
    ensures var st, op := State(AfterCreate(meta).0, map[]), UnlinkOp(ROOT, A);
            Legal(st, op) && Step(st, op).0 == State(Unlink(st.live, ROOT, A).0, map[])
  {
    hide AfterCreate, Unlink;
    CreateShape(meta);
    FindA(Children(AfterCreate(meta).0, ROOT));
  }

  lemma {:induction false} ForgetServed(st: State)
    ensures Legal(st, ForgetOp(2, 1)) && Step(st, ForgetOp(2, 1)).0 == st.(live := Forget(st.live, 2, 1))
  {
    hide Forget;
  }

  lemma {:induction false} Three(st: State, ops: seq<Op>, s1: State, s2: State, s3: State)
    requires |ops| == 3 && Legal(st, ops[0]) && Step(st, ops[0]).0 == s1
    requires Legal(s1, ops[1]) && Step(s1, ops[1]).0 == s2
    requires Legal(s2, ops[2]) && Step(s2, ops[2]).0 == s3
    ensures LegalRun(st, ops) && Run(st, ops) == s3
  {
    hide Legal, Step;
    var two, one := ops[1..], ops[2..];
    assert two[1..] == one && one[1..] == [];
    assert LegalRun(s3, []) && Run(s3, []) == s3;
    assert LegalRun(s2, one) && Run(s2, one) == s3;
    assert LegalRun(s1, two) && Run(s1, two) == s3;
  }

  lemma {:induction false} UnlinkShape(meta: seq<byte>)
    ensures var (fs, r) := Unlink(AfterCreate(meta).0, ROOT, A);
            && r == Done && IsFile(fs, 2) && At(fs, 2).h.nlink == 0 && At(fs, 2).h.nlookup == 1
            && fs.deleted == [] && Forget(fs, 2, 1).deleted == [2]
  {
    hide AfterCreate;
    CreateShape(meta);
    FindA(Children(AfterCreate(meta).0, ROOT));
  }

  /** Registration does not ask for space: a directory made in the full file system
      succeeds and the free-block counter wraps around (CreateWrapsIff: exactly when
      the charge is not covered). */
  lemma {:induction false} MkdirOverdraws(meta: seq<byte>)
    ensures var (fs, r) := FsStep(Tiny(meta), MkdirOp(ROOT, A, 0, meta));
            r == EntryOf(2) && fs.stat.bfree == 0xFFFF_FFFF_FFFF_FFFE
  {
    hide Init, Prepared;
    TinyShape(meta);
    var t := Tiny(meta);
    var mode := OrBit(0, S_IFDIR);
    assert IsDirMode(mode) && !IsReg(mode);
    TinySlots(meta);
    PreparedShape(t, ROOT, mode, DirBody([]), meta);
    var f := Prepared(t, ROOT, mode, DirBody([]), meta);
    assert f.nodes[1] == t.nodes[1] && |f.nodes| == 3 && NextSlot(t) == 2;
    assert Find(Children(t, ROOT), A) == 2;
  }

  lemma {:induction false} TinySlots(meta: seq<byte>)
    ensures SlotsOk(Tiny(meta))
  {
    hide Init, SlotsOk;
    InitOk(2, 16, [], 0, meta);
  }

  /** A symlink in the full file system answers ENOSPC, is there all the same, and has
      a lookup counted that the kernel knows nothing of (FailedCreateInvisible and
      InStepIff: exactly the requests that are Misreported). */
  lemma {:induction false} SymlinkMisreported(meta: seq<byte>)
    ensures var (fs, r) := FsStep(Tiny(meta), SymlinkOp([120], ROOT, A, meta));
            && r == Error(ENOSPC)
            && IsDir(fs, ROOT) && ChildIno(Children(fs, ROOT), A) == 2
            && Live(fs, 2) && At(fs, 2).h.nlink == 1 && At(fs, 2).h.nlookup == 1
  {
    hide Init, DoCreateNode;
    TinyShape(meta);
    var t := Tiny(meta);
    assert Find(Children(t, ROOT), A) == 2;
    assert !SymlinkRoom(t.stat, A);
    LinkShape(meta);
    FindA(Children(DoCreateNode(t, ROOT, A, SYMLINK_MODE, Some([120]), meta).0, ROOT));
  }

  lemma {:induction false} LinkShape(meta: seq<byte>)
    ensures var (fs, r) := DoCreateNode(Tiny(meta), ROOT, A, SYMLINK_MODE, Some([120]), meta);
            && r == EntryOf(2) && IsDir(fs, ROOT) && Live(fs, 2) && !IsDir(fs, 2)
            && Children(fs, ROOT) == [Entry(DOT, 1), Entry(DOTDOT, 1), Entry(A, 2)]
            && At(fs, 2).h.nlink == 1 && At(fs, 2).h.nlookup == 0
  {
    hide Init;
    TinyShape(meta);
    var t := Tiny(meta);
    assert IsLnk(SYMLINK_MODE) && !IsReg(SYMLINK_MODE) && !IsDirMode(SYMLINK_MODE);
    var f := Prepared(t, ROOT, SYMLINK_MODE, LinkBody([120]), meta);
    assert f.nodes[1] == t.nodes[1] && |f.nodes| == 3 && NextSlot(t) == 2;
    assert Find(Children(t, ROOT), A) == 2;
  }

  // ---------------------------------------------------------------- an endless listing

  /** A name of 200 equal bytes: one directory record of 224 bytes. */
  function Wide(c: byte): (s: Name)
    ensures |s| == 200 && forall j :: 0 <= j < |s| ==> s[j] == c
  {
    seq(200, _ => c)
  }

  /** What a create in the root leaves of a table without null slots. */
  lemma {:induction false} CreateAppends(fs: Fs, name: Name, meta: seq<byte>)
    requires fs.deleted == [] && fs.stat.ffree > 0 && |fs.nodes| >= 2
    requires IsDir(fs, ROOT) && At(fs, ROOT).h.nlink == 2 && At(fs, ROOT).h.size <= 512 && At(fs, ROOT).h.blocks == 1
    requires |name| <= 400 && fs.stat.bfree > 0 && Find(Children(fs, ROOT), name) == |Children(fs, ROOT)|
    ensures var (g, r) := Create(fs, ROOT, name, 0, meta);
            && r == EntryOf(|fs.nodes|) && |g.nodes| == |fs.nodes| + 1 && g.deleted == []
            && IsDir(g, ROOT) && At(g, ROOT).h.nlink == 2
            && At(g, ROOT).h.size == At(fs, ROOT).h.size + 72 + |name|
            && At(g, ROOT).h.blocks == NBlocks(At(g, ROOT).h.size)
            && Children(g, ROOT) == Children(fs, ROOT) + [Entry(name, |fs.nodes|)]
            && Live(g, |fs.nodes|) && At(g, |fs.nodes|).h.nlink == 1
            && g.stat.ffree == fs.stat.ffree - 1
            && (At(g, ROOT).h.blocks == 1 ==> g.stat.bfree == fs.stat.bfree)
            && forall i: nat :: Live(fs, i) && i != ROOT ==> Live(g, i) && At(g, i) == At(fs, i)
  {
    hide Prepared, OrBit, NewBody;
    RegularMode();
    var f := Prepared(fs, ROOT, S_IFREG, FileBody([]), meta);
    FilePrepared(fs, meta);
    assert f.nodes[1] == fs.nodes[1];
  }

  lemma {:induction false} RegularMode()
    ensures OrBit(0, S_IFREG) == S_IFREG && NewBody(S_IFREG, None) == Some(FileBody([]))
  {
  }

  lemma {:induction false} FilePrepared(fs: Fs, meta: seq<byte>)
    requires fs.deleted == []
    ensures Prepared(fs, ROOT, S_IFREG, FileBody([]), meta)
         == Fs(fs.nodes + [Some(Fresh(|fs.nodes|, S_IFREG, 1, meta, FileBody([])))], [],
               UseBlocks(UseInodes(fs.stat, 1), 0))
  {
  }

  function Roomy(meta: seq<byte>): Fs {
    Init(64, 16, [], 0, meta)
  }

  function TwoWide(meta: seq<byte>): Fs {
    Create(Create(Roomy(meta), ROOT, Wide(120), 0, meta).0, ROOT, Wide(121), 0, meta).0
  }

  lemma {:induction false} TwoWideShape(meta: seq<byte>)
    ensures var fs := TwoWide(meta);
            && IsDir(fs, ROOT) && At(fs, ROOT).h.nlink == 2
            && Children(fs, ROOT) == [Entry(DOT, 1), Entry(DOTDOT, 1), Entry(Wide(120), 2), Entry(Wide(121), 3)]
            && !Gone(fs, 2) && !Gone(fs, 3)
  {
    hide Init, Create, Wide;
    InitShape(64, 16, [], 0, meta);
    var r, x, y := Roomy(meta), Wide(120), Wide(121);
    assert x != DOT && x != DOTDOT && y != DOT && y != DOTDOT && x[0] != y[0];
    assert Find(Children(r, ROOT), x) == 2;
    CreateAppends(r, x, meta);
    var f := Create(r, ROOT, x, 0, meta).0;
    assert Children(f, ROOT) == [Entry(DOT, 1), Entry(DOTDOT, 1), Entry(x, 2)];
    assert Find(Children(f, ROOT), y) == 3;
    CreateAppends(f, y, meta);
  }

  /** Two files with names of 200 bytes, and the listing of their directory never ends
      (DirectoryListsIff: exactly when two adjacent records do not fit a buffer). */
  lemma {:induction false} ListingNeverEnds(meta: seq<byte>, size: nat)
    ensures IsDir(TwoWide(meta), ROOT) && !ReadDir.Completes(ReadDir.Whole(TwoWide(meta), ROOT, size))
  {
    hide TwoWide, Wide, ReadDir.Completes;
    TwoWideShape(meta);
    var fs := TwoWide(meta);
    ReadDir.DirectoryListsIff(fs, ROOT, size);
    var es := Children(fs, ROOT);
    assert !Gone(fs, es[2].ino) && !Gone(fs, es[2 + 1].ino);
    assert ReadDir.DirentSize(es[2].name) + ReadDir.DirentSize(es[2 + 1].name) == 448;
  }

  // ------------------------------------------------------------- a wrapped link count

  const B: Name := [98]

  /** What a mkdir in the root leaves of a table without null slots. */
  lemma {:induction false} MkdirAppends(fs: Fs, name: Name, meta: seq<byte>)
    requires SlotsOk(fs) && fs.deleted == [] && fs.stat.ffree > 0
    requires IsDir(fs, ROOT) && 2 <= At(fs, ROOT).h.nlink <= 10
    requires At(fs, ROOT).h.size + Cost(name) <= 512 && At(fs, ROOT).h.size > 0 && At(fs, ROOT).h.blocks == 1
    requires Find(Children(fs, ROOT), name) == |Children(fs, ROOT)|
    ensures var (g, r) := FsStep(fs, MkdirOp(ROOT, name, 0, meta));
            && r == EntryOf(|fs.nodes|) && |g.nodes| == |fs.nodes| + 1 && g.deleted == []
            && g.stat.ffree == fs.stat.ffree - 1
            && IsDir(g, ROOT) && At(g, ROOT).h.nlink == At(fs, ROOT).h.nlink + 1
            && At(g, ROOT).h.size == At(fs, ROOT).h.size + Cost(name) && At(g, ROOT).h.blocks == 1
            && Children(g, ROOT) == Children(fs, ROOT) + [Entry(name, |fs.nodes|)]
            && IsDir(g, |fs.nodes|) && At(g, |fs.nodes|).h.nlink == 2 && IsDirMode(At(g, |fs.nodes|).h.mode)
            && (forall k :: 0 <= k < |Children(g, |fs.nodes|)| ==> Dot(Children(g, |fs.nodes|)[k].name))
            && forall i: nat :: Live(fs, i) && i != ROOT ==> Live(g, i) && At(g, i) == At(fs, i)
  {
    hide Prepared, OrBit, NewBody, SlotsOk, Wrap;
    WrapExact(fs.stat.ffree - 1);
    WrapExact(At(fs, ROOT).h.nlink + 1);
    DirectoryMode();
    var n := NewNode(fs, ROOT, S_IFDIR, DirBody([]), meta);
    PreparedShape(fs, ROOT, S_IFDIR, DirBody([]), meta);
    FitsInBlock(Placed(fs, n), name);
  }

  lemma {:induction false} DirectoryMode()
    ensures OrBit(0, S_IFDIR) == S_IFDIR && NewBody(S_IFDIR, None) == Some(DirBody([])) && IsDirMode(S_IFDIR)
  {
  }

  lemma {:induction false} FitsInBlock(fs: Fs, name: Name)
    requires IsDir(fs, ROOT) && At(fs, ROOT).h.blocks == 1 && 0 < At(fs, ROOT).h.size + Cost(name) <= 512
    ensures NBlocks(At(fs, ROOT).h.size + Cost(name)) == 1
    ensures HasSpaceFor(fs.stat, 1, At(fs, ROOT).h.size, Cost(name))
  {
  }

  function OneDir(meta: seq<byte>): Fs {
    FsStep(Roomy(meta), MkdirOp(ROOT, A, 0, meta)).0
  }

  function TwoDirs(meta: seq<byte>): Fs {
    FsStep(OneDir(meta), MkdirOp(ROOT, B, 0, meta)).0
  }

  lemma {:induction false} TwoDirsShape(meta: seq<byte>)
    ensures var fs := TwoDirs(meta);
            && IsDir(fs, ROOT) && At(fs, ROOT).h.nlink == 4
            && Children(fs, ROOT) == [Entry(DOT, 1), Entry(DOTDOT, 1), Entry(A, 2), Entry(B, 3)]
            && IsDir(fs, 2) && At(fs, 2).h.nlink == 2 && IsDirMode(At(fs, 2).h.mode)
            && IsDir(fs, 3) && At(fs, 3).h.nlink == 2 && IsDirMode(At(fs, 3).h.mode)
            && (forall k :: 0 <= k < |Children(fs, 3)| ==> Dot(Children(fs, 3)[k].name))
  {
    hide Init, FsStep, SlotsOk, TableOk, LinksOk, TreeOk;
    InitShape(64, 16, [], 0, meta);
    InitOk(64, 16, [], 0, meta);
    var r := Roomy(meta);
    assert Find(Children(r, ROOT), A) == 2;
    MkdirAppends(r, A, meta);
    Slots.StepSlots(r, MkdirOp(ROOT, A, 0, meta));
    var f := OneDir(meta);
    assert Children(f, ROOT) == [Entry(DOT, 1), Entry(DOTDOT, 1), Entry(A, 2)];
    assert Find(Children(f, ROOT), B) == 3;
    MkdirAppends(f, B, meta);
  }

  /** mkdir a, mkdir b, rename a over b: the directory that was b has 2^64 - 1 links
      (ReplacedDirectory: so it is with every directory replaced). */
  lemma {:induction false} ReplaceWraps(meta: seq<byte>)
    ensures var (g, r) := Rename(TwoDirs(meta), ROOT, A, ROOT, B);
            r == Done && Live(g, 3) && At(g, 3).h.nlink == 0xFFFF_FFFF_FFFF_FFFF
  {
    hide TwoDirs, Replace, Move;
    TwoDirsShape(meta);
    var fs := TwoDirs(meta);
    var es := Children(fs, ROOT);
    assert es[0].name != A && es[1].name != A && es[2].name == A;
    assert es[0].name != B && es[1].name != B && es[2].name != B && es[3].name == B;
    assert Find(es, A) == 2 && Find(es, B) == 3;
    ReplaceTakesThree(fs, ROOT, A, ROOT, B, 2, 3);
  }
}
