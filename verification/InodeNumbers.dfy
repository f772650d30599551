/** Inode numbers: what the kernel holds, when a slot is reclaimed, and how many
    inodes there can be. */
module InodeNumbers {
  import opened Base
  import opened Model
  import opened Graph
  import opened Invariant
  import opened Namespace
  import opened Runs
  import opened Accounting
  import opened Slots

  // ------------------------------------------------------------- lookups per request

  function Lookups(fs: Fs, i: nat): nat {
    if Live(fs, i) then At(fs, i).h.nlookup else 0
  }

  /** The inode number a request's reply hands to the kernel. */
  predicate Hands(r: Reply, i: nat) {
    r.EntryOf? && r.ino == i
  }

  /** One more lookup still fits, and a forget never exceeds the lookups handed out. */
  ghost predicate CountsFit(fs: Fs, op: Op) {
    && (forall i: nat :: Live(fs, i) ==> At(fs, i).h.nlookup < 0xFFFF_FFFF_FFFF_FFFF)
    && (op.ForgetOp? && Live(fs, op.ino) ==> op.n <= At(fs, op.ino).h.nlookup)
  }

  /** Whether a create request registers an inode; it may yet be undone. */
  predicate Registers(fs: Fs, op: Op) {
    IsCreate(op) && Attempt(fs, op).Some?
  }

  function Forgotten(fs: Fs, op: Op, i: nat): nat {
    if op.ForgetOp? && op.ino == i && Live(fs, i) then op.n else 0
  }

  /** The entry of inode i is counted but comes too late for the kernel. */
  predicate Loses(fs: Fs, op: Op, i: nat) {
    IsCreate(op) && Misreported(fs, op) && i == NextSlot(fs)
  }

  /** How liveness and lookup counts respond to any request. */
  ghost predicate Tracks(fs: Fs, op: Op, g: Fs, r: Reply) {
    && (forall i: nat :: Lookups(g, i)
                         == Lookups(fs, i) + B2I(Hands(r, i)) + B2I(Loses(fs, op, i)) - Forgotten(fs, op, i))
    && (forall i: nat :: Live(fs, i) ==> (Live(g, i) <==> !Reclaims(fs, op, i)))
    && (forall i: nat :: !Live(fs, i) && Live(g, i) ==>
          Registers(fs, op) && i == NextSlot(fs) && (Hands(r, i) || Loses(fs, op, i)))
  }

  lemma {:induction false} AddLookupsTracks(fs: Fs, i: nat, n: int)
    requires Live(fs, i) ==> 0 <= At(fs, i).h.nlookup + n < 0x1_0000_0000_0000_0000
    ensures forall j: nat :: Live(AddLookups(fs, i, n), j) <==> Live(fs, j)
    ensures forall j: nat :: Lookups(AddLookups(fs, i, n), j)
                             == Lookups(fs, j) + (if j == i && Live(fs, i) then n else 0)
  {
  }

  lemma {:induction false} FinishedTracks(fs: Fs, n: Node, p: nat, name: Name)
    requires SlotsOk(fs) && n.h.nlookup == 0
    ensures var g, ino := Finished(fs, n, p, name), NextSlot(fs);
            && (forall i: nat :: Live(g, i) <==> Live(fs, i) || i == ino)
            && (forall i: nat :: Lookups(g, i) == Lookups(fs, i) + B2I(i == ino))
  {
    var ino := NextSlot(fs);
    assert fs.deleted != [] ==> ino in fs.deleted;
    var f0 := Placed(fs, n);
    assert forall i: nat :: Live(f0, i) <==> Live(fs, i) || i == ino;
    assert forall i: nat :: Lookups(f0, i) == Lookups(fs, i);
    hide Placed, SlotsOk;
    var f1 := AddChild(f0, p, name, ino).0;
    AddChildSteady(f0, p, name, ino);
    AddLinksSteady(f1, p, 1);
    var f2 := if n.body.DirBody? then AddLinks(f1, p, 1) else f1;
    hide AddChild, AddLinks, Drift;
    assert forall i: nat :: Lookups(f2, i) == Lookups(f0, i) && (Live(f2, i) <==> Live(f0, i));
    AddLookupsTracks(f2, ino, 1);
  }

  lemma {:induction false} CreateTracks(fs: Fs, op: Op)
    requires SlotsOk(fs) && IsCreate(op)
    ensures Tracks(fs, op, FsStep(fs, op).0, FsStep(fs, op).1)
  {
    hide FsStep, Attempt, Enters, Misreported, Finished, Abandoned, SlotsOk, Tracks, Unseen;
    CreateOutcome(fs, op);
    MisreportedEnters(fs, op);
    var (g, r) := FsStep(fs, op);
    if Attempt(fs, op).Some? {
      var n := Attempt(fs, op).value;
      NewNodeUnheld(fs, op);
      if Enters(fs, op) {
        FinishedTracks(fs, n, op.p, op.name);
        EntryTracks(fs, op, g, r);
      } else {
        AbandonedUnseen(fs, n);
        UnseenTracks(fs, op, g, r);
      }
    } else {
      NotAttempted(fs, op);
      UnseenTracks(fs, op, g, r);
    }
  }

  lemma {:induction false} MisreportedEnters(fs: Fs, op: Op)
    requires IsCreate(op)
    ensures Misreported(fs, op) ==> Enters(fs, op)
    ensures Enters(fs, op) ==> Attempt(fs, op).Some?
  {
  }

  lemma {:induction false} UnseenTracks(fs: Fs, op: Op, g: Fs, r: Reply)
    requires IsCreate(op) && !Misreported(fs, op) && r.Error? && (g == fs || Unseen(fs, g))
    ensures Tracks(fs, op, g, r)
  {
    hide Misreported, SlotsOk;
  }

  lemma {:induction false} EntryTracks(fs: Fs, op: Op, g: Fs, r: Reply)
    requires IsCreate(op) && Registers(fs, op)
    requires if Misreported(fs, op) then r.Error? else r == EntryOf(NextSlot(fs))
    requires forall i: nat :: Live(g, i) <==> Live(fs, i) || i == NextSlot(fs)
    requires forall i: nat :: Lookups(g, i) == Lookups(fs, i) + B2I(i == NextSlot(fs))
    ensures Tracks(fs, op, g, r)
  {
    hide Misreported, Attempt;
  }

  lemma {:induction false} NewNodeUnheld(fs: Fs, op: Op)
    requires IsCreate(op) && Attempt(fs, op).Some?
    ensures Attempt(fs, op).value.h.nlookup == 0
  {
  }

  lemma {:induction false} LookupTracks(fs: Fs, op: Op)
    requires op.LookupOp? && CountsFit(fs, op)
    ensures Tracks(fs, op, Lookup(fs, op.p, op.name).0, Lookup(fs, op.p, op.name).1)
  {
  }

  lemma {:induction false} LinkTracks(fs: Fs, op: Op)
    requires op.LinkOp? && CountsFit(fs, op)
    ensures Tracks(fs, op, Link(fs, op.ino, op.np, op.newname).0, Link(fs, op.ino, op.np, op.newname).1)
  {
    hide AddChild, AddLinks, AddLookups, Drift;
    var f := AddChild(fs, op.np, op.newname, op.ino).0;
    AddChildSteady(fs, op.np, op.newname, op.ino);
    AddLinksSteady(f, op.ino, 1);
    if !Gone(fs, op.ino) {
      AddLookupsTracks(AddLinks(f, op.ino, 1), op.ino, 1);
    }
  }

  lemma {:induction false} ForgetTracks(fs: Fs, op: Op)
    requires op.ForgetOp? && CountsFit(fs, op)
    ensures Tracks(fs, op, Forget(fs, op.ino, op.n), Done)
  {
  }

  lemma {:induction false} StepTracks(fs: Fs, op: Op)
    requires SlotsOk(fs) && CountsFit(fs, op) && !op.CheckpointOp? && !op.RestoreOp?
    ensures Tracks(fs, op, FsStep(fs, op).0, FsStep(fs, op).1)
  {
    if IsCreate(op) {
      hide FsStep, Tracks;
      CreateTracks(fs, op);
    } else if IsQuiet(op) {
      hide FsStep, Drift, SlotsOk;
      QuietSteady(fs, op);
      QuietHandsOut(fs, op);
    } else {
      hide Lookup, Link, Forget, Tracks;
      match op
      case LookupOp(p, name) => LookupTracks(fs, op);
      case LinkOp(ino, np, newname) => LinkTracks(fs, op);
      case ForgetOp(ino, n) => ForgetTracks(fs, op);
    }
  }

  lemma {:induction false} QuietHandsOut(fs: Fs, op: Op)
    requires IsQuiet(op)
    ensures !FsStep(fs, op).1.EntryOf?
  {
  }

  lemma {:induction false} ForgetHandsOut(fs: Fs, op: Op)
    requires !op.CheckpointOp? && !op.RestoreOp?
    ensures op.ForgetOp? ==> FsStep(fs, op).1 == Done
  {
  }

  // ------------------------------------------------------------ the kernel's view

  /** The server's state beside what the kernel knows: lookups held per number,
      lookups counted for entries that never arrived, and which object each number
      was given to.  Objects are numbered as created. */
  datatype World = World(st: State, held: map<nat, nat>, lost: map<nat, nat>, bound: map<nat, nat>, next: nat)

  function Held(w: World, i: nat): nat {
    if i in w.held then w.held[i] else 0
  }

  function Lost(w: World, i: nat): nat {
    if i in w.lost then w.lost[i] else 0
  }

  function Serve(w: World, op: Op): World
    requires !op.RestoreOp?
  {
    var fs, (st, r) := w.st.live, Step(w.st, op);
    var held := if r.EntryOf? then w.held[r.ino := Held(w, r.ino) + 1]
                else if op.ForgetOp? && Live(fs, op.ino) then w.held[op.ino := Minus(Held(w, op.ino), op.n)]
                else w.held;
    var lost := if Loses(fs, op, NextSlot(fs)) then w.lost[NextSlot(fs) := Lost(w, NextSlot(fs)) + 1] else w.lost;
    if Registers(fs, op) then World(st, held, lost, w.bound[NextSlot(fs) := w.next], w.next + 1)
    else World(st, held, lost, w.bound, w.next)
  }

  /** m_nlookup is what the kernel holds and what was lost on the way; every live slot
      has an object of its own. */
  ghost predicate WorldOk(w: World) {
    && SlotsOk(w.st.live)
    && (forall i: nat :: Lookups(w.st.live, i) == Held(w, i) + Lost(w, i))
    && (forall i: nat :: Live(w.st.live, i) ==> i in w.bound && w.bound[i] < w.next)
    && (forall i: nat, j: nat :: Live(w.st.live, i) && Live(w.st.live, j) && i != j ==> w.bound[i] != w.bound[j])
  }

  /** The kernel forgets no more than it holds and spares the root; nothing else is
      asked of a request. */
  ghost predicate WorldLegal(w: World, op: Op) {
    && !op.RestoreOp? && Spares(w.st.live, op) && CountsFit(w.st.live, op)
    && (op.ForgetOp? ==> op.n <= Held(w, op.ino))
  }

  /** m_nlookup is exactly what the kernel holds. */
  ghost predicate InStep(w: World) {
    forall i: nat :: Lookups(w.st.live, i) == Held(w, i)
  }

  /** The request is not a symlink that goes through after ENOSPC was answered. */
  predicate Reports(fs: Fs, op: Op) {
    IsCreate(op) ==> !Misreported(fs, op)
  }

  /** A request keeps the kernel's view; a number stays bound to its object until the
      reclaiming forget, at which no lookup is held or lost; only a misreported
      symlink loses a lookup. */
  lemma {:induction false} ServeOk(w: World, op: Op)
    requires WorldOk(w) && WorldLegal(w, op)
    ensures WorldOk(Serve(w, op))
    ensures forall i: nat :: Live(w.st.live, i) && !Reclaims(w.st.live, op, i) ==>
              Live(Serve(w, op).st.live, i) && Serve(w, op).bound[i] == w.bound[i]
    ensures forall i: nat :: Reclaims(w.st.live, op, i) ==>
              Held(Serve(w, op), i) == 0 && Lost(w, i) == 0 && !Live(Serve(w, op).st.live, i)
    ensures forall i: nat :: Lost(Serve(w, op), i) == Lost(w, i) + B2I(Loses(w.st.live, op, i))
  {
    hide FsStep, SlotsOk, Misreported, Tracks, Serve, CountsFit, Reclaims;
    ServesStep(w, op);
    if op.CheckpointOp? {
      CheckpointServes(w, op);
    } else {
      NextIsFree(w.st.live);
      StepSlots(w.st.live, op);
      StepTracks(w.st.live, op);
      ServeCounts(w, op);
      ServeBinds(w, op);
    }
  }

  lemma {:induction false} CheckpointServes(w: World, op: Op)
    requires op.CheckpointOp?
    ensures Serve(w, op) == w.(st := Step(w.st, op).0) && Serve(w, op).st.live == w.st.live
    ensures forall i: nat :: !Reclaims(w.st.live, op, i)
  {
  }

  lemma {:induction false} ServeCounts(w: World, op: Op)
    requires WorldOk(w) && WorldLegal(w, op) && !op.CheckpointOp?
    requires Tracks(w.st.live, op, FsStep(w.st.live, op).0, FsStep(w.st.live, op).1)
    ensures var w' := Serve(w, op);
            && (forall i: nat :: Lookups(w'.st.live, i) == Held(w', i) + Lost(w', i))
            && (forall i: nat :: Lost(w', i) == Lost(w, i) + B2I(Loses(w.st.live, op, i)))
            && (forall i: nat :: Reclaims(w.st.live, op, i) ==>
                  Held(w', i) == 0 && Lost(w, i) == 0 && !Live(w'.st.live, i))
  {
    hide FsStep, SlotsOk, Misreported, Serve;
    ForgetHandsOut(w.st.live, op);
    ServesStep(w, op);
    forall i: nat
      ensures var w' := Serve(w, op);
              && Lookups(w'.st.live, i) == Held(w', i) + Lost(w', i)
              && Lost(w', i) == Lost(w, i) + B2I(Loses(w.st.live, op, i))
              && (Reclaims(w.st.live, op, i) ==> Held(w', i) == 0 && Lost(w, i) == 0 && !Live(w'.st.live, i))
    {
      Handed(w, op, i);
      assert Lookups(w.st.live, i) == Held(w, i) + Lost(w, i);
    }
  }

  /** How the kernel's side of the books changes for one number. */
  lemma {:induction false} Handed(w: World, op: Op, i: nat)
    requires !op.CheckpointOp? && !op.RestoreOp?
    requires op.ForgetOp? ==> FsStep(w.st.live, op).1 == Done && op.n <= Held(w, op.ino)
    ensures Held(Serve(w, op), i)
         == Held(w, i) + B2I(Hands(FsStep(w.st.live, op).1, i)) - Forgotten(w.st.live, op, i)
    ensures Lost(Serve(w, op), i) == Lost(w, i) + B2I(Loses(w.st.live, op, i))
  {
    hide FsStep, Attempt, Misreported;
  }

  lemma {:induction false} ServeBinds(w: World, op: Op)
    requires WorldOk(w) && !op.CheckpointOp? && !op.RestoreOp? && !Live(w.st.live, NextSlot(w.st.live))
    requires Tracks(w.st.live, op, FsStep(w.st.live, op).0, FsStep(w.st.live, op).1)
    ensures var w' := Serve(w, op);
            && (forall i: nat :: Live(w.st.live, i) && !Reclaims(w.st.live, op, i) ==>
                  Live(w'.st.live, i) && w'.bound[i] == w.bound[i])
            && (forall i: nat :: Live(w'.st.live, i) ==> i in w'.bound && w'.bound[i] < w'.next)
            && (forall i: nat, j: nat :: Live(w'.st.live, i) && Live(w'.st.live, j) && i != j ==>
                  w'.bound[i] != w'.bound[j])
  {
    hide FsStep, SlotsOk, Attempt, Misreported, Lookups;
  }

  /** m_nlookup stays what the kernel holds if and only if the request is reported. */
  lemma {:induction false} InStepIff(w: World, op: Op)
    requires WorldOk(w) && WorldLegal(w, op)
    ensures InStep(Serve(w, op)) <==> InStep(w) && Reports(w.st.live, op)
  {
    hide Serve, SlotsOk, Misreported, Reclaims;
    var w' := Serve(w, op);
    ServeOk(w, op);
    NothingLost(w);
    NothingLost(w');
    if !Reports(w.st.live, op) {
      assert Loses(w.st.live, op, NextSlot(w.st.live));
    }
    if !InStep(w) {
      var i: nat :| Lost(w, i) != 0;
      assert Lost(w', i) != 0;
    }
  }

  lemma {:induction false} NothingLost(w: World)
    requires WorldOk(w)
    ensures InStep(w) <==> forall i: nat :: Lost(w, i) == 0
  {
    hide SlotsOk;
    if InStep(w) {
      forall i: nat ensures Lost(w, i) == 0 {
        assert Lookups(w.st.live, i) == Held(w, i);
      }
    }
  }

  function ServeAll(w: World, ops: seq<Op>): World
    requires forall k :: 0 <= k < |ops| ==> !ops[k].RestoreOp?
    decreases |ops|
  {
    if ops == [] then w else ServeAll(Serve(w, ops[0]), ops[1..])
  }

  ghost predicate LegalService(w: World, ops: seq<Op>)
    requires forall k :: 0 <= k < |ops| ==> !ops[k].RestoreOp?
    decreases |ops|
  {
    ops != [] ==> WorldLegal(w, ops[0]) && LegalService(Serve(w, ops[0]), ops[1..])
  }

  /** No request of the run is a misreported symlink. */
  ghost predicate AllReported(st: State, ops: seq<Op>)
    decreases |ops|
  {
    ops != [] ==> Reports(st.live, ops[0]) && AllReported(Step(st, ops[0]).0, ops[1..])
  }

  /** On every run without restore, the lookup count of each inode is the number of
      entries replied for it less the lookups forgotten, if and only if no symlink of
      the run was misreported. */
  lemma {:induction false} ServeAllOk(w: World, ops: seq<Op>)
    requires forall k :: 0 <= k < |ops| ==> !ops[k].RestoreOp?
    requires WorldOk(w) && LegalService(w, ops)
    ensures WorldOk(ServeAll(w, ops)) && ServeAll(w, ops).st == Run(w.st, ops)
    ensures InStep(ServeAll(w, ops)) <==> InStep(w) && AllReported(w.st, ops)
    decreases |ops|
  {
    hide Serve, WorldLegal, WorldOk, InStep, Reports, Step;
    if ops != [] {
      ServeOk(w, ops[0]);
      InStepIff(w, ops[0]);
      ServesStep(w, ops[0]);
      ServeAllOk(Serve(w, ops[0]), ops[1..]);
    }
  }

  lemma {:induction false} ServesStep(w: World, op: Op)
    requires !op.RestoreOp?
    ensures Serve(w, op).st == Step(w.st, op).0
  {
    hide Step, Attempt, Misreported;
  }

  /** FuseInit hands nothing to the kernel. */
  lemma {:induction false} InitWorldOk(blocks: word, files: word, fixed: seq<byte>, rootMode: nat, meta: seq<byte>)
    ensures var st := State(Init(blocks, files, fixed, rootMode, meta), map[]);
            var w := World(st, map[], map[], map[0 := 0, 1 := 1], 2);
            WorldOk(w) && InStep(w)
  {
    hide Init, TableOk, LinksOk, TreeOk;
    InitShape(blocks, files, fixed, rootMode, meta);
    InitOk(blocks, files, fixed, rootMode, meta);
  }

  /** Legal requests all along, with the kernel holding number i all along. */
  ghost predicate HoldsThroughout(w: World, ops: seq<Op>, i: nat)
    requires forall k :: 0 <= k < |ops| ==> !ops[k].RestoreOp?
    decreases |ops|
  {
    && Held(w, i) > 0
    && (ops != [] ==> WorldLegal(w, ops[0]) && HoldsThroughout(Serve(w, ops[0]), ops[1..], i))
  }

  /** While the kernel holds a number, it names the same object. */
  lemma {:induction false} NeverRebound(w: World, ops: seq<Op>, i: nat)
    requires forall k :: 0 <= k < |ops| ==> !ops[k].RestoreOp?
    requires WorldOk(w) && HoldsThroughout(w, ops, i)
    ensures Live(w.st.live, i) && Live(ServeAll(w, ops).st.live, i)
    ensures i in w.bound && i in ServeAll(w, ops).bound && ServeAll(w, ops).bound[i] == w.bound[i]
    ensures At(ServeAll(w, ops).st.live, i).h.nlookup >= Held(ServeAll(w, ops), i) > 0
    decreases |ops|
  {
    hide SlotsOk, Serve, WorldLegal, Reclaims;
    assert Lookups(w.st.live, i) == Held(w, i) + Lost(w, i);
    if ops != [] {
      ServeOk(w, ops[0]);
      NeverRebound(Serve(w, ops[0]), ops[1..], i);
    }
  }

  /** A lost lookup is never made good: its inode stays for as long as nothing is
      restored, even when its name and all the kernel holds are gone. */
  lemma {:induction false} LostStays(w: World, ops: seq<Op>, i: nat)
    requires forall k :: 0 <= k < |ops| ==> !ops[k].RestoreOp?
    requires WorldOk(w) && LegalService(w, ops) && Lost(w, i) > 0
    ensures Live(ServeAll(w, ops).st.live, i) && Lost(ServeAll(w, ops), i) >= Lost(w, i)
    ensures i in w.bound && i in ServeAll(w, ops).bound && ServeAll(w, ops).bound[i] == w.bound[i]
    decreases |ops|
  {
    hide SlotsOk, Serve, WorldLegal, Misreported;
    assert Lookups(w.st.live, i) == Held(w, i) + Lost(w, i);
    if ops != [] {
      ServeOk(w, ops[0]);
      LostStays(Serve(w, ops[0]), ops[1..], i);
    }
  }

  // ------------------------------------------------------------- the inode budget

  /** No more inodes in use than f_files, and f_ffree is exactly the rest. */
  ghost predicate Budget(fs: Fs) {
    LiveCount(fs) <= fs.stat.files && fs.stat.ffree == fs.stat.files - LiveCount(fs)
  }

  lemma {:induction false} AtLeastTwo(fs: Fs)
    requires SlotsOk(fs)
    ensures LiveCount(fs) >= 2
  {
    SumSplit(fs.nodes, 0, LiveW());
    SumBounds(fs.nodes[..0], LiveW());
    assert fs.nodes[1..][0] == fs.nodes[1];
    SumBounds(fs.nodes[1..], LiveW());
  }

  lemma {:induction false} StepBudget(fs: Fs, op: Op)
    requires SlotsOk(fs) && Spares(fs, op) && !op.CheckpointOp? && !op.RestoreOp?
    ensures FsStep(fs, op).0.stat.files == fs.stat.files
    ensures Budget(fs) ==> Budget(FsStep(fs, op).0)
  {
    hide FsStep, LiveCount, Drift, Reclaims;
    var g := FsStep(fs, op).0;
    StepSlots(fs, op);
    AtLeastTwo(g);
    if IsCreate(op) {
      CreateCount(fs, op);
    } else if IsQuiet(op) {
      QuietSteady(fs, op);
      SameSlotsOk(fs, g);
    } else if op.ForgetOp? {
      ForgetSlots(fs, op);
      ForgetIs(fs, op);
    } else {
      OtherSlots(fs, op);
      SameSlotsOk(fs, g);
    }
  }

  lemma {:induction false} CreateCount(fs: Fs, op: Op)
    requires SlotsOk(fs) && IsCreate(op)
    ensures var g := FsStep(fs, op).0;
            && g.stat.files == fs.stat.files
            && (LiveCount(g) == LiveCount(fs) || (fs.stat.ffree != 0 && LiveCount(g) == LiveCount(fs) + 1))
  {
    hide FsStep, SlotsOk, Enters, Finished, NewNode, NewBody, UseBlocks;
    CreateOutcome(fs, op);
    if Attempt(fs, op).Some? {
      FinishedSlots(fs, Attempt(fs, op).value, op.p, op.name);
      AbandonedCount(fs, Attempt(fs, op).value);
    } else {
      NotAttempted(fs, op);
    }
  }

  lemma {:induction false} AbandonedCount(fs: Fs, n: Node)
    ensures Abandoned(fs, n).stat.files == fs.stat.files && LiveCount(Abandoned(fs, n)) == LiveCount(fs)
  {
    SumAppend(fs.nodes, None, LiveW());
  }

  /** The budget holds on every run of every mount main accepts, in the live file
      system and all snapshots. */
  lemma {:induction false} MountedBudget(capacity: word, inodes: word, fixed: seq<byte>, rootMode: nat, meta: seq<byte>,
                                         ops: seq<Op>)
    requires Mountable(capacity, inodes)
    requires SparingRun(State(Mounted(capacity, inodes, fixed, rootMode, meta), map[]), ops)
    ensures AllBudget(Run(State(Mounted(capacity, inodes, fixed, rootMode, meta), map[]), ops))
  {
    hide Init, TableOk, SlotsOk, LinksOk, TreeOk, Budget, SparingRun, Run;
    var s0 := State(Mounted(capacity, inodes, fixed, rootMode, meta), map[]);
    InitOk(capacity / 512, inodes, fixed, rootMode, meta);
    InitBudget(capacity / 512, inodes, fixed, rootMode, meta);
    RunBudget(s0, ops, s0.live.stat.files);
  }

  /** FuseInit by itself needs two inodes; main never mounts with fewer. */
  lemma {:induction false} InitBudget(blocks: word, files: word, fixed: seq<byte>, rootMode: nat, meta: seq<byte>)
    ensures Budget(Init(blocks, files, fixed, rootMode, meta)) <==> files != 1
  {
    hide Init;
    var fs := Init(blocks, files, fixed, rootMode, meta);
    InitShape(blocks, files, fixed, rootMode, meta);
    assert fs.nodes == [fs.nodes[0]] + [fs.nodes[1]] && [] + [fs.nodes[0]] == [fs.nodes[0]];
    SumAppend([fs.nodes[0]], fs.nodes[1], LiveW());
    SumAppend([], fs.nodes[0], LiveW());
  }

  ghost predicate AllFiles(st: State, files: nat) {
    st.live.stat.files == files && forall k :: k in st.pool ==> st.pool[k].stat.files == files
  }

  ghost predicate AllBudget(st: State) {
    Budget(st.live) && forall k :: k in st.pool ==> Budget(st.pool[k])
  }

  lemma {:induction false} RunBudget(st: State, ops: seq<Op>, files: nat)
    requires StateSlots(st) && SparingRun(st, ops) && AllFiles(st, files)
    ensures AllFiles(Run(st, ops), files)
    ensures AllBudget(st) ==> AllBudget(Run(st, ops))
    decreases |ops|
  {
    hide SlotsOk, FsStep, Budget, Spares;
    if ops != [] {
      var op := ops[0];
      if !op.CheckpointOp? && !op.RestoreOp? {
        StepBudget(st.live, op);
        StepSlots(st.live, op);
      }
      RunBudget(Step(st, op).0, ops[1..], files);
    }
  }
}
