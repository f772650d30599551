/** No directory is its own ancestor, on every sober run whose renames do not move a
    directory into its own subtree: renames need not fit and parents need not be named. */
module Trees {
  import opened Base
  import opened Model
  import opened Graph
  import opened Invariant
  import opened Namespace
  import opened RenameProofs
  import opened Runs
  import opened Laws
  import opened Accounting
  import opened Slots
  import opened Names

  /** The chain of naming parents of i ends at an inode without a name. */
  ghost predicate Topped(fs: Fs, i: nat) {
    exists a: nat, k: nat :: Climbs(fs, i, a, k) && LinksTo(fs, a) == 0
  }

  ghost predicate AllTopped(fs: Fs) {
    forall i: nat :: IsDir(fs, i) ==> Topped(fs, i)
  }

  /** A directory is not moved into its own subtree. */
  ghost predicate NoLoop(fs: Fs, op: Op) {
    op.RenameOp? && RenameCheck(fs, op.p, op.name, op.np) == OK ==>
      var src := ChildIno(Children(fs, op.p), op.name);
      IsDir(fs, src) ==> !Within(fs, op.np, src)
  }

  // ------------------------------------------------------------- what it means

  lemma {:induction false} WayUp(fs: Fs, i: nat, a: nat, k: nat, n: nat)
    requires NamesOk(fs) && IsDir(fs, i) && LinksTo(fs, a) == 0 && Climbs(fs, i, a, k) && Climbs(fs, i, a, n)
    ensures k == n
    decreases k
  {
    hide LinksTo, In, Subdirs;
    forall q: nat ensures In(fs, q, a) <= 0 {
      InBounds(fs, q, a);
    }
    if k > 0 && n > 0 {
      var p: nat :| In(fs, p, i) > 0 && Climbs(fs, p, a, k - 1);
      var q: nat :| In(fs, q, i) > 0 && Climbs(fs, q, a, n - 1);
      InBounds(fs, p, i);
      if p != q {
        TwoHolders(fs, p, q, i);
      }
      WayUp(fs, p, a, k - 1, n - 1);
    }
  }

  /** With at most one name each, no directory meets itself on the way up. */
  lemma {:induction false} NoCycle(fs: Fs, d: nat, k: nat)
    requires NamesOk(fs) && AllTopped(fs) && IsDir(fs, d) && Climbs(fs, d, d, k)
    ensures k == 0
  {
    hide LinksTo, Subdirs, Climbs, NamesOk;
    var a: nat, n: nat :| Climbs(fs, d, a, n) && LinksTo(fs, a) == 0;
    ClimbJoin(fs, d, d, a, k, n);
    WayUp(fs, d, a, k + n, n);
  }

  // --------------------------------------------------------------- how it is kept

  /** Whatever else happens, a directory other than src keeps its naming parents or has
      lost its name, and gets no name if it had none. */
  ghost predicate EdgesStay(fs: Fs, g: Fs, src: nat) {
    forall x: nat :: IsDir(fs, x) && x != src ==>
      LinksTo(g, x) == 0 || (LinksTo(fs, x) > 0 && forall p: nat :: In(fs, p, x) > 0 ==> In(g, p, x) > 0)
  }

  lemma {:induction false} OneUp(fs: Fs, i: nat, p: nat)
    requires In(fs, p, i) > 0 && Topped(fs, p)
    ensures Topped(fs, i)
  {
    hide In, LinksTo;
    var a: nat, k: nat :| Climbs(fs, p, a, k) && LinksTo(fs, a) == 0;
    assert Climbs(fs, i, a, k + 1);
  }

  lemma {:induction false} ToppedStays(fs: Fs, g: Fs, src: nat, i: nat, a: nat, k: nat)
    requires EdgesStay(fs, g, src) && IsDir(fs, i) && Climbs(fs, i, a, k) && LinksTo(fs, a) == 0
    requires Within(fs, i, src) ==> Topped(g, src)
    ensures Topped(g, i)
    decreases k
  {
    hide In, LinksTo;
    if i == src {
      assert Climbs(fs, i, src, 0);
    } else if LinksTo(g, i) == 0 {
      assert Climbs(g, i, i, 0);
    } else if k > 0 {
      var p: nat :| In(fs, p, i) > 0 && Climbs(fs, p, a, k - 1);
      InBounds(fs, p, i);
      if Within(fs, p, src) {
        var m: nat :| Climbs(fs, p, src, m);
        assert Climbs(fs, i, src, m + 1);
      }
      ToppedStays(fs, g, src, p, a, k - 1);
      OneUp(g, i, p);
    }
  }

  /** When src itself is topped or is no directory, everything stays topped. */
  lemma {:induction false} StayTopped(fs: Fs, g: Fs, src: nat)
    requires AllTopped(fs) && EdgesStay(fs, g, src)
    requires IsDir(fs, src) ==> Topped(g, src)
    ensures forall i: nat :: IsDir(fs, i) ==> Topped(g, i)
  {
    hide In, LinksTo, EdgesStay, Topped;
    forall i: nat | IsDir(fs, i) ensures Topped(g, i) {
      TopOf(fs, i);
      var a: nat, k: nat :| Climbs(fs, i, a, k) && LinksTo(fs, a) == 0;
      if Within(fs, i, src) {
        OnlyDirsAbove(fs, i, src);
      }
      ToppedStays(fs, g, src, i, a, k);
    }
  }

  lemma {:induction false} TopOf(fs: Fs, i: nat)
    requires Topped(fs, i)
    ensures exists a: nat, k: nat :: Climbs(fs, i, a, k) && LinksTo(fs, a) == 0
  {
  }

  lemma {:induction false} OnlyDirsAbove(fs: Fs, i: nat, a: nat)
    requires IsDir(fs, i) && Within(fs, i, a)
    ensures IsDir(fs, a)
  {
    var k: nat :| Climbs(fs, i, a, k);
    DirsAbove(fs, i, a, k);
  }

  lemma {:induction false} DirsAbove(fs: Fs, i: nat, a: nat, k: nat)
    requires IsDir(fs, i) && Climbs(fs, i, a, k)
    ensures IsDir(fs, a)
    decreases k
  {
    hide In, LinksTo;
    if k > 0 {
      var p: nat :| In(fs, p, i) > 0 && Climbs(fs, p, a, k - 1);
      InBounds(fs, p, i);
      DirsAbove(fs, p, a, k - 1);
    }
  }

  /** src now hangs under np, which is not below src. */
  lemma {:induction false} MovedTopped(fs: Fs, g: Fs, src: nat, np: nat)
    requires AllTopped(fs) && EdgesStay(fs, g, src) && IsDir(fs, np) && !Within(fs, np, src) && In(g, np, src) > 0
    ensures forall i: nat :: IsDir(fs, i) ==> Topped(g, i)
  {
    hide In, LinksTo, EdgesStay, Topped;
    TopOf(fs, np);
    var a: nat, k: nat :| Climbs(fs, np, a, k) && LinksTo(fs, a) == 0;
    ToppedStays(fs, g, src, np, a, k);
    OneUp(g, src, np);
    StayTopped(fs, g, src);
  }

  // -------------------------------------------------------------------- requests

  /** Counts of directories unchanged: number 0 stands in for "no directory moves". */
  lemma {:induction false} SteadyTopped(fs: Fs, g: Fs)
    requires AllTopped(fs) && !IsDir(fs, 0)
    requires forall x: nat :: IsDir(g, x) ==> IsDir(fs, x)
    requires forall x: nat :: IsDir(fs, x) ==> LinksTo(g, x) == 0 || LinksTo(g, x) == LinksTo(fs, x)
    requires forall p: nat, x: nat :: IsDir(fs, x) && LinksTo(g, x) != 0 ==> In(g, p, x) == In(fs, p, x)
    requires forall x: nat :: LinksTo(fs, x) >= 0
    ensures AllTopped(g)
  {
    hide In, LinksTo, Topped;
    assert EdgesStay(fs, g, 0);
    StayTopped(fs, g, 0);
  }

  lemma {:induction false} QuietTopped(fs: Fs, g: Fs)
    requires AllTopped(fs) && NamesOk(fs) && !IsDir(fs, 0) && SameGraph(fs, g)
    ensures AllTopped(g)
  {
    hide In, LinksTo, Subdirs, NonDots, Topped, NamesOk;
    NamesRoot(fs);
    SameGraphCounts(fs, g);
    SteadyTopped(fs, g);
  }

  lemma {:induction false} LookupTopped(fs: Fs, i: nat, n: int)
    requires AllTopped(fs) && NamesOk(fs) && TableOk(fs) && !IsDir(fs, 0)
    ensures AllTopped(AddLookups(fs, i, n))
  {
    hide AllTopped, NamesOk, TableOk, Wrap;
    if Live(fs, i) {
      SetHeadOk(fs, i, At(AddLookups(fs, i, n), i).h);
      QuietTopped(fs, AddLookups(fs, i, n));
    }
  }

  /** One entry comes or goes; a directory may lose its name but gets none. */
  lemma {:induction false} EditTopped(fs: Fs, g: Fs, d: nat, off: Option<Entry>, on: Option<Entry>)
    requires AllTopped(fs) && NamesOk(fs) && !IsDir(fs, 0) && SameKinds(fs, g)
    requires Recount(fs, g, d, off, on)
    requires forall x: nat :: IsDir(fs, x) ==> !Hits(on, x)
    ensures AllTopped(g)
  {
    hide In, LinksTo, Subdirs, NonDots, Topped, NamesOk;
    NamesRoot(fs);
    forall x: nat | IsDir(fs, x) ensures LinksTo(g, x) == 0 || LinksTo(g, x) == LinksTo(fs, x) {
      OneName(fs, x);
      NamesNonNegative(g);
    }
    SteadyTopped(fs, g);
  }

  lemma {:induction false} OneName(fs: Fs, x: nat)
    requires NamesOk(fs) && IsDir(fs, x)
    ensures LinksTo(fs, x) <= 1
  {
  }

  lemma {:induction false} NamesNonNegative(fs: Fs)
    ensures forall x: nat :: LinksTo(fs, x) >= 0
  {
    CountsNonNegative(fs);
  }

  lemma {:induction false} LinkTopped(fs: Fs, ino: nat, np: nat, newname: Name)
    requires TableOk(fs) && NamesOk(fs) && AllTopped(fs) && !IsDir(fs, 0) && Sober(fs, LinkOp(ino, np, newname))
    ensures AllTopped(Link(fs, ino, np, newname).0)
  {
    hide LinksTo, In, Subdirs, NonDots, NodeOk, TableOk, Recount, Edited, NamesOk, AllTopped;
    if Link(fs, ino, np, newname).1.EntryOf? {
      var e := Some(Entry(newname, ino));
      var f := AddChild(fs, np, newname, ino).0;
      var g := AddLinks(f, ino, 1);
      AddChildOk(fs, np, newname, ino);
      EditedKinds(fs, f, np, None, e);
      EditedLinks(fs, f, np, None, e);
      AddLinksOk(f, ino, 1);
      EditThenTouch(fs, f, g, np, None, e);
      EditTopped(fs, g, np, None, e);
      SameNames(fs, ino, np, newname);
      LookupTopped(g, ino, 1);
    }
  }

  lemma {:induction false} SameNames(fs: Fs, ino: nat, np: nat, newname: Name)
    requires TableOk(fs) && NamesOk(fs) && Sober(fs, LinkOp(ino, np, newname))
    requires Link(fs, ino, np, newname).1.EntryOf?
    ensures NamesOk(AddLinks(AddChild(fs, np, newname, ino).0, ino, 1))
  {
    hide LinksTo, In, Subdirs, NonDots, NodeOk, TableOk, Recount, Edited, NamesOk;
    var e := Some(Entry(newname, ino));
    var f := AddChild(fs, np, newname, ino).0;
    var g := AddLinks(f, ino, 1);
    AddChildOk(fs, np, newname, ino);
    AddLinksOk(f, ino, 1);
    EditThenTouch(fs, f, g, np, None, e);
    LinkBalances(fs, g, np, None, e, ino);
  }

  lemma {:induction false} UnlinkTopped(fs: Fs, p: nat, name: Name)
    requires TableOk(fs) && NamesOk(fs) && AllTopped(fs) && !IsDir(fs, 0) && Sober(fs, UnlinkOp(p, name))
    ensures AllTopped(Unlink(fs, p, name).0)
  {
    hide LinksTo, In, Subdirs, NonDots, NodeOk, TableOk, Recount, Edited, NamesOk, AllTopped;
    if Unlink(fs, p, name).1 == Done {
      var es := Children(fs, p);
      var k := Find(es, name);
      Found(fs, p, name);
      var f := RemoveChild(fs, p, name);
      var g := AddLinks(f, es[k].ino, -1);
      RemoveChildOk(fs, p, name);
      EditedKinds(fs, f, p, Some(es[k]), None);
      EditedLinks(fs, f, p, Some(es[k]), None);
      AddLinksOk(f, es[k].ino, -1);
      EditThenTouch(fs, f, g, p, Some(es[k]), None);
      EditTopped(fs, g, p, Some(es[k]), None);
    }
  }

  lemma {:induction false} RmdirTopped(fs: Fs, p: nat, name: Name)
    requires TableOk(fs) && NamesOk(fs) && AllTopped(fs) && !IsDir(fs, 0) && !Dot(name)
    ensures AllTopped(Rmdir(fs, p, name).0)
  {
    hide LinksTo, In, Subdirs, NonDots, NodeOk, TableOk, Recount, Edited, NamesOk, AllTopped, IsEmpty;
    if Rmdir(fs, p, name).1 == Done {
      var es := Children(fs, p);
      var k := Find(es, name);
      var ino := es[k].ino;
      Found(fs, p, name);
      var f := RemoveChild(fs, p, name);
      var f1 := AddLinks(f, p, -1);
      var g := Rmdir(fs, p, name).0;
      RemoveChildOk(fs, p, name);
      EditedKinds(fs, f, p, Some(es[k]), None);
      EditedLinks(fs, f, p, Some(es[k]), None);
      AddLinksOk(f, p, -1);
      SetHeadOk(f1, ino, At(g, ino).h);
      EditThenTouch(fs, f, g, p, Some(es[k]), None);
      EditTopped(fs, g, p, Some(es[k]), None);
    }
  }

  // ----------------------------------------------------------------------- rename

  /** After a move or a replacement: src hangs under np, dst has lost its name. */
  lemma {:induction false} RecountTopped(fs: Fs, g: Fs, p: nat, name: Name, np: nat, newname: Name, src: nat,
                                         off: Option<Entry>)
    requires AllTopped(fs) && NamesOk(fs) && !IsDir(fs, 0) && SameKinds(fs, g) && IsDir(fs, np)
    requires Recount2(fs, g, np, off, Some(Entry(newname, src)), p, Some(Entry(name, src)))
    requires !Dot(name) && !Dot(newname) && !Hits(off, src) && In(fs, p, src) > 0
    requires IsDir(fs, src) ==> !Within(fs, np, src)
    ensures AllTopped(g)
  {
    hide In, LinksTo, Subdirs, NonDots, Topped, NamesOk, Within;
    NamesRoot(fs);
    NamesNonNegative(g);
    forall x: nat | IsDir(fs, x) ensures LinksTo(fs, x) <= 1 {
      OneName(fs, x);
    }
    assert EdgesStay(fs, g, src);
    if IsDir(fs, src) {
      InBounds(fs, np, src);
      assert In(g, np, src) > 0;
      MovedTopped(fs, g, src, np);
    } else {
      StayTopped(fs, g, src);
    }
  }

  lemma {:induction false} RenameTopped(fs: Fs, p: nat, name: Name, np: nat, newname: Name)
    requires Tidy(fs) && NamesOk(fs) && AllTopped(fs)
    requires Sober(fs, RenameOp(p, name, np, newname)) && NoLoop(fs, RenameOp(p, name, np, newname))
    ensures AllTopped(Rename(fs, p, name, np, newname).0)
  {
    hide LinksTo, In, Subdirs, NonDots, NamesOk, TableOk, SlotsOk, Lawful, Tagged, Recount, Recount2, Move, Replace;
    hide NameFits, AllTopped, Within;
    if RenameCheck(fs, p, name, np) == OK {
      TableIff(fs);
      var src, dst := ChildIno(Children(fs, p), name), ChildIno(Children(fs, np), newname);
      PresentName(fs, p, name);
      Found(fs, p, name);
      var g := Rename(fs, p, name, np, newname).0;
      if !Occupied(fs, dst) {
        NameFitsIff(fs, np, newname, src);
        if NameFits(fs, np, newname) {
          MoveShape(fs, p, name, np, newname, src);
          RecountTopped(fs, g, p, name, np, newname, src, None);
        } else {
          LostShape(fs, p, name, np, newname, src);
          EditTopped(fs, g, p, Some(Entry(name, src)), None);
        }
      } else if ReplaceCheck(fs, src, dst) == OK {
        PresentName(fs, np, newname);
        Found(fs, np, newname);
        if IsDir(fs, dst) {
          EmptyIsEmpty(fs, dst);
          NoEntries(fs, dst);
        }
        ReplaceShape(fs, p, name, np, newname, src, dst);
        RecountTopped(fs, g, p, name, np, newname, src, Some(Entry(newname, dst)));
      }
    }
  }

  // --------------------------------------------------------------- slots and names

  lemma {:induction false} ReclaimTopped(fs: Fs, g: Fs, ino: nat)
    requires AllTopped(fs) && NamesOk(fs) && !IsDir(fs, 0) && Live(fs, ino) && At(fs, ino).h.nlink == 0
    requires g.nodes == fs.nodes[ino := None]
    ensures AllTopped(g)
  {
    hide In, Subdirs, NonDots, Topped;
    CountsNonNegative(fs);
    assert LinksTo(fs, ino) == 0;
    forall x: nat ensures LinksTo(g, x) == LinksTo(fs, x) - In(fs, ino, x) {
      ClearedLinks(fs, g, ino, x);
    }
    forall p: nat, x: nat ensures In(g, p, x) == if p == ino then 0 else In(fs, p, x) {
      ClearedIn(fs, g, ino, p, x);
    }
    hide LinksTo;
    forall x: nat ensures 0 <= In(fs, ino, x) <= LinksTo(fs, x) {
      InBounds(fs, ino, x);
    }
    SteadyTopped(fs, g);
  }

  lemma {:induction false} ClearedLinks(fs: Fs, g: Fs, i: nat, x: nat)
    requires i < |fs.nodes| && g.nodes == fs.nodes[i := None]
    ensures LinksTo(g, x) == LinksTo(fs, x) - In(fs, i, x)
  {
    SumUpdate(fs.nodes, i, None, HolderW(x));
  }

  lemma {:induction false} ClearedIn(fs: Fs, g: Fs, i: nat, p: nat, x: nat)
    requires i < |fs.nodes| && g.nodes == fs.nodes[i := None]
    ensures In(g, p, x) == if p == i then 0 else In(fs, p, x)
  {
  }

  lemma {:induction false} ForgetTopped(fs: Fs, ino: nat, n: nat)
    requires TableOk(fs) && NamesOk(fs) && AllTopped(fs) && !IsDir(fs, 0)
    ensures AllTopped(Forget(fs, ino, n))
  {
    hide TableOk, NamesOk, AllTopped, Wrap, UseBlocks, UseInodes;
    var f := AddLookups(fs, ino, 0 - n);
    LookupNames(fs, ino, 0 - n);
    LookupTopped(fs, ino, 0 - n);
    if Live(fs, ino) && At(f, ino).h.nlookup == 0 && At(f, ino).h.nlink == 0 {
      ReclaimTopped(f, Forget(fs, ino, n), ino);
    }
  }

  /** A new node, named by p or not yet, changes no edge between the others. */
  lemma {:induction false} ArrivesTopped(fs: Fs, f: Fs, g: Fs, p: nat, name: Name, ino: nat)
    requires AllTopped(fs) && NamesOk(fs) && !IsDir(fs, 0) && IsDir(fs, p) && !Dot(name) && !Live(fs, ino)
    requires forall j: nat :: j != ino ==> (IsDir(f, j) <==> IsDir(fs, j))
    requires forall x: nat :: LinksTo(f, x) == LinksTo(fs, x)
    requires forall q: nat, x: nat :: In(f, q, x) == In(fs, q, x)
    requires Recount(f, g, p, None, Some(Entry(name, ino))) && SameKinds(f, g)
    ensures AllTopped(g)
  {
    hide In, LinksTo, Subdirs, NonDots, Topped, NamesOk;
    NamesRoot(fs);
    assert EdgesStay(fs, g, 0);
    StayTopped(fs, g, 0);
    InBounds(fs, p, ino);
    assert In(g, p, ino) > 0;
    OneUp(g, ino, p);
  }

  lemma {:induction false} FinishedTopped(fs: Fs, op: Op)
    requires Tidy(fs) && NamesOk(fs) && AllTopped(fs) && IsCreate(op) && Attempt(fs, op).Some? && Enters(fs, op)
    requires !Dot(op.name) && RoomToLink(fs, op.p)
    ensures AllTopped(Finished(fs, Attempt(fs, op).value, op.p, op.name))
  {
    hide LinksTo, In, Subdirs, NonDots, TableOk, Tidy, NamesOk, AllTopped, Recount, Edited, Placed, NameFits;
    hide Attempt, AddChild;
    var n, p, ino := Attempt(fs, op).value, op.p, NextSlot(fs);
    var f := Placed(fs, n);
    TidyTable(fs);
    ZeroNoDir(fs);
    PlacedNames(fs, op);
    PlacedEdges(fs, op);
    AttemptShape(fs, op);
    NameFitsIff(f, p, op.name, ino);
    var f1 := AddChild(f, p, op.name, ino).0;
    AddChildOk(f, p, op.name, ino);
    EditedKinds(f, f1, p, None, Some(Entry(op.name, ino)));
    EditedLinks(f, f1, p, None, Some(Entry(op.name, ino)));
    var g := if n.body.DirBody? then AddLinks(f1, p, 1) else f1;
    if n.body.DirBody? {
      AddLinksOk(f1, p, 1);
    }
    EditThenTouch(f, f1, g, p, None, Some(Entry(op.name, ino)));
    ArrivesTopped(fs, f, g, p, op.name, ino);
    NewName(fs, f, g, p, op.name, ino);
    LookupTopped(g, ino, 1);
  }

  lemma {:induction false} PlacedEdges(fs: Fs, op: Op)
    requires Tidy(fs) && NamesOk(fs) && IsCreate(op) && Attempt(fs, op).Some?
    ensures forall q: nat, x: nat :: In(Placed(fs, Attempt(fs, op).value), q, x) == In(fs, q, x)
  {
    hide SlotsOk, Lawful, LinksTo, In, Attempt;
    var n, ino := Attempt(fs, op).value, NextSlot(fs);
    var f := Placed(fs, n);
    NextIsFree(fs);
    NewTag(fs, op);
    hide Tagged, ZeroFree;
    NotNamed(fs, ino);
    if IsDir(f, ino) {
      AllDots(f, ino);
    }
    SlotEffect(fs, f, ino, Some(n));
  }

  lemma {:induction false} ZeroNoDir(fs: Fs)
    requires Tidy(fs)
    ensures !IsDir(fs, 0)
  {
    hide SlotsOk, Lawful, Tagged;
  }

  lemma {:induction false} AbandonedTopped(fs: Fs, n: Node)
    requires Tidy(fs) && NamesOk(fs) && AllTopped(fs)
    ensures AllTopped(Abandoned(fs, n))
  {
    hide LinksTo, In, Subdirs, UseBlocks, Numbered, Lawful, Topped;
    var g, ino := Abandoned(fs, n), NextSlot(fs);
    ZeroNoDir(fs);
    NextIsFree(fs);
    assert fs.deleted != [] ==> fs.deleted[0] in fs.deleted;
    assert g.nodes == PutSlot(fs.nodes, ino, None);
    hide SlotsOk, Abandoned;
    NotNamed(fs, ino);
    SlotEffect(fs, g, ino, None);
    NamesRoot(fs);
    hide NonDots, NamesOk;
    SteadyTopped(fs, g);
  }

  lemma {:induction false} CreateTopped(fs: Fs, op: Op)
    requires Tidy(fs) && NamesOk(fs) && AllTopped(fs) && IsCreate(op) && !Dot(op.name) && RoomToLink(fs, op.p)
    ensures AllTopped(FsStep(fs, op).0)
  {
    hide FsStep, SlotsOk, Numbered, Lawful, NamesOk, AllTopped, Attempt, Enters, Finished, Abandoned;
    CreateOutcome(fs, op);
    if Attempt(fs, op).Some? {
      AbandonedTopped(fs, Attempt(fs, op).value);
      if Enters(fs, op) {
        FinishedTopped(fs, op);
      }
    } else {
      NotAttempted(fs, op);
    }
  }

  // --------------------------------------------------------------- steps and runs

  lemma {:induction false} StepTopped(fs: Fs, op: Op)
    requires Tidy(fs) && NamesOk(fs) && AllTopped(fs) && Sober(fs, op) && NoLoop(fs, op)
    requires !op.CheckpointOp? && !op.RestoreOp?
    ensures AllTopped(FsStep(fs, op).0)
  {
    hide Tidy, NamesOk, AllTopped, TableOk, AddLookups, SetData, Overwrite, Resized, HasSpaceFor, Occupied;
    hide Rename, Rmdir, Forget, Unlink, Link, RenameCheck, Within;
    TidyTable(fs);
    ZeroNoDir(fs);
    if IsCreate(op) {
      hide FsStep;
      CreateTopped(fs, op);
    } else {
      match op
      case LookupOp(p, name) =>
        if CheckParent(fs, p) == OK {
          LookupTopped(fs, ChildIno(Children(fs, p), name), 1);
        }
      case UnlinkOp(p, name) => UnlinkTopped(fs, p, name);
      case RmdirOp(p, name) => RmdirTopped(fs, p, name);
      case RenameOp(p, name, np, newname) => RenameTopped(fs, p, name, np, newname);
      case LinkOp(ino, np, newname) => LinkTopped(fs, ino, np, newname);
      case ForgetOp(ino, n) => ForgetTopped(fs, ino, n);
      case WriteOp(ino, data, off, mem) =>
        if IsFile(fs, ino) {
          SetDataOk(fs, ino, Overwrite(At(fs, ino).body.data, data, off));
          QuietTopped(fs, SetData(fs, ino, Overwrite(At(fs, ino).body.data, data, off)));
        }
      case TruncateOp(ino, size, mem) =>
        if IsFile(fs, ino) {
          SetDataOk(fs, ino, Resized(At(fs, ino).body.data, size));
          QuietTopped(fs, SetData(fs, ino, Resized(At(fs, ino).body.data, size)));
        }
      case ReadOp(_, _, _) =>
      case SetAttrOp(ino, mode, meta) =>
        if !Gone(fs, ino) {
          GoneZero(fs);
          SetHeadOk(fs, ino, At(fs, ino).h.(mode := mode, meta := meta));
          QuietTopped(fs, SetHead(fs, ino, At(fs, ino).h.(mode := mode, meta := meta)));
        }
    }
  }

  ghost predicate StateTopped(st: State) {
    AllTopped(st.live) && forall k :: k in st.pool ==> AllTopped(st.pool[k])
  }

  ghost predicate LoopFreeRun(st: State, ops: seq<Op>)
    decreases |ops|
  {
    ops != [] ==> NoLoop(st.live, ops[0]) && LoopFreeRun(Step(st, ops[0]).0, ops[1..])
  }

  lemma {:induction false} RunTopped(st: State, ops: seq<Op>)
    requires StateSafe(st) && StateTopped(st) && SoberRun(st, ops) && LoopFreeRun(st, ops)
    ensures StateSafe(Run(st, ops)) && StateTopped(Run(st, ops))
    decreases |ops|
  {
    hide Tidy, NamesOk, AllTopped, FsStep, Sober, NoLoop;
    if ops != [] {
      StepSafe(st, ops[0]);
      if !ops[0].CheckpointOp? && !ops[0].RestoreOp? {
        StepTopped(st.live, ops[0]);
      }
      RunTopped(Step(st, ops[0]).0, ops[1..]);
    }
  }

  lemma {:induction false} InitTopped(blocks: word, files: word, fixed: seq<byte>, rootMode: nat, meta: seq<byte>)
    ensures AllTopped(Init(blocks, files, fixed, rootMode, meta))
  {
    hide Init, TableOk, SlotsOk, TreeOk, LinksTo, Subdirs;
    var fs := Init(blocks, files, fixed, rootMode, meta);
    InitShape(blocks, files, fixed, rootMode, meta);
    InitOk(blocks, files, fixed, rootMode, meta);
    assert Climbs(fs, ROOT, ROOT, 0);
  }

  /** On every sober run from FuseInit whose renames move no directory into its own
      subtree, in the live table and every snapshot: each directory has at most one
      name, its chain of naming parents ends, and no directory meets itself on it. */
  lemma {:induction false} Acyclic(blocks: word, files: word, fixed: seq<byte>, rootMode: nat, meta: seq<byte>,
                                   ops: seq<Op>, fs: Fs, d: nat)
    requires var s0 := State(Init(blocks, files, fixed, rootMode, meta), map[]);
             && SoberRun(s0, ops) && LoopFreeRun(s0, ops)
             && (fs == Run(s0, ops).live || exists k :: k in Run(s0, ops).pool && fs == Run(s0, ops).pool[k])
    requires IsDir(fs, d)
    ensures LinksTo(fs, d) <= 1 && Topped(fs, d)
    ensures forall k: nat :: Climbs(fs, d, d, k) ==> k == 0
  {
    hide Init, Run, SoberRun, LoopFreeRun, Tidy, LinksTo, Topped, Climbs;
    var s0 := State(Init(blocks, files, fixed, rootMode, meta), map[]);
    InitSafe(blocks, files, fixed, rootMode, meta);
    InitTopped(blocks, files, fixed, rootMode, meta);
    RunTopped(s0, ops);
    OneName(fs, d);
    hide NamesOk;
    forall k: nat | Climbs(fs, d, d, k) ensures k == 0 {
      NoCycle(fs, d, k);
    }
  }
}
