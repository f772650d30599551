/** Rename, both branches: invariant and meaning. */
module RenameProofs {
  import opened Base
  import opened Model
  import opened Graph
  import opened Invariant
  import opened Namespace

  /** Find depends on the names only. */
  lemma {:induction false} FindSame(es: seq<Entry>, es': seq<Entry>, name: Name)
    requires |es| <= |es'| && forall j :: 0 <= j < |es| ==> es'[j].name == es[j].name
    requires Find(es, name) < |es|
    ensures Find(es', name) == Find(es, name)
  {
  }

  /** The counts after two edits: on one directory, then on another. */
  ghost predicate Recount2(fs: Fs, g: Fs, d1: nat, off1: Option<Entry>, on1: Option<Entry>,
                           d2: nat, off2: Option<Entry>)
  {
    && (forall x: nat :: LinksTo(g, x) == LinksTo(fs, x) - B2I(Hits(off1, x)) + B2I(Hits(on1, x)) - B2I(Hits(off2, x)))
    && (forall q: nat, x: nat ::
          In(g, q, x) == In(fs, q, x) - B2I(q == d1 && Hits(off1, x)) + B2I(q == d1 && Hits(on1, x))
                         - B2I(q == d2 && Hits(off2, x)))
    && (forall i: nat ::
          Subdirs(g, i) == Subdirs(fs, i) - B2I(i == d1 && HitsDir(fs, off1)) + B2I(i == d1 && HitsDir(fs, on1))
                           - B2I(i == d2 && HitsDir(fs, off2)))
    && (forall i: nat :: i != d1 && i != d2 ==> NonDots(g, i) == NonDots(fs, i))
  }

  lemma {:induction false} TwoEdits(fs: Fs, f0: Fs, f1: Fs, f2: Fs, g: Fs,
                 d1: nat, off1: Option<Entry>, on1: Option<Entry>, d2: nat, off2: Option<Entry>)
    requires SameGraph(fs, f0) && Edited(f0, f1, d1, off1, on1) && Edited(f1, f2, d2, off2, None) && SameGraph(f2, g)
    ensures Recount2(fs, g, d1, off1, on1, d2, off2)
  {
    hide LinksTo, In, Subdirs, NonDots, Edited, Recount, Recount2;
    SameGraphCounts(fs, f0);
    EditThenTouch(f1, f2, g, d2, off2, None);
    EditEffect(f0, f1, d1, off1, on1);
    EditedKinds(f0, f1, d1, off1, on1);
    TwoRecounts(fs, f0, f1, g, d1, off1, on1, d2, off2);
  }

  lemma {:induction false} EditedKinds(fs: Fs, g: Fs, d: nat, off: Option<Entry>, on: Option<Entry>)
    requires Edited(fs, g, d, off, on)
    ensures forall i: nat :: IsDir(g, i) <==> IsDir(fs, i)
  {
  }

  lemma {:induction false} TwoRecounts(fs: Fs, f0: Fs, f1: Fs, g: Fs,
                    d1: nat, off1: Option<Entry>, on1: Option<Entry>, d2: nat, off2: Option<Entry>)
    requires forall x: nat :: LinksTo(f0, x) == LinksTo(fs, x)
    requires forall p: nat, x: nat :: In(f0, p, x) == In(fs, p, x)
    requires forall i: nat :: Subdirs(f0, i) == Subdirs(fs, i) && NonDots(f0, i) == NonDots(fs, i)
    requires forall i: nat :: (IsDir(f0, i) <==> IsDir(fs, i)) && (IsDir(f1, i) <==> IsDir(f0, i))
    requires Recount(f0, f1, d1, off1, on1) && Recount(f1, g, d2, off2, None)
    ensures Recount2(fs, g, d1, off1, on1, d2, off2)
  {
    hide LinksTo, In, Subdirs, NonDots;
  }

  /** All live inodes keep their class. */
  ghost predicate SameKinds(fs: Fs, g: Fs) {
    forall j: nat :: (Live(g, j) <==> Live(fs, j)) && (IsDir(g, j) <==> IsDir(fs, j))
  }

  function Nlink(fs: Fs, i: nat): int {
    if Live(fs, i) then At(fs, i).h.nlink else 0
  }

  // ----------------------------------------------- link counts and tree, abstractly

  /** Moving src to a free name; for a directory the parents trade one link. */
  lemma {:induction false} MoveLinks(fs: Fs, g: Fs, p: nat, name: Name, np: nat, newname: Name, src: nat)
    requires LinksOk(fs) && !Dot(name) && !Dot(newname) && IsDir(fs, p) && IsDir(fs, np) && Live(fs, src)
    requires Recount2(fs, g, np, None, Some(Entry(newname, src)), p, Some(Entry(name, src)))
    requires SameKinds(fs, g)
    requires forall j: nat :: Live(fs, j) ==>
               Nlink(g, j) == Nlink(fs, j) + (if IsDir(fs, src) then B2I(j == np) - B2I(j == p) else 0)
    ensures LinksOk(g)
  {
  }

  /** Every directory but the leaf x0 still climbs to the root once src hangs under np. */
  lemma {:induction false} StillRooted(fs: Fs, g: Fs, src: nat, np: nat, x0: nat)
    requires TreeOk(fs) && EdgesKept(fs, g, src, x0) && IsLeaf(fs, x0)
    requires IsDir(fs, np) && Named(fs, np) && np != x0 && !Within(fs, np, src) && In(g, np, src) > 0
    ensures forall i: nat :: IsDir(fs, i) && Named(fs, i) && i != x0 ==> Within(g, i, ROOT)
  {
    hide LinksTo, In, NonDots;
    var m: nat :| Climbs(fs, np, ROOT, m);
    ClimbAvoids(fs, g, src, x0, np, m);
    forall i: nat | IsDir(fs, i) && Named(fs, i) && i != x0 ensures Within(g, i, ROOT) {
      var k: nat :| Climbs(fs, i, ROOT, k);
      ClimbRerouted(fs, g, src, np, x0, i, k);
    }
  }

  lemma {:induction false} MoveTree(fs: Fs, g: Fs, p: nat, name: Name, np: nat, newname: Name, src: nat)
    requires LinksOk(fs) && TreeOk(fs) && !Dot(name) && !Dot(newname)
    requires IsDir(fs, p) && IsDir(fs, np) && Named(fs, p) && Named(fs, np)
    requires Recount2(fs, g, np, None, Some(Entry(newname, src)), p, Some(Entry(name, src)))
    requires SameKinds(fs, g)
    requires IsDir(fs, src) ==> !Within(fs, np, src) && LinksTo(fs, src) == 1 && In(fs, p, src) > 0
    ensures TreeOk(g)
  {
    hide LinksTo, In, Subdirs, NonDots;
    NoLeaf(fs);
    if IsDir(fs, src) {
      OnlyParent(fs, p, src);
      InBounds(fs, np, src);
      StillRooted(fs, g, src, np, 0);
      hide Within;
    } else {
      TreeKept(fs, g, 0);
    }
  }

  /** A directory named once by p is named by p alone. */
  lemma {:induction false} OnlyParent(fs: Fs, p: nat, x: nat)
    requires In(fs, p, x) > 0 && LinksTo(fs, x) == 1
    ensures In(fs, p, x) == 1 && forall q: nat :: q != p ==> In(fs, q, x) <= 0
  {
    InBounds(fs, p, x);
    forall q: nat | q != p ensures In(fs, q, x) <= 0 {
      if In(fs, q, x) > 0 {
        TwoHolders(fs, p, q, x);
      }
    }
  }

  /** Replacing the non-directory dst: it loses a name and a link. */
  lemma {:induction false} ReplaceFile(fs: Fs, g: Fs, p: nat, name: Name, np: nat, newname: Name, src: nat, dst: nat)
    requires LinksOk(fs) && TreeOk(fs) && !Dot(name) && !Dot(newname)
    requires IsDir(fs, p) && IsDir(fs, np) && Named(fs, p) && Named(fs, np)
    requires src != dst && dst != 0 && Live(fs, src) && Live(fs, dst) && !IsDir(fs, src) && !IsDir(fs, dst)
    requires Recount2(fs, g, np, Some(Entry(newname, dst)), Some(Entry(newname, src)), p, Some(Entry(name, src)))
    requires SameKinds(fs, g)
    requires forall j: nat :: Live(fs, j) ==> Nlink(g, j) == Nlink(fs, j) - B2I(j == dst)
    ensures LinksOk(g) && TreeOk(g)
  {
    hide LinksTo, In, Subdirs, NonDots;
    NoLeaf(fs);
    TreeKept(fs, g, 0);
  }

  /** Replacing the empty directory dst by the directory src. */
  lemma {:induction false} ReplaceDir(fs: Fs, g: Fs, p: nat, name: Name, np: nat, newname: Name, src: nat, dst: nat)
    requires LinksOk(fs) && TreeOk(fs) && !Dot(name) && !Dot(newname)
    requires IsDir(fs, p) && IsDir(fs, np) && Named(fs, p) && Named(fs, np)
    requires src != dst && IsDir(fs, src) && IsDir(fs, dst) && p != dst && np != dst
    requires LinksTo(fs, src) == 1 && LinksTo(fs, dst) == 1 && src != ROOT && dst != ROOT
    requires In(fs, p, src) > 0 && !Within(fs, np, src)
    requires IsLeaf(fs, dst) && NonDots(fs, dst) == 0
    requires Recount2(fs, g, np, Some(Entry(newname, dst)), Some(Entry(newname, src)), p, Some(Entry(name, src)))
    requires SameKinds(fs, g)
    requires forall j: nat :: Live(fs, j) && j != dst ==> Nlink(g, j) == Nlink(fs, j) - B2I(j == p)
    ensures LinksOk(g) && TreeOk(g)
  {
    hide LinksTo, In, Subdirs, NonDots;
    assert LinksOk(g) by {
      hide Within, TreeOk;
    }
    OnlyParent(fs, p, src);
    InBounds(fs, np, src);
    StillRooted(fs, g, src, np, dst);
    hide Within;
  }

  // ----------------------------------------------------------- the two branches

  /** What the checks of rename establish about a name that is found. */
  lemma {:induction false} FoundName(fs: Fs, d: nat, name: Name)
    requires FsOk(fs) && IsDir(fs, d) && !Dot(name)
    requires !Gone(fs, ChildIno(Children(fs, d), name))
    ensures var es := Children(fs, d);
            var x := ChildIno(es, name);
            && x != 0 && Find(es, name) < |es| && es[Find(es, name)] == Entry(name, x)
            && In(fs, d, x) > 0
            && (IsDirMode(At(fs, x).h.mode) <==> IsDir(fs, x))
            && (IsDir(fs, x) ==> LinksTo(fs, x) == 1 && x != ROOT && Subdirs(fs, d) >= 1)
            && (!IsDir(fs, x) ==> At(fs, x).h.nlink >= 1)
  {
    hide LinksTo, In, Subdirs, NonDots;
    var k := Find(Children(fs, d), name);
    EntryCounts(fs, d, k);
    assert NodeOk(ChildIno(Children(fs, d), name), At(fs, ChildIno(Children(fs, d), name)));
    if IsDir(fs, ChildIno(Children(fs, d), name)) {
      NamedOnce(fs, d, k);
    }
  }

  /** The steps of the free-name branch, one after the other. */
  lemma {:induction false} MoveShape(fs: Fs, p: nat, name: Name, np: nat, newname: Name, src: nat)
    requires TableOk(fs) && IsDir(fs, p) && IsDir(fs, np) && Live(fs, src)
    requires var k := Find(Children(fs, p), name); k < |Children(fs, p)| && Children(fs, p)[k] == Entry(name, src)
    requires IsDirMode(At(fs, src).h.mode) <==> IsDir(fs, src)
    requires IsDir(fs, src) ==> At(fs, p).h.nlink >= 1 && RoomToLink(fs, np)
    requires AddChild(fs, np, newname, src).1 == OK
    ensures var g := Move(fs, p, name, np, newname, src);
            && TableOk(g) && SameSlots(fs, g) && SameKinds(fs, g)
            && Recount2(fs, g, np, None, Some(Entry(newname, src)), p, Some(Entry(name, src)))
            && forall j: nat :: Live(fs, j) ==>
                 Nlink(g, j) == Nlink(fs, j) + (if IsDir(fs, src) then B2I(j == np) - B2I(j == p) else 0)
  {
    hide LinksTo, In, Subdirs, NonDots, NodeOk, TableOk, Recount2, AddChild, UpdateChild, RemoveChild, AddLinks;
    var es := Children(fs, p);
    var f1 := AddChild(fs, np, newname, src).0;
    AddChildOk(fs, np, newname, src);
    FindSame(es, Children(f1, p), name);
    var f2 := RemoveChild(f1, p, name);
    RemoveChildOk(f1, p, name);
    var g := Move(fs, p, name, np, newname, src);
    if IsDir(fs, src) {
      AddLinksOk(f2, p, -1);
      AddLinksOk(AddLinks(f2, p, -1), np, 1);
    }
    TwoEdits(fs, fs, f1, f2, g, np, None, Some(Entry(newname, src)), p, Some(Entry(name, src)));
  }

  lemma {:induction false} MoveOk(fs: Fs, p: nat, name: Name, np: nat, newname: Name)
    requires FsOk(fs) && RenameLegal(fs, p, name, np, newname) && RenameCheck(fs, p, name, np) == OK
    requires AddChild(fs, np, newname, ChildIno(Children(fs, p), name)).1 == OK
    ensures FsOk(Move(fs, p, name, np, newname, ChildIno(Children(fs, p), name)))
  {
    hide LinksTo, In, Subdirs, NonDots, TableOk, SlotsOk, TreeOk, Recount2, Within, Move, AddChild;
    var src := ChildIno(Children(fs, p), name);
    FoundName(fs, p, name);
    MoveShape(fs, p, name, np, newname, src);
    var g := Move(fs, p, name, np, newname, src);
    SameSlotsOk(fs, g);
    MoveLinks(fs, g, p, name, np, newname, src);
    MoveTree(fs, g, p, name, np, newname, src);
  }

  /** The steps of the replacing branch.  A replaced directory's count is decremented
      three times; every other inode's count follows its names. */
  lemma {:induction false} ReplaceShape(fs: Fs, p: nat, name: Name, np: nat, newname: Name, src: nat, dst: nat)
    requires TableOk(fs) && IsDir(fs, p) && IsDir(fs, np) && Live(fs, dst) && src != dst
    requires var k := Find(Children(fs, p), name); k < |Children(fs, p)| && Children(fs, p)[k] == Entry(name, src)
    requires var k := Find(Children(fs, np), newname);
             k < |Children(fs, np)| && Children(fs, np)[k] == Entry(newname, dst)
    requires IsDirMode(At(fs, dst).h.mode) <==> IsDir(fs, dst)
    requires IsDir(fs, dst) ==> p != dst && At(fs, p).h.nlink >= 1
    requires !IsDir(fs, dst) ==> At(fs, dst).h.nlink >= 1
    ensures var g := Replace(fs, p, name, np, newname, src, dst);
            && TableOk(g) && SameSlots(fs, g) && SameKinds(fs, g)
            && Recount2(fs, g, np, Some(Entry(newname, dst)), Some(Entry(newname, src)), p, Some(Entry(name, src)))
            && (IsDir(fs, dst) ==>
                  forall j: nat :: Live(fs, j) && j != dst ==> Nlink(g, j) == Nlink(fs, j) - B2I(j == p))
            && (!IsDir(fs, dst) ==> forall j: nat :: Live(fs, j) ==> Nlink(g, j) == Nlink(fs, j) - B2I(j == dst))
  {
    hide LinksTo, In, Subdirs, NonDots, NodeOk, TableOk, Recount2, AddChild, UpdateChild, RemoveChild, AddLinks, Edit;
    var es := Children(fs, p);
    var f0 := AddLinks(fs, dst, -1);
    AddLinksOk(fs, dst, -1);
    var f1 := UpdateChild(f0, np, newname, src);
    UpdateChildOk(f0, np, newname, src);
    FindSame(es, Children(f1, p), name);
    var f2 := RemoveChild(f1, p, name);
    RemoveChildOk(f1, p, name);
    var g := Replace(fs, p, name, np, newname, src, dst);
    if IsDir(fs, dst) {
      AddLinksOk(f2, dst, -2);
      AddLinksOk(AddLinks(f2, dst, -2), p, -1);
    }
    forall j: nat | Live(fs, j) ensures Nlink(f2, j) == Nlink(f0, j) {
      EntriesKeepLinks(f0, np, newname, src, j);
      EntriesKeepLinks(f1, p, name, src, j);
    }
    TwoEdits(fs, f0, f1, f2, g, np, Some(Entry(newname, dst)), Some(Entry(newname, src)), p, Some(Entry(name, src)));
  }

  lemma {:induction false} ReplaceOk(fs: Fs, p: nat, name: Name, np: nat, newname: Name)
    requires FsOk(fs) && RenameLegal(fs, p, name, np, newname) && RenameCheck(fs, p, name, np) == OK
    requires var src, dst := ChildIno(Children(fs, p), name), ChildIno(Children(fs, np), newname);
             Occupied(fs, dst) && ReplaceCheck(fs, src, dst) == OK
    ensures var src, dst := ChildIno(Children(fs, p), name), ChildIno(Children(fs, np), newname);
            FsOk(Replace(fs, p, name, np, newname, src, dst))
  {
    hide LinksTo, In, Subdirs, NonDots, TableOk, SlotsOk, TreeOk, Recount2, Within, Replace;
    var src, dst := ChildIno(Children(fs, p), name), ChildIno(Children(fs, np), newname);
    FoundName(fs, p, name);
    FoundName(fs, np, newname);
    if IsDir(fs, dst) {
      EmptyHasNoEntries(fs, dst);
    }
    ReplaceShape(fs, p, name, np, newname, src, dst);
    hide IsLeaf;
    var g := Replace(fs, p, name, np, newname, src, dst);
    SameSlotsOk(fs, g);
    if IsDir(fs, dst) {
      ReplaceDir(fs, g, p, name, np, newname, src, dst);
    } else {
      ReplaceFile(fs, g, p, name, np, newname, src, dst);
    }
  }

  lemma {:induction false} RenameOk(fs: Fs, p: nat, name: Name, np: nat, newname: Name)
    requires FsOk(fs) && FsLegal(fs, RenameOp(p, name, np, newname))
    ensures FsOk(Rename(fs, p, name, np, newname).0)
  {
    hide FsOk, Replace, Move, Within;
    if RenameCheck(fs, p, name, np) == OK {
      var src, dst := ChildIno(Children(fs, p), name), ChildIno(Children(fs, np), newname);
      if !Occupied(fs, dst) {
        MoveOk(fs, p, name, np, newname);
      } else if ReplaceCheck(fs, src, dst) == OK {
        ReplaceOk(fs, p, name, np, newname);
      }
    }
  }

  // ----------------------------------------------------- where rename goes wrong

  /** A rename whose new name does not fit: only the removal happens, and for a
      directory the parents trade a link nevertheless. */
  lemma {:induction false} LostShape(fs: Fs, p: nat, name: Name, np: nat, newname: Name, src: nat)
    requires TableOk(fs) && IsDir(fs, p) && IsDir(fs, np) && Live(fs, src) && !NameFits(fs, np, newname)
    requires var k := Find(Children(fs, p), name); k < |Children(fs, p)| && Children(fs, p)[k] == Entry(name, src)
    requires IsDirMode(At(fs, src).h.mode) <==> IsDir(fs, src)
    requires IsDir(fs, src) ==> At(fs, p).h.nlink >= 1 && RoomToLink(fs, np)
    ensures var g := Move(fs, p, name, np, newname, src);
            && SameKinds(fs, g) && Recount(fs, g, p, Some(Entry(name, src)), None)
            && forall j: nat :: Live(fs, j) ==>
                 Nlink(g, j) == Nlink(fs, j) + (if IsDir(fs, src) then B2I(j == np) - B2I(j == p) else 0)
  {
    hide LinksTo, In, Subdirs, NonDots, NodeOk, TableOk, Recount, AddChild, RemoveChild, AddLinks, NameFits;
    NameFitsIff(fs, np, newname, src);
    var f := RemoveChild(fs, p, name);
    RemoveChildOk(fs, p, name);
    var g := Move(fs, p, name, np, newname, src);
    if IsDir(fs, src) {
      AddLinksOk(f, p, -1);
      AddLinksOk(AddLinks(f, p, -1), np, 1);
    }
    EditThenTouch(fs, f, g, p, Some(Entry(name, src)), None);
  }

  /** Then the link counts are wrong: of the source if it is a file, of the new
      parent if it is a directory. */
  lemma {:induction false} LostBreaks(fs: Fs, g: Fs, p: nat, name: Name, np: nat, src: nat)
    requires LinksOk(fs) && IsDir(fs, p) && IsDir(fs, np) && Live(fs, src) && !Dot(name)
    requires Named(fs, np) && (IsDir(fs, src) ==> np != src)
    requires SameKinds(fs, g) && Recount(fs, g, p, Some(Entry(name, src)), None)
    requires forall j: nat :: Live(fs, j) ==>
               Nlink(g, j) == Nlink(fs, j) + (if IsDir(fs, src) then B2I(j == np) - B2I(j == p) else 0)
    ensures !LinksOk(g)
  {
    hide LinksTo, In, Subdirs, NonDots;
    if !IsDir(fs, src) {
      assert Nlink(g, src) != LinksTo(g, src);
    } else {
      assert Named(g, np) && Nlink(g, np) != 2 + Subdirs(g, np);
    }
  }

  /** A legal rename keeps the invariant if and only if the new name fits. */
  lemma {:induction false} RenameOkIff(fs: Fs, p: nat, name: Name, np: nat, newname: Name)
    requires FsOk(fs) && RenameLegal(fs, p, name, np, newname)
    ensures FsOk(Rename(fs, p, name, np, newname).0) <==> RenameFits(fs, p, name, np, newname)
  {
    hide FsOk, Rename, RenameLegal, RenameFits;
    if RenameFits(fs, p, name, np, newname) {
      RenameOk(fs, p, name, np, newname);
    } else {
      RenameLoses(fs, p, name, np, newname);
    }
  }

  lemma {:induction false} RenameLoses(fs: Fs, p: nat, name: Name, np: nat, newname: Name)
    requires FsOk(fs) && RenameLegal(fs, p, name, np, newname) && !RenameFits(fs, p, name, np, newname)
    ensures !FsOk(Rename(fs, p, name, np, newname).0)
  {
    hide LinksTo, In, Subdirs, NonDots, TableOk, SlotsOk, TreeOk, LinksOk, Recount, Move, NameFits, Within;
    var src := ChildIno(Children(fs, p), name);
    FoundName(fs, p, name);
    if IsDir(fs, src) {
      NotInside(fs, np, src);
      ParentHasLinks(fs, p);
    }
    LostShape(fs, p, name, np, newname, src);
    LostBreaks(fs, Rename(fs, p, name, np, newname).0, p, name, np, src);
  }

  lemma {:induction false} ParentHasLinks(fs: Fs, p: nat)
    requires LinksOk(fs) && IsDir(fs, p) && Named(fs, p)
    ensures At(fs, p).h.nlink == 2 + Subdirs(fs, p) >= 2
  {
    CountsNonNegative(fs);
  }

  lemma {:induction false} NotInside(fs: Fs, i: nat, a: nat)
    requires !Within(fs, i, a)
    ensures i != a
  {
    assert i == a ==> Climbs(fs, i, a, 0);
  }

  lemma {:induction false} EntriesKeepLinks(fs: Fs, d: nat, name: Name, ino: nat, j: nat)
    ensures Nlink(UpdateChild(fs, d, name, ino), j) == Nlink(fs, j)
    ensures Nlink(RemoveChild(fs, d, name), j) == Nlink(fs, j)
    ensures Live(UpdateChild(fs, d, name, ino), j) <==> Live(fs, j)
    ensures Live(RemoveChild(fs, d, name), j) <==> Live(fs, j)
  {
  }

  /** Replacing a directory takes three links from it. */
  lemma {:induction false} ReplaceTakesThree(fs: Fs, p: nat, name: Name, np: nat, newname: Name, src: nat, dst: nat)
    requires Live(fs, dst) && p != dst && IsDirMode(At(fs, dst).h.mode)
    ensures Live(Replace(fs, p, name, np, newname, src, dst), dst)
    ensures Nlink(Replace(fs, p, name, np, newname, src, dst), dst) == Wrap(At(fs, dst).h.nlink - 3)
  {
    hide UpdateChild, RemoveChild, Wrap;
    var f0 := AddLinks(fs, dst, -1);
    var f1 := UpdateChild(f0, np, newname, src);
    var f2 := RemoveChild(f1, p, name);
    EntriesKeepLinks(f0, np, newname, src, dst);
    EntriesKeepLinks(f1, p, name, 0, dst);
    WrapShift(At(fs, dst).h.nlink - 1, -2);
    assert Nlink(AddLinks(f2, dst, -2), dst) == Wrap(At(fs, dst).h.nlink - 3);
  }

  /** A directory replaced by rename has no name left and 2^64 - 1 links. */
  lemma {:induction false} ReplacedDirectory(fs: Fs, p: nat, name: Name, np: nat, newname: Name)
    requires FsOk(fs) && RenameLegal(fs, p, name, np, newname) && Rename(fs, p, name, np, newname).1 == Done
    requires var dst := ChildIno(Children(fs, np), newname); IsDir(fs, dst) && Occupied(fs, dst)
    ensures var g, dst := Rename(fs, p, name, np, newname).0, ChildIno(Children(fs, np), newname);
            IsDir(g, dst) && dst != ROOT && LinksTo(g, dst) == 0 && At(g, dst).h.nlink == 0xFFFF_FFFF_FFFF_FFFF
  {
    hide LinksTo, In, Subdirs, NonDots, TableOk, SlotsOk, TreeOk, LinksOk, Within, Replace, Recount2;
    var src, dst := ChildIno(Children(fs, p), name), ChildIno(Children(fs, np), newname);
    var g := Replace(fs, p, name, np, newname, src, dst);
    FoundName(fs, p, name);
    FoundName(fs, np, newname);
    EmptyHasNoEntries(fs, dst);
    ParentHasLinks(fs, p);
    ParentHasLinks(fs, dst);
    NoEntries(fs, dst);
    ReplaceShape(fs, p, name, np, newname, src, dst);
    ReplaceTakesThree(fs, p, name, np, newname, src, dst);
    ReplacedUnnamed(fs, g, p, name, np, newname, src, dst);
  }

  lemma {:induction false} ReplacedUnnamed(fs: Fs, g: Fs, p: nat, name: Name, np: nat, newname: Name,
                                           src: nat, dst: nat)
    requires src != dst && !Dot(newname) && LinksTo(fs, dst) == 1
    requires Recount2(fs, g, np, Some(Entry(newname, dst)), Some(Entry(newname, src)), p, Some(Entry(name, src)))
    ensures LinksTo(g, dst) == 0
  {
    hide LinksTo, In, Subdirs, NonDots;
  }
}
