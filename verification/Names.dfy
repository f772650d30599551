/** What is left of the link-count law when renames need not fit and parents need not be
    named: no name dangles, no directory has two names, and every link count is at
    least what the names account for. */
module Names {
  import opened Base
  import opened Model
  import opened Graph
  import opened Invariant
  import opened Namespace
  import opened RenameProofs
  import opened Runs
  import opened Laws
  import opened Accounting
  import opened Slots

  ghost predicate NamesOk(fs: Fs) {
    && IsDir(fs, ROOT) && LinksTo(fs, ROOT) == 0
    && (forall i: nat :: LinksTo(fs, i) > 0 ==> Live(fs, i))
    && (forall i: nat :: Live(fs, i) && !IsDir(fs, i) ==> LinksTo(fs, i) <= At(fs, i).h.nlink)
    && (forall i: nat :: IsDir(fs, i) && Named(fs, i) ==> 2 + Subdirs(fs, i) <= At(fs, i).h.nlink)
    && (forall i: nat :: IsDir(fs, i) ==> LinksTo(fs, i) <= 1)
  }

  /** A tidy table with names in order. */
  ghost predicate Safe(fs: Fs) {
    Tidy(fs) && NamesOk(fs)
  }

  ghost predicate StateSafe(st: State) {
    Safe(st.live) && forall k :: k in st.pool ==> Safe(st.pool[k])
  }

  /** The kernel's promises without those about parents, subtrees and room. */
  ghost predicate Sober(fs: Fs, op: Op) {
    match op
    case LookupOp(_, _) => true
    case MknodOp(p, name, _, _) => !Dot(name) && RoomToLink(fs, p)
    case MkdirOp(p, name, _, _) => !Dot(name) && RoomToLink(fs, p)
    case SymlinkOp(_, p, name, _) => !Dot(name) && RoomToLink(fs, p)
    case CreateOp(p, name, _, _) => !Dot(name) && RoomToLink(fs, p)
    case UnlinkOp(p, name) => !Dot(name) && (IsDir(fs, p) ==> !IsDir(fs, ChildIno(Children(fs, p), name)))
    case RmdirOp(p, name) => !Dot(name)
    case RenameOp(p, name, np, newname) =>
      && !Dot(name) && !Dot(newname) && RoomToLink(fs, np)
      && (RenameCheck(fs, p, name, np) == OK ==>
            ChildIno(Children(fs, p), name) != ChildIno(Children(fs, np), newname))
    case LinkOp(ino, np, newname) => !Dot(newname) && !IsDir(fs, ino) && RoomToLink(fs, ino)
    case ForgetOp(ino, n) => ino != 0
    case SetAttrOp(_, _, _) => KeepsType(fs, op)
    case _ => true
  }

  lemma {:induction false} LegalIsSober(fs: Fs, op: Op)
    requires FsLegal(fs, op)
    ensures Sober(fs, op)
  {
    hide Within, Named, RenameFits;
  }

  lemma {:induction false} OkIsSafe(fs: Fs)
    requires FsOk(fs)
    ensures Safe(fs)
  {
    hide TableOk, SlotsOk, LinksTo, Subdirs, NonDots, Lawful, Tagged;
    TableIff(fs);
    OkIsZeroFree(fs);
  }

  lemma {:induction false} OkIsZeroFree(fs: Fs)
    requires FsOk(fs)
    ensures ZeroFree(fs)
  {
    hide TreeOk, Subdirs;
    forall p: nat, k: nat | IsDir(fs, p) && k < |Children(fs, p)| && !Dot(Children(fs, p)[k].name)
      ensures Children(fs, p)[k].ino != 0
    {
      EntryCounts(fs, p, k);
    }
  }

  // ------------------------------------------------------------- what it means

  /** No name dangles: its inode is there and has links. */
  lemma {:induction false} NameLeads(fs: Fs, d: nat, k: nat)
    requires NamesOk(fs) && IsDir(fs, d)
    requires k < |Children(fs, d)| && !Dot(Children(fs, d)[k].name)
    ensures !Gone(fs, Children(fs, d)[k].ino) && LinksTo(fs, Children(fs, d)[k].ino) > 0
    ensures Children(fs, d)[k].ino != ROOT
  {
    EntryCounts(fs, d, k);
    CountsNonNegative(fs);
  }

  lemma {:induction false} EmptyIsEmpty(fs: Fs, d: nat)
    requires NamesOk(fs) && IsDir(fs, d) && IsEmpty(fs, Children(fs, d))
    ensures NonDots(fs, d) == 0 && Subdirs(fs, d) == 0
  {
    hide LinksTo;
    forall k | 0 <= k < |Children(fs, d)| ensures Dot(Children(fs, d)[k].name) {
      if !Dot(Children(fs, d)[k].name) {
        NameLeads(fs, d, k);
      }
    }
    AllDots(fs, d);
  }

  /** What a name that is found leads to. */
  lemma {:induction false} Found(fs: Fs, d: nat, name: Name)
    requires TableOk(fs) && NamesOk(fs) && IsDir(fs, d) && !Dot(name)
    requires Find(Children(fs, d), name) < |Children(fs, d)|
    ensures var es := Children(fs, d);
            var x := ChildIno(es, name);
            && es[Find(es, name)] == Entry(name, x) && !Gone(fs, x) && x != ROOT && In(fs, d, x) > 0
            && (IsDirMode(At(fs, x).h.mode) <==> IsDir(fs, x))
            && (IsDir(fs, x) ==> LinksTo(fs, x) == 1 && Subdirs(fs, d) >= 1)
            && (!IsDir(fs, x) ==> 1 <= LinksTo(fs, x) <= At(fs, x).h.nlink)
  {
    hide LinksTo, In, TypeBits, DirSize;
    var es, k := Children(fs, d), Find(Children(fs, d), name);
    NameLeads(fs, d, k);
    EntryCounts(fs, d, k);
    assert NodeOk(es[k].ino, At(fs, es[k].ino));
    SumBounds(es, SubdirW(fs));
    assert SubdirW(fs)(es[k]) == B2I(IsDir(fs, es[k].ino));
  }

  // ------------------------------------------------------------ how it is kept

  /** Link counts that gain at least as much as the names do. */
  lemma {:induction false} Balanced(fs: Fs, g: Fs)
    requires NamesOk(fs) && SameKinds(fs, g) && LinksTo(g, ROOT) == 0
    requires forall x: nat :: LinksTo(g, x) > 0 ==> LinksTo(fs, x) > 0
    requires forall x: nat :: IsDir(fs, x) ==> LinksTo(g, x) <= LinksTo(fs, x)
    requires forall x: nat :: Live(fs, x) && !IsDir(fs, x) ==>
               LinksTo(g, x) - LinksTo(fs, x) <= Nlink(g, x) - Nlink(fs, x)
    requires forall x: nat :: IsDir(fs, x) && (x == ROOT || LinksTo(g, x) > 0) ==>
               Subdirs(g, x) - Subdirs(fs, x) <= Nlink(g, x) - Nlink(fs, x)
    ensures NamesOk(g)
  {
    hide LinksTo, Subdirs;
    assert Nlink(g, ROOT) >= 2 + Subdirs(g, ROOT);
    forall i: nat | IsDir(g, i) && Named(g, i) ensures 2 + Subdirs(g, i) <= At(g, i).h.nlink {
      assert Nlink(g, i) == At(g, i).h.nlink && Nlink(fs, i) == At(fs, i).h.nlink;
    }
    forall i: nat | Live(g, i) && !IsDir(g, i) ensures LinksTo(g, i) <= At(g, i).h.nlink {
      assert Nlink(g, i) == At(g, i).h.nlink && Nlink(fs, i) == At(fs, i).h.nlink;
    }
  }

  lemma {:induction false} QuietNames(fs: Fs, g: Fs)
    requires NamesOk(fs) && SameGraph(fs, g)
    requires forall i: nat :: Live(fs, i) ==> At(g, i).h.nlink == At(fs, i).h.nlink
    ensures NamesOk(g)
  {
    hide LinksTo, In, Subdirs, NonDots;
    SameGraphCounts(fs, g);
  }

  lemma {:induction false} LookupNames(fs: Fs, i: nat, n: int)
    requires TableOk(fs) && NamesOk(fs)
    ensures NamesOk(AddLookups(fs, i, n)) && TableOk(AddLookups(fs, i, n))
  {
    hide TableOk, NamesOk, Wrap;
    if Live(fs, i) {
      SetHeadOk(fs, i, At(AddLookups(fs, i, n), i).h);
      QuietNames(fs, AddLookups(fs, i, n));
    }
  }

  lemma {:induction false} LinkNames(fs: Fs, ino: nat, np: nat, newname: Name)
    requires TableOk(fs) && NamesOk(fs) && Sober(fs, LinkOp(ino, np, newname))
    ensures NamesOk(Link(fs, ino, np, newname).0)
  {
    hide LinksTo, In, Subdirs, NonDots, NodeOk, TableOk, Recount, Edited, NamesOk;
    if Link(fs, ino, np, newname).1.EntryOf? {
      var e := Some(Entry(newname, ino));
      var f := AddChild(fs, np, newname, ino).0;
      var g := AddLinks(f, ino, 1);
      AddChildOk(fs, np, newname, ino);
      AddLinksOk(f, ino, 1);
      EditThenTouch(fs, f, g, np, None, e);
      LinkBalances(fs, g, np, None, e, ino);
      LookupNames(g, ino, 1);
    }
  }

  /** A name of the non-directory x comes or goes and its link count follows. */
  lemma {:induction false} LinkBalances(fs: Fs, g: Fs, d: nat, off: Option<Entry>, on: Option<Entry>, x: nat)
    requires NamesOk(fs) && Live(fs, x) && !IsDir(fs, x)
    requires Recount(fs, g, d, off, on)
    requires forall i: nat :: (Hits(off, i) || Hits(on, i)) ==> i == x
    requires Relinked(fs, g, x, B2I(Hits(on, x)) - B2I(Hits(off, x)))
    ensures NamesOk(g)
  {
    hide LinksTo, In, Subdirs, NonDots;
    assert !HitsDir(fs, off) && !HitsDir(fs, on);
    CountsNonNegative(fs);
  }

  lemma {:induction false} UnlinkNames(fs: Fs, p: nat, name: Name)
    requires TableOk(fs) && NamesOk(fs) && Sober(fs, UnlinkOp(p, name))
    ensures NamesOk(Unlink(fs, p, name).0)
  {
    hide LinksTo, In, Subdirs, NonDots, NodeOk, TableOk, Recount, Edited, NamesOk;
    if Unlink(fs, p, name).1 == Done {
      var es := Children(fs, p);
      var k := Find(es, name);
      var ino := es[k].ino;
      Found(fs, p, name);
      var f := RemoveChild(fs, p, name);
      var g := AddLinks(f, ino, -1);
      RemoveChildOk(fs, p, name);
      AddLinksOk(f, ino, -1);
      EditThenTouch(fs, f, g, p, Some(es[k]), None);
      LinkBalances(fs, g, p, Some(es[k]), None, ino);
    }
  }

  lemma {:induction false} RmdirNames(fs: Fs, p: nat, name: Name)
    requires TableOk(fs) && NamesOk(fs) && !Dot(name)
    ensures NamesOk(Rmdir(fs, p, name).0)
  {
    hide LinksTo, In, Subdirs, NonDots, NodeOk, TableOk, Recount, Edited, NamesOk, IsEmpty;
    if Rmdir(fs, p, name).1 == Done {
      var es := Children(fs, p);
      var k := Find(es, name);
      var ino := es[k].ino;
      Found(fs, p, name);
      var f := RemoveChild(fs, p, name);
      var f1 := AddLinks(f, p, -1);
      var g := Rmdir(fs, p, name).0;
      RemoveChildOk(fs, p, name);
      AddLinksOk(f, p, -1);
      SetHeadOk(f1, ino, At(g, ino).h);
      EditThenTouch(fs, f, g, p, Some(es[k]), None);
      DirGoes(fs, g, p, es[k]);
    }
  }

  /** A directory loses its only name, its parent one link. */
  lemma {:induction false} DirGoes(fs: Fs, g: Fs, p: nat, e: Entry)
    requires NamesOk(fs) && IsDir(fs, p) && p != e.ino && !Dot(e.name)
    requires IsDir(fs, e.ino) && LinksTo(fs, e.ino) == 1 && e.ino != ROOT
    requires Recount(fs, g, p, Some(e), None) && SameKinds(fs, g)
    requires forall j: nat :: Live(fs, j) && j != e.ino ==> Nlink(g, j) == Nlink(fs, j) - B2I(j == p)
    ensures NamesOk(g)
  {
    hide LinksTo, In, Subdirs, NonDots, NamesOk;
    NamesRoot(fs);
    Balanced(fs, g);
  }

  lemma {:induction false} NamesRoot(fs: Fs)
    requires NamesOk(fs)
    ensures IsDir(fs, ROOT) && LinksTo(fs, ROOT) == 0
    ensures forall x: nat :: LinksTo(fs, x) >= 0 && Subdirs(fs, x) >= 0
    ensures forall x: nat :: LinksTo(fs, x) > 0 ==> Live(fs, x)
  {
    CountsNonNegative(fs);
  }

  // ----------------------------------------------------------------------- rename

  lemma {:induction false} MoveNames(fs: Fs, g: Fs, p: nat, name: Name, np: nat, newname: Name, src: nat)
    requires NamesOk(fs) && !Dot(name) && !Dot(newname) && IsDir(fs, p) && IsDir(fs, np)
    requires Live(fs, src) && src != ROOT && LinksTo(fs, src) > 0
    requires Recount2(fs, g, np, None, Some(Entry(newname, src)), p, Some(Entry(name, src))) && SameKinds(fs, g)
    requires forall j: nat :: Live(fs, j) ==>
               Nlink(g, j) == Nlink(fs, j) + (if IsDir(fs, src) then B2I(j == np) - B2I(j == p) else 0)
    ensures NamesOk(g)
  {
    hide LinksTo, In, Subdirs, NonDots, NamesOk;
    NamesRoot(fs);
    Balanced(fs, g);
  }

  lemma {:induction false} LostNames(fs: Fs, g: Fs, p: nat, name: Name, np: nat, src: nat)
    requires NamesOk(fs) && !Dot(name) && IsDir(fs, p) && IsDir(fs, np)
    requires Live(fs, src) && src != ROOT && LinksTo(fs, src) > 0
    requires Recount(fs, g, p, Some(Entry(name, src)), None) && SameKinds(fs, g)
    requires forall j: nat :: Live(fs, j) ==>
               Nlink(g, j) == Nlink(fs, j) + (if IsDir(fs, src) then B2I(j == np) - B2I(j == p) else 0)
    ensures NamesOk(g)
  {
    hide LinksTo, In, Subdirs, NonDots, NamesOk;
    NamesRoot(fs);
    Balanced(fs, g);
  }

  lemma {:induction false} ReplaceNames(fs: Fs, g: Fs, p: nat, name: Name, np: nat, newname: Name, src: nat, dst: nat)
    requires NamesOk(fs) && !Dot(name) && !Dot(newname) && IsDir(fs, p) && IsDir(fs, np)
    requires src != dst && src != ROOT && dst != ROOT && LinksTo(fs, src) > 0 && LinksTo(fs, dst) > 0
    requires (IsDir(fs, src) <==> IsDir(fs, dst)) && (IsDir(fs, dst) ==> LinksTo(fs, dst) == 1)
    requires Recount2(fs, g, np, Some(Entry(newname, dst)), Some(Entry(newname, src)), p, Some(Entry(name, src)))
    requires SameKinds(fs, g)
    requires IsDir(fs, dst) ==> forall j: nat :: Live(fs, j) && j != dst ==> Nlink(g, j) == Nlink(fs, j) - B2I(j == p)
    requires !IsDir(fs, dst) ==> forall j: nat :: Live(fs, j) ==> Nlink(g, j) == Nlink(fs, j) - B2I(j == dst)
    ensures NamesOk(g)
  {
    hide LinksTo, In, Subdirs, NonDots, NamesOk;
    NamesRoot(fs);
    Balanced(fs, g);
  }

  lemma {:induction false} RenameNames(fs: Fs, p: nat, name: Name, np: nat, newname: Name)
    requires Tidy(fs) && NamesOk(fs) && Sober(fs, RenameOp(p, name, np, newname))
    ensures NamesOk(Rename(fs, p, name, np, newname).0)
  {
    hide LinksTo, In, Subdirs, NonDots, NamesOk, TableOk, SlotsOk, Lawful, Tagged, Recount, Recount2, Move, Replace;
    hide NameFits;
    if RenameCheck(fs, p, name, np) == OK {
      TableIff(fs);
      var src, dst := ChildIno(Children(fs, p), name), ChildIno(Children(fs, np), newname);
      PresentName(fs, p, name);
      Found(fs, p, name);
      NamedLinks(fs, src);
      var g := Rename(fs, p, name, np, newname).0;
      if !Occupied(fs, dst) {
        NameFitsIff(fs, np, newname, src);
        if NameFits(fs, np, newname) {
          MoveShape(fs, p, name, np, newname, src);
          MoveNames(fs, g, p, name, np, newname, src);
        } else {
          LostShape(fs, p, name, np, newname, src);
          LostNames(fs, g, p, name, np, src);
        }
      } else if ReplaceCheck(fs, src, dst) == OK {
        PresentName(fs, np, newname);
        Found(fs, np, newname);
        NamedLinks(fs, dst);
        if IsDir(fs, dst) {
          EmptyIsEmpty(fs, dst);
          NoEntries(fs, dst);
        }
        ReplaceShape(fs, p, name, np, newname, src, dst);
        ReplaceNames(fs, g, p, name, np, newname, src, dst);
      }
    }
  }

  /** A name that does not yield 0 is present; inode 0 is gone. */
  lemma {:induction false} PresentName(fs: Fs, d: nat, name: Name)
    requires ZeroFree(fs) && IsDir(fs, d)
    ensures ChildIno(Children(fs, d), name) != 0 ==> Find(Children(fs, d), name) < |Children(fs, d)|
    ensures Gone(fs, 0) && !Occupied(fs, 0)
  {
  }

  lemma {:induction false} NamedLinks(fs: Fs, x: nat)
    requires NamesOk(fs) && Live(fs, x) && (IsDir(fs, x) ==> LinksTo(fs, x) == 1)
    requires !IsDir(fs, x) ==> 1 <= LinksTo(fs, x)
    ensures LinksTo(fs, x) > 0
  {
  }

  // --------------------------------------------------------------- slots and names

  /** Clearing the slot of an inode without a name takes its own entries away. */
  lemma {:induction false} ClearEffect(fs: Fs, g: Fs, i: nat)
    requires i < |fs.nodes| && g.nodes == fs.nodes[i := None] && LinksTo(fs, i) == 0
    ensures forall x: nat :: 0 <= LinksTo(g, x) <= LinksTo(fs, x)
    ensures forall d: nat :: d != i ==> Subdirs(g, d) == Subdirs(fs, d)
  {
    CountsNonNegative(g);
    forall x: nat ensures LinksTo(g, x) <= LinksTo(fs, x) {
      SumUpdate(fs.nodes, i, None, HolderW(x));
      InBounds(fs, i, x);
    }
    forall d: nat | d != i ensures Subdirs(g, d) == Subdirs(fs, d) {
      if IsDir(fs, d) {
        forall k | 0 <= k < |Children(fs, d)|
          ensures SubdirW(g)(Children(fs, d)[k]) == SubdirW(fs)(Children(fs, d)[k])
        {
          if !Dot(Children(fs, d)[k].name) {
            EntryCounts(fs, d, k);
          }
        }
        SumSame(Children(fs, d), SubdirW(g), SubdirW(fs));
      }
    }
  }

  lemma {:induction false} ReclaimNames(fs: Fs, g: Fs, ino: nat)
    requires NamesOk(fs) && Live(fs, ino) && At(fs, ino).h.nlink == 0
    requires g.nodes == fs.nodes[ino := None]
    ensures NamesOk(g)
  {
    hide LinksTo, In, Subdirs, NonDots;
    CountsNonNegative(fs);
    assert LinksTo(fs, ino) == 0 && ino != ROOT;
    ClearEffect(fs, g, ino);
  }

  lemma {:induction false} ForgetNames(fs: Fs, ino: nat, n: nat)
    requires TableOk(fs) && NamesOk(fs)
    ensures NamesOk(Forget(fs, ino, n))
  {
    hide TableOk, NamesOk, Wrap, UseBlocks, UseInodes;
    var f := AddLookups(fs, ino, 0 - n);
    LookupNames(fs, ino, 0 - n);
    if Live(fs, ino) && At(f, ino).h.nlookup == 0 && At(f, ino).h.nlink == 0 {
      ReclaimNames(f, Forget(fs, ino, n), ino);
    }
  }

  /** A new node gets its first name. */
  lemma {:induction false} NewName(fs: Fs, f: Fs, g: Fs, p: nat, name: Name, ino: nat)
    requires NamesOk(fs) && IsDir(fs, p) && !Dot(name)
    requires !Live(fs, ino) && Live(f, ino) && ino > ROOT
    requires forall j: nat :: j != ino ==> (Live(f, j) <==> Live(fs, j)) && (IsDir(f, j) <==> IsDir(fs, j))
    requires forall x: nat :: LinksTo(f, x) == LinksTo(fs, x)
    requires forall i: nat :: Subdirs(f, i) == Subdirs(fs, i)
    requires Recount(f, g, p, None, Some(Entry(name, ino))) && SameKinds(f, g)
    requires Subdirs(f, ino) == 0 && p != ino
    requires forall j: nat :: Live(fs, j) ==> Nlink(g, j) == Nlink(fs, j) + B2I(j == p && IsDir(f, ino))
    requires Nlink(g, ino) == 1 + B2I(IsDir(f, ino))
    ensures NamesOk(g)
  {
    hide LinksTo, In, Subdirs, NonDots;
    CountsNonNegative(fs);
    assert LinksTo(fs, ino) == 0;
    forall i: nat | IsDir(g, i) && Named(g, i) ensures 2 + Subdirs(g, i) <= At(g, i).h.nlink {
      assert Nlink(g, i) == At(g, i).h.nlink;
      assert i != ino ==> Named(fs, i) && Nlink(fs, i) == At(fs, i).h.nlink;
    }
    forall i: nat | Live(g, i) && !IsDir(g, i) ensures LinksTo(g, i) <= At(g, i).h.nlink {
      assert Nlink(g, i) == At(g, i).h.nlink;
      assert i != ino ==> Nlink(fs, i) == At(fs, i).h.nlink;
    }
  }

  /** The table with the new node in place, not yet named. */
  lemma {:induction false} PlacedNames(fs: Fs, op: Op)
    requires Tidy(fs) && NamesOk(fs) && IsCreate(op) && Attempt(fs, op).Some?
    ensures var n, ino := Attempt(fs, op).value, NextSlot(fs);
            var f := Placed(fs, n);
            && TableOk(f) && !Live(fs, ino) && Live(f, ino) && ino > ROOT
            && (forall j: nat :: j != ino ==> (Live(f, j) <==> Live(fs, j)))
            && (forall j: nat :: Live(fs, j) ==> At(f, j) == At(fs, j))
            && (forall x: nat :: LinksTo(f, x) == LinksTo(fs, x))
            && (forall i: nat :: Subdirs(f, i) == Subdirs(fs, i)) && Subdirs(f, ino) == 0
  {
    hide SlotsOk, Lawful, NodeLaw, LinksTo, In, Attempt;
    var n, ino := Attempt(fs, op).value, NextSlot(fs);
    var f := Placed(fs, n);
    NextIsFree(fs);
    NewTag(fs, op);
    NewLaw(fs, op);
    PutLawful(fs, f, ino, Some(n));
    SlotNumbered(fs, f, ino, Some(n));
    TableIff(f);
    hide Tagged, ZeroFree, TableOk;
    assert ino != ROOT;
    NotNamed(fs, ino);
    if IsDir(f, ino) {
      AllDots(f, ino);
    }
    SlotEffect(fs, f, ino, Some(n));
  }

  lemma {:induction false} NewLaw(fs: Fs, op: Op)
    requires SlotsOk(fs) && IsCreate(op) && Attempt(fs, op).Some?
    ensures NodeLaw(Attempt(fs, op).value)
  {
    hide NewBody, NewNode, CreateMode, NodeLaw, SlotsOk;
    NextIsFree(fs);
    NewNodeOk(fs, op.p, CreateMode(op), CreateLink(op), op.meta);
  }

  lemma {:induction false} NotNamed(fs: Fs, i: nat)
    requires NamesOk(fs) && !Live(fs, i)
    ensures LinksTo(fs, i) == 0 && NonDots(fs, i) == 0
  {
    CountsNonNegative(fs);
  }

  lemma {:induction false} FinishedNames(fs: Fs, op: Op)
    requires Tidy(fs) && NamesOk(fs) && IsCreate(op) && Attempt(fs, op).Some? && Enters(fs, op)
    requires !Dot(op.name) && RoomToLink(fs, op.p)
    ensures NamesOk(Finished(fs, Attempt(fs, op).value, op.p, op.name))
  {
    hide LinksTo, In, Subdirs, NonDots, TableOk, Tidy, NamesOk, Recount, Edited, Placed, NameFits, Attempt, AddChild;
    var n, p, ino := Attempt(fs, op).value, op.p, NextSlot(fs);
    var f := Placed(fs, n);
    TidyTable(fs);
    PlacedNames(fs, op);
    AttemptShape(fs, op);
    NameFitsIff(f, p, op.name, ino);
    var f1 := AddChild(f, p, op.name, ino).0;
    AddChildOk(f, p, op.name, ino);
    EditedKinds(f, f1, p, None, Some(Entry(op.name, ino)));
    EditedLinks(f, f1, p, None, Some(Entry(op.name, ino)));
    var g := if n.body.DirBody? then AddLinks(f1, p, 1) else f1;
    if n.body.DirBody? {
      AddLinksOk(f1, p, 1);
    }
    EditThenTouch(f, f1, g, p, None, Some(Entry(op.name, ino)));
    NewName(fs, f, g, p, op.name, ino);
    LookupNames(g, ino, 1);
  }

  /** The parent is a directory of its own; a new node has one link, a directory two. */
  lemma {:induction false} AttemptShape(fs: Fs, op: Op)
    requires SlotsOk(fs) && IsCreate(op) && Attempt(fs, op).Some?
    ensures var n := Attempt(fs, op).value;
            && IsDir(fs, op.p) && op.p != NextSlot(fs)
            && Live(Placed(fs, n), NextSlot(fs)) && At(Placed(fs, n), NextSlot(fs)) == n
            && n.h.nlink == 1 + B2I(n.body.DirBody?)
  {
    hide NewBody, UseBlocks;
    NextIsFree(fs);
  }

  lemma {:induction false} EditedLinks(fs: Fs, g: Fs, d: nat, off: Option<Entry>, on: Option<Entry>)
    requires Edited(fs, g, d, off, on)
    ensures forall j: nat :: Live(g, j) <==> Live(fs, j)
    ensures forall j: nat :: Nlink(g, j) == Nlink(fs, j)
  {
    hide Edit;
  }

  lemma {:induction false} AbandonedNames(fs: Fs, n: Node)
    requires SlotsOk(fs) && NamesOk(fs)
    ensures NamesOk(Abandoned(fs, n))
  {
    hide LinksTo, In, Subdirs, UseBlocks;
    var g, ino := Abandoned(fs, n), NextSlot(fs);
    NextIsFree(fs);
    assert fs.deleted != [] ==> fs.deleted[0] in fs.deleted;
    assert g.nodes == PutSlot(fs.nodes, ino, None);
    hide SlotsOk, Abandoned;
    NotNamed(fs, ino);
    SlotEffect(fs, g, ino, None);
    hide NonDots;
    assert forall i: nat :: Live(g, i) <==> Live(fs, i);
    assert forall i: nat :: Live(fs, i) ==> At(g, i) == At(fs, i);
  }

  lemma {:induction false} CreateNames(fs: Fs, op: Op)
    requires Tidy(fs) && NamesOk(fs) && IsCreate(op) && !Dot(op.name) && RoomToLink(fs, op.p)
    ensures NamesOk(FsStep(fs, op).0)
  {
    hide FsStep, SlotsOk, Numbered, Lawful, NamesOk, Attempt, Enters, Finished, Abandoned;
    CreateOutcome(fs, op);
    if Attempt(fs, op).Some? {
      AbandonedNames(fs, Attempt(fs, op).value);
      if Enters(fs, op) {
        FinishedNames(fs, op);
      }
    } else {
      NotAttempted(fs, op);
    }
  }

  // --------------------------------------------------------------- steps and runs

  lemma {:induction false} StepNames(fs: Fs, op: Op)
    requires Tidy(fs) && NamesOk(fs) && Sober(fs, op) && !op.CheckpointOp? && !op.RestoreOp?
    ensures NamesOk(FsStep(fs, op).0)
  {
    hide Tidy, NamesOk, TableOk, AddLookups, SetData, Overwrite, Resized, HasSpaceFor, Occupied, RenameCheck;
    hide Rename, Rmdir, Forget, Unlink, Link;
    TidyTable(fs);
    if IsCreate(op) {
      hide FsStep;
      CreateNames(fs, op);
    } else {
      match op
      case LookupOp(p, name) =>
        if CheckParent(fs, p) == OK {
          LookupNames(fs, ChildIno(Children(fs, p), name), 1);
        }
      case UnlinkOp(p, name) => UnlinkNames(fs, p, name);
      case RmdirOp(p, name) => RmdirNames(fs, p, name);
      case RenameOp(p, name, np, newname) => RenameNames(fs, p, name, np, newname);
      case LinkOp(ino, np, newname) => LinkNames(fs, ino, np, newname);
      case ForgetOp(ino, n) => ForgetNames(fs, ino, n);
      case WriteOp(ino, data, off, mem) =>
        if IsFile(fs, ino) {
          DataNames(fs, ino, Overwrite(At(fs, ino).body.data, data, off));
        }
      case TruncateOp(ino, size, mem) =>
        if IsFile(fs, ino) {
          DataNames(fs, ino, Resized(At(fs, ino).body.data, size));
        }
      case ReadOp(_, _, _) =>
      case SetAttrOp(ino, mode, meta) =>
        if !Gone(fs, ino) {
          GoneZero(fs);
          SetHeadOk(fs, ino, At(fs, ino).h.(mode := mode, meta := meta));
          QuietNames(fs, SetHead(fs, ino, At(fs, ino).h.(mode := mode, meta := meta)));
        }
    }
  }

  lemma {:induction false} TidyTable(fs: Fs)
    requires Tidy(fs)
    ensures TableOk(fs) && SlotsOk(fs)
  {
    hide SlotsOk, Lawful, Tagged, TableOk;
    TableIff(fs);
  }

  lemma {:induction false} GoneZero(fs: Fs)
    requires Tidy(fs)
    ensures Gone(fs, 0)
  {
    hide SlotsOk, Lawful, Tagged;
  }

  lemma {:induction false} DataNames(fs: Fs, i: nat, data: seq<byte>)
    requires TableOk(fs) && NamesOk(fs) && IsFile(fs, i)
    ensures NamesOk(SetData(fs, i, data))
  {
    hide TableOk, NamesOk, UseBlocks, NBlocks;
    SetDataOk(fs, i, data);
    QuietNames(fs, SetData(fs, i, data));
  }

  /** The root keeps its links, so no forget reclaims it. */
  lemma {:induction false} SoberIsBenign(fs: Fs, op: Op)
    requires Safe(fs) && Sober(fs, op)
    ensures Benign(fs, op)
  {
    hide Tidy, LinksTo, TypeBits;
    CountsNonNegative(fs);
  }

  lemma {:induction false} StepSafe(st: State, op: Op)
    requires StateSafe(st) && Sober(st.live, op)
    ensures StateSafe(Step(st, op).0)
  {
    hide Tidy, NamesOk, FsStep, Sober, Benign;
    SoberIsBenign(st.live, op);
    StepTidy(st, op);
    if !op.CheckpointOp? && !op.RestoreOp? {
      StepNames(st.live, op);
    }
  }

  ghost predicate SoberRun(st: State, ops: seq<Op>)
    decreases |ops|
  {
    ops != [] ==> Sober(st.live, ops[0]) && SoberRun(Step(st, ops[0]).0, ops[1..])
  }

  /** Legal runs are sober runs. */
  lemma {:induction false} LegalRunIsSober(st: State, ops: seq<Op>)
    requires LegalRun(st, ops)
    ensures SoberRun(st, ops)
    decreases |ops|
  {
    hide Step, FsLegal, Sober;
    if ops != [] {
      if !ops[0].CheckpointOp? && !ops[0].RestoreOp? {
        LegalIsSober(st.live, ops[0]);
      } else {
        PoolIsSober(st.live, ops[0]);
      }
      LegalRunIsSober(Step(st, ops[0]).0, ops[1..]);
    }
  }

  lemma {:induction false} PoolIsSober(fs: Fs, op: Op)
    requires op.CheckpointOp? || op.RestoreOp?
    ensures Sober(fs, op)
  {
  }

  /** Every sober run, unfitting renames and forgets beyond the restored count included,
      keeps tables tidy and names in order. */
  lemma {:induction false} RunSafe(st: State, ops: seq<Op>)
    requires StateSafe(st) && SoberRun(st, ops)
    ensures StateSafe(Run(st, ops))
    decreases |ops|
  {
    hide Safe, Step, Sober;
    if ops != [] {
      StepSafe(st, ops[0]);
      RunSafe(Step(st, ops[0]).0, ops[1..]);
    }
  }

  lemma {:induction false} InitSafe(blocks: word, files: word, fixed: seq<byte>, rootMode: nat, meta: seq<byte>)
    ensures StateSafe(State(Init(blocks, files, fixed, rootMode, meta), map[]))
  {
    hide Init, FsOk, Safe;
    InitOk(blocks, files, fixed, rootMode, meta);
    OkIsSafe(Init(blocks, files, fixed, rootMode, meta));
  }

  /** On every sober run from FuseInit, in the live table and every snapshot: no name
      dangles, no directory has two names, link counts cover the names, and the root
      keeps its two links at least. */
  lemma {:induction false} NamesLast(blocks: word, files: word, fixed: seq<byte>, rootMode: nat, meta: seq<byte>,
                                     ops: seq<Op>)
    requires SoberRun(State(Init(blocks, files, fixed, rootMode, meta), map[]), ops)
    ensures StateSafe(Run(State(Init(blocks, files, fixed, rootMode, meta), map[]), ops))
  {
    hide Init, SoberRun, Run, Safe;
    InitSafe(blocks, files, fixed, rootMode, meta);
    RunSafe(State(Init(blocks, files, fixed, rootMode, meta), map[]), ops);
  }
}
