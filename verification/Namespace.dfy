/** Every namespace request keeps the invariant. */
module Namespace {
  import opened Base
  import opened Model
  import opened Graph
  import opened Invariant

  // --------------------------------------------------------- climbing to the root

  /** Apart from a and b, every directory is still named by its parents. */
  ghost predicate EdgesKept(fs: Fs, g: Fs, a: nat, b: nat) {
    forall p: nat, x: nat :: IsDir(fs, x) && x != a && x != b && In(fs, p, x) > 0 ==> In(g, p, x) > 0
  }

  ghost predicate IsLeaf(fs: Fs, i: nat) {
    forall x: nat :: In(fs, i, x) == 0
  }

  lemma {:induction false} ClimbKept(fs: Fs, g: Fs, x0: nat, i: nat, k: nat)
    requires EdgesKept(fs, g, x0, x0)
    requires IsLeaf(fs, x0)
    requires IsDir(fs, i) && i != x0 && Climbs(fs, i, ROOT, k)
    ensures Climbs(g, i, ROOT, k)
    decreases k
  {
    if k > 0 {
      var p: nat :| In(fs, p, i) > 0 && Climbs(fs, p, ROOT, k - 1);
      InBounds(fs, p, i);
      ClimbKept(fs, g, x0, p, k - 1);
    }
  }

  /** A climb that does not meet src survives moving src. */
  lemma {:induction false} ClimbAvoids(fs: Fs, g: Fs, src: nat, x0: nat, i: nat, k: nat)
    requires EdgesKept(fs, g, src, x0)
    requires IsLeaf(fs, x0)
    requires IsDir(fs, i) && i != x0 && Climbs(fs, i, ROOT, k) && !Within(fs, i, src)
    ensures Climbs(g, i, ROOT, k)
    decreases k
  {
    assert i != src by {
      if i == src {
        assert Climbs(fs, i, src, 0);
      }
    }
    if k > 0 {
      var p: nat :| In(fs, p, i) > 0 && Climbs(fs, p, ROOT, k - 1);
      InBounds(fs, p, i);
      if Within(fs, p, src) {
        var m: nat :| Climbs(fs, p, src, m);
        assert Climbs(fs, i, src, m + 1);
      }
      ClimbAvoids(fs, g, src, x0, p, k - 1);
    }
  }

  /** After src has moved under np, a climb through src goes on from np. */
  lemma {:induction false} ClimbRerouted(fs: Fs, g: Fs, src: nat, np: nat, x0: nat, i: nat, k: nat)
    requires EdgesKept(fs, g, src, x0)
    requires IsLeaf(fs, x0)
    requires In(g, np, src) > 0 && Within(g, np, ROOT)
    requires IsDir(fs, i) && i != x0 && Climbs(fs, i, ROOT, k)
    ensures Within(g, i, ROOT)
    decreases k
  {
    hide In, LinksTo, NonDots;
    if k == 0 {
      assert Climbs(g, i, ROOT, 0);
    } else if i == src {
      var m: nat :| Climbs(g, np, ROOT, m);
      assert Climbs(g, i, ROOT, m + 1);
    } else {
      var p: nat :| In(fs, p, i) > 0 && Climbs(fs, p, ROOT, k - 1);
      InBounds(fs, p, i);
      ClimbRerouted(fs, g, src, np, x0, p, k - 1);
      var m: nat :| Climbs(g, p, ROOT, m);
      assert Climbs(g, i, ROOT, m + 1);
    }
  }

  /** Only the naming of the leaf x0 has changed; x0 = 0 for no directory at all. */
  lemma {:induction false} TreeKept(fs: Fs, g: Fs, x0: nat)
    requires LinksOk(fs) && TreeOk(fs)
    requires forall i: nat :: i != x0 ==> (IsDir(g, i) <==> IsDir(fs, i))
    requires IsDir(g, x0) ==> IsDir(fs, x0)
    requires forall i: nat :: IsDir(fs, i) && i != x0 ==> LinksTo(g, i) == LinksTo(fs, i)
    requires EdgesKept(fs, g, x0, x0)
    requires forall i: nat :: IsDir(g, i) && !Named(g, i) ==> NonDots(g, i) == 0
    requires IsLeaf(fs, x0)
    requires IsDir(fs, x0) ==> LinksTo(g, x0) == 0 && x0 != ROOT
    ensures TreeOk(g)
  {
    forall i: nat | IsDir(g, i) && Named(g, i) ensures Within(g, i, ROOT) {
      var k: nat :| Climbs(fs, i, ROOT, k);
      ClimbKept(fs, g, x0, i, k);
    }
  }

  lemma {:induction false} NoLeaf(fs: Fs)
    requires LinksOk(fs)
    ensures !IsDir(fs, 0) && IsLeaf(fs, 0)
  {
  }

  /** Counts are never negative. */
  lemma {:induction false} CountsNonNegative(fs: Fs)
    ensures forall x: nat :: LinksTo(fs, x) >= 0
    ensures forall p: nat, x: nat :: In(fs, p, x) >= 0
    ensures forall i: nat :: Subdirs(fs, i) >= 0
  {
    forall p: nat, x: nat ensures In(fs, p, x) >= 0 {
      InBounds(fs, p, x);
    }
    forall x: nat ensures LinksTo(fs, x) >= 0 {
      InBounds(fs, 0, x);
    }
    forall i: nat ensures Subdirs(fs, i) >= 0 {
      if IsDir(fs, i) {
        SumBounds(Children(fs, i), SubdirW(fs));
      }
    }
  }

  // ------------------------------------------------- requests without an edit

  /** Nothing but attributes and file contents changed. */
  lemma {:induction false} QuietOk(fs: Fs, g: Fs)
    requires FsOk(fs)
    requires TableOk(g) && SameSlots(fs, g) && SameGraph(fs, g)
    requires forall i: nat :: Live(fs, i) ==> At(g, i).h.nlink == At(fs, i).h.nlink
    ensures FsOk(g)
  {
    SameSlotsOk(fs, g);
    SameGraphCounts(fs, g);
    NoLeaf(fs);
    TreeKept(fs, g, 0);
    forall i: nat | LinksTo(g, i) > 0 ensures Live(g, i) {
      assert Live(fs, i);
    }
  }

  lemma {:induction false} AddLookupsOk(fs: Fs, i: nat, n: int)
    requires FsOk(fs)
    ensures FsOk(AddLookups(fs, i, n))
  {
    if Live(fs, i) {
      SetHeadOk(fs, i, At(AddLookups(fs, i, n), i).h);
      QuietOk(fs, AddLookups(fs, i, n));
    }
  }

  lemma {:induction false} SetAttrOk(fs: Fs, ino: nat, mode: nat, meta: seq<byte>)
    requires FsOk(fs) && FsLegal(fs, SetAttrOp(ino, mode, meta))
    ensures FsOk(SetAttr(fs, ino, mode, meta).0)
  {
    if !Gone(fs, ino) {
      SetHeadOk(fs, ino, At(SetAttr(fs, ino, mode, meta).0, ino).h);
      QuietOk(fs, SetAttr(fs, ino, mode, meta).0);
    }
  }

  lemma {:induction false} WriteOk(fs: Fs, ino: nat, data: seq<byte>, off: nat, mem: bool)
    requires FsOk(fs)
    ensures FsOk(Write(fs, ino, data, off, mem).0)
  {
    if IsFile(fs, ino) {
      var d := Overwrite(At(fs, ino).body.data, data, off);
      SetDataOk(fs, ino, d);
      QuietOk(fs, SetData(fs, ino, d));
    }
  }

  lemma {:induction false} TruncateOk(fs: Fs, ino: nat, size: nat, mem: bool)
    requires FsOk(fs)
    ensures FsOk(Truncate(fs, ino, size, mem).0)
  {
    if IsFile(fs, ino) {
      var d := Resized(At(fs, ino).body.data, size);
      SetDataOk(fs, ino, d);
      QuietOk(fs, SetData(fs, ino, d));
    }
  }

  // --------------------------------------------------------------- lookup, link

  lemma {:induction false} LookupOk(fs: Fs, p: nat, name: Name)
    requires FsOk(fs)
    ensures FsOk(Lookup(fs, p, name).0)
  {
    if CheckParent(fs, p) == OK {
      AddLookupsOk(fs, ChildIno(Children(fs, p), name), 1);
    }
  }

  /** Heads changed in link counts only, and by which amount. */
  ghost predicate Relinked(fs: Fs, g: Fs, i: nat, n: int) {
    && (forall j: nat :: Live(g, j) <==> Live(fs, j))
    && (forall j: nat :: IsDir(g, j) <==> IsDir(fs, j))
    && (forall j: nat :: Live(fs, j) ==> At(g, j).h.nlink == At(fs, j).h.nlink + (if j == i then n else 0))
  }

  /** A name of the non-directory x comes or goes and its link count follows. */
  lemma {:induction false} FileLinkMoves(fs: Fs, g: Fs, d: nat, off: Option<Entry>, on: Option<Entry>, x: nat)
    requires LinksOk(fs) && TreeOk(fs) && Named(fs, d) && Live(fs, x) && !IsDir(fs, x) && x != 0
    requires Recount(fs, g, d, off, on)
    requires forall i: nat :: (Hits(off, i) || Hits(on, i)) ==> i == x
    requires Relinked(fs, g, x, B2I(Hits(on, x)) - B2I(Hits(off, x)))
    ensures LinksOk(g) && TreeOk(g)
  {
    hide LinksTo, In, Subdirs, NonDots;
    NoLeaf(fs);
    assert !HitsDir(fs, off) && !HitsDir(fs, on);
    assert forall i: nat :: IsDir(fs, i) ==> LinksTo(g, i) == LinksTo(fs, i);
    TreeKept(fs, g, 0);
  }

  lemma {:induction false} LinkOk(fs: Fs, ino: nat, np: nat, newname: Name)
    requires FsOk(fs) && FsLegal(fs, LinkOp(ino, np, newname))
    ensures FsOk(Link(fs, ino, np, newname).0)
  {
    hide LinksTo, In, Subdirs, NonDots, NodeOk, TableOk, TreeOk, Recount, SlotsOk, Edited;
    if Link(fs, ino, np, newname).1.EntryOf? {
      var e := Some(Entry(newname, ino));
      var f := AddChild(fs, np, newname, ino).0;
      var g := AddLinks(f, ino, 1);
      AddChildOk(fs, np, newname, ino);
      AddLinksOk(f, ino, 1);
      hide AddLinks, Wrap;
      SameSlotsOk(fs, g);
      EditThenTouch(fs, f, g, np, None, e);
      FileLinkMoves(fs, g, np, None, e, ino);
      AddLookupsOk(g, ino, 1);
    }
  }

  // ------------------------------------------------------------- unlink, rmdir

  lemma {:induction false} UnlinkOk(fs: Fs, p: nat, name: Name)
    requires FsOk(fs) && FsLegal(fs, UnlinkOp(p, name))
    ensures FsOk(Unlink(fs, p, name).0)
  {
    hide LinksTo, In, Subdirs, NonDots, NodeOk, TableOk, TreeOk, Recount, SlotsOk, Edited;
    if Unlink(fs, p, name).1 == Done {
      var es := Children(fs, p);
      var k := Find(es, name);
      var ino := es[k].ino;
      EntryCounts(fs, p, k);
      var f := RemoveChild(fs, p, name);
      var g := AddLinks(f, ino, -1);
      RemoveChildOk(fs, p, name);
      AddLinksOk(f, ino, -1);
      hide AddLinks, Wrap;
      SameSlotsOk(fs, g);
      EditThenTouch(fs, f, g, p, Some(es[k]), None);
      FileLinkMoves(fs, g, p, Some(es[k]), None, ino);
    }
  }

  /** In a reachable state no name dangles: its inode is there and has links. */
  lemma {:induction false} NoDangling(fs: Fs, d: nat, k: nat)
    requires LinksOk(fs) && IsDir(fs, d)
    requires k < |Children(fs, d)| && !Dot(Children(fs, d)[k].name)
    ensures !Gone(fs, Children(fs, d)[k].ino)
  {
    EntryCounts(fs, d, k);
    CountsNonNegative(fs);
  }

  /** IsEmpty, which inspects link counts, means that there is no entry. */
  lemma {:induction false} EmptyHasNoEntries(fs: Fs, d: nat)
    requires LinksOk(fs) && IsDir(fs, d) && IsEmpty(fs, Children(fs, d))
    ensures NonDots(fs, d) == 0 && Subdirs(fs, d) == 0
    ensures IsLeaf(fs, d)
  {
    forall k | 0 <= k < |Children(fs, d)| ensures Dot(Children(fs, d)[k].name) {
      if !Dot(Children(fs, d)[k].name) {
        NoDangling(fs, d, k);
      }
    }
    AllDots(fs, d);
  }

  /** A name of a directory makes it a directory with one name, and not the root. */
  lemma {:induction false} NamedOnce(fs: Fs, p: nat, k: nat)
    requires LinksOk(fs) && TreeOk(fs) && IsDir(fs, p)
    requires k < |Children(fs, p)| && !Dot(Children(fs, p)[k].name)
    requires IsDir(fs, Children(fs, p)[k].ino)
    ensures LinksTo(fs, Children(fs, p)[k].ino) == 1 && Children(fs, p)[k].ino != ROOT
    ensures Subdirs(fs, p) >= 1
  {
    EntryCounts(fs, p, k);
    SumBounds(Children(fs, p), SubdirW(fs));
    assert SubdirW(fs)(Children(fs, p)[k]) == 1;
  }

  /** The empty directory x loses its only name and all links, its parent one link. */
  lemma {:induction false} DirLeaves(fs: Fs, g: Fs, p: nat, e: Entry)
    requires LinksOk(fs) && TreeOk(fs) && IsDir(fs, p) && Named(fs, p) && p != e.ino && !Dot(e.name)
    requires IsDir(fs, e.ino) && LinksTo(fs, e.ino) == 1 && e.ino != ROOT
    requires IsLeaf(fs, e.ino) && NonDots(fs, e.ino) == 0
    requires Recount(fs, g, p, Some(e), None)
    requires forall j: nat :: Live(g, j) <==> Live(fs, j)
    requires forall j: nat :: IsDir(g, j) <==> IsDir(fs, j)
    requires forall j: nat :: Live(fs, j) && j != e.ino ==> At(g, j).h.nlink == At(fs, j).h.nlink - B2I(j == p)
    ensures LinksOk(g) && TreeOk(g)
  {
    hide LinksTo, In, Subdirs, NonDots;
    CountsNonNegative(fs);
    TreeKept(fs, g, e.ino);
  }

  lemma {:induction false} RmdirOk(fs: Fs, p: nat, name: Name)
    requires FsOk(fs) && FsLegal(fs, RmdirOp(p, name))
    ensures FsOk(Rmdir(fs, p, name).0)
  {
    hide LinksTo, In, Subdirs, NonDots, NodeOk, TableOk, TreeOk, Recount, SlotsOk, Edited, IsLeaf;
    if Rmdir(fs, p, name).1 == Done {
      var es := Children(fs, p);
      var k := Find(es, name);
      var ino := es[k].ino;
      NamedOnce(fs, p, k);
      EmptyHasNoEntries(fs, ino);
      var f := RemoveChild(fs, p, name);
      var f1 := AddLinks(f, p, -1);
      var g := Rmdir(fs, p, name).0;
      RemoveChildOk(fs, p, name);
      AddLinksOk(f, p, -1);
      SetHeadOk(f1, ino, At(g, ino).h);
      hide AddLinks, Wrap;
      SameSlotsOk(fs, g);
      EditThenTouch(fs, f, g, p, Some(es[k]), None);
      DirLeaves(fs, g, p, es[k]);
    }
  }

  // -------------------------------------------------------------------- forget

  /** An inode without links is not named and names nothing. */
  lemma {:induction false} Unnamed(fs: Fs, i: nat)
    requires LinksOk(fs) && TreeOk(fs) && Live(fs, i) && At(fs, i).h.nlink == 0
    ensures i != ROOT && LinksTo(fs, i) == 0 && NonDots(fs, i) == 0
  {
    CountsNonNegative(fs);
  }

  /** Reclaiming the slot of an inode without links keeps the invariant. */
  lemma {:induction false} ReclaimOk(fs: Fs, g: Fs, ino: nat)
    requires FsOk(fs) && Live(fs, ino) && At(fs, ino).h.nlink == 0 && ino != 0
    requires g.nodes == PutSlot(fs.nodes, ino, None) && g.deleted == fs.deleted + [ino]
    requires g.stat.files == fs.stat.files && g.stat.ffree == Wrap(fs.stat.ffree + 1)
    ensures FsOk(g)
  {
    Unnamed(fs, ino);
    ClearSlot(fs, g, ino);
    assert NonDots(g, ino) == 0;
    SlotEffect(fs, g, ino, None);
    NoEntries(fs, ino);
    hide LinksTo, In, Subdirs, NonDots, NodeOk, SlotsOk;
    forall i: nat | Live(g, i) ensures NodeOk(i, At(g, i)) {
      assert At(g, i) == At(fs, i);
    }
    TreeKept(fs, g, ino);
  }

  lemma {:induction false} ForgetOk(fs: Fs, ino: nat, n: nat)
    requires FsOk(fs) && FsLegal(fs, ForgetOp(ino, n))
    ensures FsOk(Forget(fs, ino, n))
    ensures Live(fs, ino) && !Live(Forget(fs, ino, n), ino) ==> LinksTo(fs, ino) == 0 && ino != ROOT
  {
    hide TableOk, SlotsOk, LinksOk, TreeOk, LinksTo, Wrap;
    var f := AddLookups(fs, ino, 0 - n);
    AddLookupsOk(fs, ino, 0 - n);
    if Live(fs, ino) && At(f, ino).h.nlookup == 0 && At(f, ino).h.nlink == 0 {
      Unnamed(fs, ino);
      ReclaimOk(f, Forget(fs, ino, n), ino);
    }
  }

  // -------------------------------------------------------------------- create

  /** A new node gets its first name. */
  lemma {:induction false} NodeArrives(fs: Fs, f: Fs, g: Fs, p: nat, name: Name, ino: nat)
    requires LinksOk(fs) && TreeOk(fs) && IsDir(fs, p) && Named(fs, p) && !Dot(name)
    requires !Live(fs, ino) && Live(f, ino) && ino > ROOT
    requires forall j: nat :: j != ino ==> (Live(f, j) <==> Live(fs, j)) && (IsDir(f, j) <==> IsDir(fs, j))
    requires forall x: nat :: LinksTo(f, x) == LinksTo(fs, x)
    requires forall q: nat, x: nat :: In(f, q, x) == In(fs, q, x)
    requires forall i: nat :: Subdirs(f, i) == Subdirs(fs, i) && NonDots(f, i) == NonDots(fs, i)
    requires Subdirs(f, ino) == 0 && NonDots(f, ino) == 0
    requires Recount(f, g, p, None, Some(Entry(name, ino)))
    requires forall j: nat :: (Live(g, j) <==> Live(f, j)) && (IsDir(g, j) <==> IsDir(f, j))
    requires forall j: nat :: Live(fs, j) ==> At(g, j).h.nlink == At(fs, j).h.nlink + B2I(j == p && IsDir(f, ino))
    requires At(g, ino).h.nlink == 1 + B2I(IsDir(f, ino))
    ensures LinksOk(g) && TreeOk(g)
  {
    hide LinksTo, In, Subdirs, NonDots;
    CountsNonNegative(fs);
    NoLeaf(fs);
    assert LinksTo(fs, ino) == 0;
    assert Hits(Some(Entry(name, ino)), ino);
    assert In(g, p, ino) > 0;
    assert EdgesKept(fs, g, 0, 0);
    forall i: nat | IsDir(g, i) && Named(g, i) ensures Within(g, i, ROOT) {
      var j := if i == ino then p else i;
      var k: nat :| Climbs(fs, j, ROOT, k);
      ClimbKept(fs, g, 0, j, k);
      if i == ino {
        assert Climbs(g, i, ROOT, k + 1);
      }
    }
  }

  /** The prepared table: one more inode, not yet named. */
  lemma {:induction false} PreparedOk(fs: Fs, p: nat, mode: nat, link: Option<seq<byte>>, meta: seq<byte>)
    requires FsOk(fs) && Live(fs, p) && NewBody(mode, link).Some? && fs.stat.ffree != 0
    ensures var f, ino := Prepared(fs, p, mode, NewBody(mode, link).value, meta), NextSlot(fs);
            && TableOk(f) && SlotsOk(f) && !Live(fs, ino) && Live(f, ino) && ino > ROOT
            && LinksTo(fs, ino) == 0 && NonDots(f, ino) == 0 && Subdirs(f, ino) == 0
  {
    hide Prepared, NodeOk, NewNode, LinksTo, TreeOk;
    var body := NewBody(mode, link).value;
    var f, ino, n := Prepared(fs, p, mode, body, meta), NextSlot(fs), NewNode(fs, p, mode, body, meta);
    PreparedShape(fs, p, mode, body, meta);
    NewNodeOk(fs, p, mode, link, meta);
    FillSlot(fs, f, n);
    forall i: nat | Live(f, i) ensures NodeOk(i, At(f, i)) {
      assert i != ino ==> At(f, i) == At(fs, i);
    }
    CountsNonNegative(fs);
    if IsDir(f, ino) {
      AllDots(f, ino);
    }
  }

  lemma {:induction false} CreateNodeOk(fs: Fs, p: nat, name: Name, mode: nat, link: Option<seq<byte>>, meta: seq<byte>)
    requires FsOk(fs) && IsDir(fs, p) && Named(fs, p) && !Dot(name) && RoomToLink(fs, p)
    ensures FsOk(DoCreateNode(fs, p, name, mode, link, meta).0)
  {
    hide FsOk, Prepared, NewBody, AddLinks, PutChildren;
    if NewBody(mode, link).Some? && fs.stat.ffree != 0 {
      if DoCreateNode(fs, p, name, mode, link, meta).1.EntryOf? {
        CreatedOk(fs, p, name, mode, link, meta);
      } else {
        RolledBackOk(fs, p, mode, link, meta);
      }
    }
  }

  lemma {:induction false} CreatedOk(fs: Fs, p: nat, name: Name, mode: nat, link: Option<seq<byte>>, meta: seq<byte>)
    requires FsOk(fs) && IsDir(fs, p) && Named(fs, p) && !Dot(name) && RoomToLink(fs, p)
    requires DoCreateNode(fs, p, name, mode, link, meta).1.EntryOf?
    ensures FsOk(DoCreateNode(fs, p, name, mode, link, meta).0)
  {
    hide LinksTo, In, Subdirs, NonDots, NodeOk, TableOk, SlotsOk, TreeOk, Recount, Edited, Prepared;
    hide Wrap, NBlocks, Charge, UseBlocks;
    var body := NewBody(mode, link).value;
    var f, ino := Prepared(fs, p, mode, body, meta), NextSlot(fs);
    var f1 := AddChild(f, p, name, ino).0;
    var g := DoCreateNode(fs, p, name, mode, link, meta).0;
    PreparedOk(fs, p, mode, link, meta);
    PreparedShape(fs, p, mode, body, meta);
    NoNames(fs, ino);
    SlotEffect(fs, f, ino, f.nodes[ino]);
    AddChildOk(f, p, name, ino);
    if body.DirBody? {
      AddLinksOk(f1, p, 1);
    }
    hide AddLinks;
    EditThenTouch(f, f1, g, p, None, Some(Entry(name, ino)));
    SameSlotsOk(f, g);
    NodeArrives(fs, f, g, p, name, ino);
  }

  /** A slot that is not in use neither is named nor names anything. */
  lemma {:induction false} NoNames(fs: Fs, i: nat)
    requires LinksOk(fs) && !Live(fs, i)
    ensures LinksTo(fs, i) == 0 && NonDots(fs, i) == 0
  {
    CountsNonNegative(fs);
  }

  /** After a failed create the table is as before, up to one more null slot. */
  lemma {:induction false} RolledBackOk(fs: Fs, p: nat, mode: nat, link: Option<seq<byte>>, meta: seq<byte>)
    requires FsOk(fs) && Live(fs, p) && NewBody(mode, link).Some? && fs.stat.ffree != 0
    ensures FsOk(Rollback(Prepared(fs, p, mode, NewBody(mode, link).value, meta), NextSlot(fs)))
  {
    FailedCreateShape(fs, p, mode, NewBody(mode, link).value, meta);
    hide Prepared, Rollback, NewNode, LinksOk, TreeOk, TableOk;
    NullSlotOk(fs, Rollback(Prepared(fs, p, mode, NewBody(mode, link).value, meta), NextSlot(fs)));
  }

  lemma {:induction false} NullSlotOk(fs: Fs, g: Fs)
    requires FsOk(fs)
    requires g.nodes == if fs.deleted == [] then fs.nodes + [None] else fs.nodes
    requires g.deleted == if fs.deleted == [] then [|fs.nodes|] else fs.deleted[1..] + [fs.deleted[0]]
    requires g.stat.files == fs.stat.files && g.stat.ffree == fs.stat.ffree
    ensures FsOk(g)
  {
    hide NodeOk, LinksTo, In, Subdirs;
    RolledBackSlots(fs, g);
    assert fs.deleted != [] ==> fs.deleted[0] in fs.deleted;
    assert g.nodes == PutSlot(fs.nodes, NextSlot(fs), None);
    hide SlotsOk;
    NoNames(fs, NextSlot(fs));
    assert NonDots(g, NextSlot(fs)) == 0;
    SlotEffect(fs, g, NextSlot(fs), None);
    NoLeaf(fs);
    hide NonDots;
    forall i: nat | Live(g, i) ensures NodeOk(i, At(g, i)) {
      assert At(g, i) == At(fs, i);
    }
    TreeKept(fs, g, 0);
  }

  lemma {:induction false} RolledBackSlots(fs: Fs, g: Fs)
    requires SlotsOk(fs)
    requires g.nodes == if fs.deleted == [] then fs.nodes + [None] else fs.nodes
    requires g.deleted == if fs.deleted == [] then [|fs.nodes|] else fs.deleted[1..] + [fs.deleted[0]]
    requires g.stat.files == fs.stat.files && g.stat.ffree == fs.stat.ffree
    ensures SlotsOk(g)
    ensures forall i: nat :: Live(g, i) <==> Live(fs, i)
  {
    if fs.deleted == [] {
      SumAppend(fs.nodes, None, LiveW());
    } else {
      assert fs.deleted == [fs.deleted[0]] + fs.deleted[1..];
    }
    forall i: nat ensures i in g.deleted <==> i < |g.nodes| && g.nodes[i].None? {
      assert i in fs.deleted <==> i < |fs.nodes| && fs.nodes[i].None?;
    }
  }

  lemma {:induction false} CreateOk(fs: Fs, op: Op)
    requires FsOk(fs) && FsLegal(fs, op)
    requires IsCreate(op)
    ensures FsOk(FsStep(fs, op).0)
  {
    hide FsOk, DoCreateNode, AddLookups, SymlinkRoom, Named;
    if CheckParent(fs, op.p) == OK {
      var r := DoCreateNode(fs, op.p, op.name, CreateMode(op), CreateLink(op), op.meta);
      CreateNodeOk(fs, op.p, op.name, CreateMode(op), CreateLink(op), op.meta);
      hide FsLegal;
      if r.1.EntryOf? {
        AddLookupsOk(r.0, r.1.ino, 1);
      }
    }
  }
}
