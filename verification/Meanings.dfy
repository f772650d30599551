/** What each request answers and does, said of names as maps, links and classes, for
    every table whose inodes obey their laws. */
module Meanings {
  import opened Base
  import opened Model
  import opened Graph
  import opened Invariant
  import opened RenameProofs
  import opened Laws
  import opened DirectoryMap

  // ------------------------------------------------------------------ vocabulary

  /** The number a name of directory d is bound to; 0 when it is unbound. */
  ghost function Leads(fs: Fs, d: nat, name: Name): nat {
    if name in Bindings(fs, d) then Bindings(fs, d)[name] else 0
  }

  /** Every name of d but a dot leads to an inode without links. */
  ghost predicate NothingIn(fs: Fs, d: nat) {
    forall n :: n in Bindings(fs, d) && !Dot(n) ==> Gone(fs, Bindings(fs, d)[n])
  }

  /** The link count as rename and rmdir read it: the low 32 bits, positive as an int. */
  predicate Positive(nlink: word) {
    1 <= nlink % 0x1_0000_0000 < 0x8000_0000
  }

  /** Same slots and queue; every inode keeps its class and all attributes but link
      count, size and blocks; only directories of `changed` differ in anything but the
      link count, and only block counters of statvfs. */
  ghost predicate Frame(fs: Fs, g: Fs, changed: set<nat>) {
    && |g.nodes| == |fs.nodes| && g.deleted == fs.deleted
    && (forall i: nat :: (Live(g, i) <==> Live(fs, i)) && (IsDir(g, i) <==> IsDir(fs, i)))
    && (forall i: nat :: Live(fs, i) ==>
          var h, h' := At(fs, i).h, At(g, i).h;
          h' == h.(nlink := h'.nlink, size := h'.size, blocks := h'.blocks))
    && (forall i: nat :: Live(fs, i) && i !in changed ==>
          At(g, i) == At(fs, i).(h := At(fs, i).h.(nlink := At(g, i).h.nlink)))
    && g.stat == fs.stat.(bfree := g.stat.bfree, bavail := g.stat.bavail)
  }

  /** The bindings of all directories but d are as before. */
  ghost predicate OthersBound(fs: Fs, g: Fs, d: nat) {
    forall e: nat :: e != d ==> Bindings(g, e) == Bindings(fs, e)
  }

  lemma {:induction false} ChildLeads(fs: Fs, d: nat, name: Name)
    requires Lawful(fs) && IsDir(fs, d)
    ensures ChildIno(Children(fs, d), name) == Leads(fs, d, name)
    ensures Find(Children(fs, d), name) < |Children(fs, d)| <==> name in Bindings(fs, d)
  {
    hide ToMap, DirSize, TypeBits;
    assert NodeLaw(At(fs, d));
    LookupIsMap(Children(fs, d), name);
    MapHoldsEntries(Children(fs, d));
  }

  lemma {:induction false} EmptyIff(fs: Fs, d: nat)
    requires Lawful(fs) && IsDir(fs, d)
    ensures IsEmpty(fs, Children(fs, d)) <==> NothingIn(fs, d)
  {
    hide ToMap, DirSize, TypeBits, Gone;
    var es := Children(fs, d);
    assert NodeLaw(At(fs, d));
    MapHoldsEntries(es);
    if IsEmpty(fs, es) {
      forall n | n in Bindings(fs, d) && !Dot(n) ensures Gone(fs, Bindings(fs, d)[n]) {
        assert es[Find(es, n)].name == n;
      }
    }
    if NothingIn(fs, d) {
      forall j | 0 <= j < |es| && !Dot(es[j].name) ensures Gone(fs, es[j].ino) {
        assert es[j].name in Bindings(fs, d);
      }
    }
  }

  lemma {:induction false} PositiveIff(nlink: word)
    ensures NumLinks(nlink) > 0 <==> Positive(nlink)
  {
  }

  lemma {:induction false} DirModes(fs: Fs, i: nat)
    requires Lawful(fs) && Live(fs, i)
    ensures IsDirMode(At(fs, i).h.mode) <==> IsDir(fs, i)
  {
    assert NodeLaw(At(fs, i));
  }

  // ---------------------------------------------------------------------- lookup

  /** lookup answers the inode a name is bound to, if it has links, and counts it. */
  lemma {:induction false} LookupMeans(fs: Fs, p: nat, name: Name)
    requires Lawful(fs) && Gone(fs, 0)
    ensures var (g, r), x := Lookup(fs, p, name), Leads(fs, p, name);
            && r == (if Gone(fs, p) then Error(ENOENT)
                     else if !IsDir(fs, p) then Error(ENOTDIR)
                     else if name !in Bindings(fs, p) || Gone(fs, x) then Error(ENOENT)
                     else EntryOf(x))
            && (r.Error? ==> g == fs)
            && (r == EntryOf(x) ==>
                  && g.nodes == fs.nodes[x := g.nodes[x]] && g.deleted == fs.deleted && g.stat == fs.stat
                  && Live(g, x)
                  && At(g, x) == At(fs, x).(h := At(fs, x).h.(nlookup := Wrap(At(fs, x).h.nlookup + 1))))
  {
    hide Lawful, Bindings;
    if IsDir(fs, p) {
      ChildLeads(fs, p, name);
    }
  }

  // ---------------------------------------------------------------------- unlink

  lemma {:induction false} RemoveMeans(fs: Fs, d: nat, name: Name)
    requires Lawful(fs) && name in Bindings(fs, d)
    ensures var g := RemoveChild(fs, d, name);
            && Lawful(g) && Frame(fs, g, {d}) && OthersBound(fs, g, d)
            && Bindings(g, d) == Bindings(fs, d) - {name}
            && forall i: nat :: Nlink(g, i) == Nlink(fs, i)
  {
    hide Lawful, Bindings, NBlocks, UseBlocks;
    NamedInDir(fs, d, name);
    ChildLeads(fs, d, name);
    RemoveChildBinds(fs, d, name);
    RemoveLawful(fs, d, name);
    UseBlocksOnly(fs.stat, At(RemoveChild(fs, d, name), d).h.blocks - At(fs, d).h.blocks);
  }

  lemma {:induction false} NamedInDir(fs: Fs, d: nat, name: Name)
    requires name in Bindings(fs, d)
    ensures IsDir(fs, d)
  {
  }

  lemma {:induction false} UseBlocksOnly(s: Stat, n: int)
    ensures UseBlocks(s, n) == s.(bfree := UseBlocks(s, n).bfree, bavail := UseBlocks(s, n).bavail)
  {
  }

  /** A link count moved by n, modulo 2^64, and nothing else. */
  lemma {:induction false} LinksMean(fs: Fs, i: nat, n: int)
    requires Lawful(fs)
    ensures var g := AddLinks(fs, i, n);
            && Lawful(g) && Frame(fs, g, {})
            && (forall e: nat :: Bindings(g, e) == Bindings(fs, e))
            && forall j: nat :: Nlink(g, j) == if j == i && Live(fs, j) then Wrap(Nlink(fs, j) + n) else Nlink(fs, j)
  {
    hide Lawful, Bindings, Wrap;
    LinksLawful(fs, i, n);
    AddLinksBinds(fs, i, n);
  }

  lemma {:induction false} FrameJoins(fs: Fs, f: Fs, g: Fs, a: set<nat>, b: set<nat>)
    requires Frame(fs, f, a) && Frame(f, g, b)
    ensures Frame(fs, g, a + b)
  {
  }

  /** unlink succeeds exactly for a bound name; the directory loses that binding and the
      inode one link. */
  lemma {:induction false} UnlinkMeans(fs: Fs, p: nat, name: Name)
    requires Lawful(fs)
    ensures var (g, r), x := Unlink(fs, p, name), Leads(fs, p, name);
            && r == (if Gone(fs, p) then Error(ENOENT)
                     else if !IsDir(fs, p) then Error(ENOTDIR)
                     else if x == 0 then Error(ENOENT)
                     else Done)
            && (r.Error? ==> g == fs)
            && (r == Done ==>
                  && Bindings(g, p) == Bindings(fs, p) - {name} && OthersBound(fs, g, p)
                  && Lawful(g) && Frame(fs, g, {p})
                  && forall i: nat :: Nlink(g, i)
                                      == if i == x && Live(fs, i) then Wrap(Nlink(fs, i) - 1) else Nlink(fs, i))
  {
    hide Lawful, Bindings, RemoveChild, AddLinks, Frame, Wrap;
    if IsDir(fs, p) {
      ChildLeads(fs, p, name);
      var x := Leads(fs, p, name);
      if x != 0 {
        var f := RemoveChild(fs, p, name);
        RemoveMeans(fs, p, name);
        FrameLive(fs, f, {p});
        LinksMean(f, x, -1);
        FrameJoins(fs, f, AddLinks(f, x, -1), {p}, {});
        assert {p} + {} == {p};
      }
    }
  }

  lemma {:induction false} FrameLive(fs: Fs, g: Fs, a: set<nat>)
    requires Frame(fs, g, a)
    ensures forall i: nat :: (Live(g, i) <==> Live(fs, i)) && (IsDir(g, i) <==> IsDir(fs, i))
  {
  }

  // ----------------------------------------------------------------------- rmdir

  /** rmdir succeeds exactly for a name bound to another directory that has links and
      whose names all lead to inodes without links; the parent loses the binding and one
      link, the directory its links. */
  lemma {:induction false} RmdirMeans(fs: Fs, p: nat, name: Name)
    requires Lawful(fs)
    ensures var (g, r), x := Rmdir(fs, p, name), Leads(fs, p, name);
            && r == (if Gone(fs, p) then Error(ENOENT)
                     else if !IsDir(fs, p) then Error(ENOTDIR)
                     else if x == 0 then Error(ENOENT)
                     else if x == p then Error(EINVAL)
                     else if Gone(fs, x) then Error(ENOENT)
                     else if !IsDir(fs, x) then Error(ENOTDIR)
                     else if !NothingIn(fs, x) then Error(ENOTEMPTY)
                     else Done)
            && (r.Error? ==> g == fs)
            && (r == Done ==>
                  && Bindings(g, p) == Bindings(fs, p) - {name} && OthersBound(fs, g, p)
                  && Lawful(g) && Frame(fs, g, {p})
                  && Nlink(g, p) == Wrap(Nlink(fs, p) - 1)
                  && Nlink(g, x) == (if Positive(At(fs, x).h.nlink) then Nlink(fs, x) - Nlink(fs, x) % 0x1_0000_0000
                                     else Nlink(fs, x))
                  && (1 <= Nlink(fs, x) < 0x8000_0000 ==> Nlink(g, x) == 0)
                  && forall i: nat :: i != p && i != x ==> Nlink(g, i) == Nlink(fs, i))
  {
    hide Lawful, Bindings, RemoveChild, AddLinks, Frame, Wrap, IsEmpty, NothingIn, Drained;
    if IsDir(fs, p) {
      ChildLeads(fs, p, name);
      var x := Leads(fs, p, name);
      if IsDir(fs, x) {
        EmptyIff(fs, x);
      }
      if Rmdir(fs, p, name).1 == Done {
        var f := RemoveChild(fs, p, name);
        RemoveMeans(fs, p, name);
        FrameLive(fs, f, {p});
        LinksMean(f, p, -1);
        var f1 := AddLinks(f, p, -1);
        FrameLive(f, f1, {});
        FrameJoins(fs, f, f1, {p}, {});
        assert {p} + {} == {p};
        DrainMeans(f1, x);
        FrameJoins(fs, f1, Rmdir(fs, p, name).0, {p}, {});
      }
    }
  }

  lemma {:induction false} DrainMeans(fs: Fs, x: nat)
    requires Lawful(fs) && Live(fs, x)
    ensures var h := At(fs, x).h;
            var g := SetHead(fs, x, h.(nlink := Drained(h.nlink)));
            && Lawful(g) && Frame(fs, g, {})
            && (forall e: nat :: Bindings(g, e) == Bindings(fs, e))
            && (forall j: nat :: j != x ==> Nlink(g, j) == Nlink(fs, j))
            && Nlink(g, x) == (if Positive(h.nlink) then h.nlink - h.nlink % 0x1_0000_0000 else h.nlink)
  {
    hide Lawful;
    var h := At(fs, x).h;
    HeadLawful(fs, x, h.(nlink := Drained(h.nlink)));
    DrainedIs(h.nlink);
    hide Drained;
  }

  lemma {:induction false} DrainedIs(n: word)
    ensures Drained(n) == if Positive(n) then n - n % 0x1_0000_0000 else n
  {
    if Positive(n) {
      WrapExact(n - n % 0x1_0000_0000);
    }
  }

  // ---------------------------------------------------------------------- rename

  /** A new name in d is unbound and the blocks it adds to d are free. */
  ghost predicate Fits(fs: Fs, d: nat, name: Name)
    requires IsDir(fs, d)
  {
    && name !in Bindings(fs, d)
    && NBlocks(At(fs, d).h.size + 72 + |name|) - NBlocks(At(fs, d).h.size) <= fs.stat.bfree
  }

  lemma {:induction false} FitsIff(fs: Fs, d: nat, name: Name)
    requires Lawful(fs) && IsDir(fs, d)
    ensures Fits(fs, d, name) <==> NameFits(fs, d, name)
  {
    hide Bindings;
    ChildLeads(fs, d, name);
    assert NodeLaw(At(fs, d));
  }

  lemma {:induction false} AddMeans(fs: Fs, d: nat, name: Name, ino: nat)
    requires Lawful(fs) && IsDir(fs, d) && Fits(fs, d, name)
    ensures var g := AddChild(fs, d, name, ino).0;
            && Lawful(g) && Frame(fs, g, {d}) && OthersBound(fs, g, d)
            && Bindings(g, d) == Bindings(fs, d)[name := ino]
            && forall i: nat :: Nlink(g, i) == Nlink(fs, i)
    ensures AddChild(fs, d, name, ino).1 == OK
  {
    hide Lawful, Bindings, NBlocks, UseBlocks, Fits, NameFits, HasSpaceFor;
    FitsIff(fs, d, name);
    NameFitsIff(fs, d, name, ino);
    AddChildBinds(fs, d, name, ino);
    AddLawful(fs, d, name, ino);
    UseBlocksOnly(fs.stat, At(AddChild(fs, d, name, ino).0, d).h.blocks - At(fs, d).h.blocks);
  }

  lemma {:induction false} UpdateMeans(fs: Fs, d: nat, name: Name, ino: nat)
    requires Lawful(fs) && name in Bindings(fs, d)
    ensures var g := UpdateChild(fs, d, name, ino);
            && Lawful(g) && Frame(fs, g, {d}) && OthersBound(fs, g, d)
            && Bindings(g, d) == Bindings(fs, d)[name := ino]
            && forall i: nat :: Nlink(g, i) == Nlink(fs, i)
  {
    hide Lawful, Bindings;
    NamedInDir(fs, d, name);
    ChildLeads(fs, d, name);
    UpdateChildBinds(fs, d, name, ino);
    UpdateLawful(fs, d, name, ino);
  }

  /** The destination counts as existing. */
  ghost predicate Taken(fs: Fs, np: nat, newname: Name) {
    var dst := Leads(fs, np, newname);
    newname in Bindings(fs, np) && Live(fs, dst) && Positive(At(fs, dst).h.nlink)
  }

  lemma {:induction false} TakenIff(fs: Fs, np: nat, newname: Name)
    requires Lawful(fs) && Gone(fs, 0) && IsDir(fs, np)
    ensures Taken(fs, np, newname) <==> Occupied(fs, ChildIno(Children(fs, np), newname))
  {
    hide Lawful, Bindings;
    ChildLeads(fs, np, newname);
    var dst := Leads(fs, np, newname);
    if Live(fs, dst) {
      PositiveIff(At(fs, dst).h.nlink);
    }
  }

  /** What rename answers, each code with its cause in the order of the tests. */
  lemma {:induction false} RenameAnswers(fs: Fs, p: nat, name: Name, np: nat, newname: Name)
    requires Lawful(fs) && Gone(fs, 0)
    ensures var src, dst := Leads(fs, p, name), Leads(fs, np, newname);
            Rename(fs, p, name, np, newname).1
            == if Gone(fs, p) || Gone(fs, np) then Error(ENOENT)
               else if !IsDir(fs, p) || !IsDir(fs, np) then Error(ENOTDIR)
               else if name !in Bindings(fs, p) || Gone(fs, src) then Error(ENOENT)
               else if !Taken(fs, np, newname) then Done
               else if IsDir(fs, src) && !IsDir(fs, dst) then Error(ENOTDIR)
               else if IsDir(fs, dst) && !NothingIn(fs, dst) then Error(ENOTEMPTY)
               else if IsDir(fs, dst) && !IsDir(fs, src) then Error(EISDIR)
               else Done
  {
    hide Lawful, Bindings, Move, Replace, IsEmpty, NothingIn, Occupied, Taken, IsDirMode;
    if RenameCheck(fs, p, name, np) == OK {
      ChildLeads(fs, p, name);
      ChildLeads(fs, np, newname);
      TakenIff(fs, np, newname);
      var src, dst := Leads(fs, p, name), Leads(fs, np, newname);
      DirModes(fs, src);
      if Taken(fs, np, newname) {
        TakenLive(fs, np, newname);
        DirModes(fs, dst);
        if IsDir(fs, dst) {
          EmptyIff(fs, dst);
        }
      }
    } else if IsDir(fs, p) {
      ChildLeads(fs, p, name);
    }
  }

  lemma {:induction false} TakenLive(fs: Fs, np: nat, newname: Name)
    requires Taken(fs, np, newname)
    ensures newname in Bindings(fs, np) && Live(fs, Leads(fs, np, newname))
  {
  }

  /** What a rename that finds the destination in place does. */
  lemma {:induction false} ReplaceMeans(fs: Fs, p: nat, name: Name, np: nat, newname: Name, src: nat, dst: nat)
    requires Lawful(fs) && name in Bindings(fs, p) && newname in Bindings(fs, np) && Live(fs, dst)
    ensures var g := Replace(fs, p, name, np, newname, src, dst);
            && Lawful(g) && Frame(fs, g, {p, np})
            && Rebound(fs, g, p, name, np, newname, src)
            && forall i: nat :: Live(fs, i) ==>
                 Nlink(g, i) == Wrap(Nlink(fs, i) - (if i != dst then 0 else if IsDir(fs, dst) then 3 else 1)
                                                  - B2I(IsDir(fs, dst) && i == p))
  {
    hide Lawful, Bindings, AddLinks, UpdateChild, RemoveChild, Frame, Wrap, Rebound, IsDirMode;
    DirModes(fs, dst);
    var h0 := AddLinks(fs, dst, -1);
    var h1 := UpdateChild(h0, np, newname, src);
    var h2 := RemoveChild(h1, p, name);
    LinksMean(fs, dst, -1);
    FrameLive(fs, h0, {});
    UpdateMeans(h0, np, newname, src);
    FrameLive(h0, h1, {np});
    FrameJoins(fs, h0, h1, {}, {np});
    RemoveMeans(h1, p, name);
    FrameLive(h1, h2, {p});
    FrameJoins(fs, h1, h2, {} + {np}, {p});
    NamedInDir(fs, p, name);
    NamedInDir(fs, np, newname);
    ChildLeads(fs, p, name);
    ChildLeads(fs, np, newname);
    ReplaceBinds(fs, p, name, np, newname, src, dst);
    ModeKept(fs, h2, {} + {np} + {p}, dst);
    assert {} + {np} + {p} == {p, np};
    var h3 := AddLinks(h2, dst, -2);
    LinksMean(h2, dst, -2);
    FrameLive(h2, h3, {});
    LinksMean(h3, p, -1);
    FrameJoins(fs, h2, h3, {p, np}, {});
    FrameJoins(fs, h3, AddLinks(h3, p, -1), {p, np} + {}, {});
    assert {p, np} + {} == {p, np};
    forall i: nat | Live(fs, i)
      ensures Nlink(Replace(fs, p, name, np, newname, src, dst), i)
           == Wrap(Nlink(fs, i) - (if i != dst then 0 else if IsDir(fs, dst) then 3 else 1)
                                - B2I(IsDir(fs, dst) && i == p))
    {
      LinkSums(At(fs, i).h.nlink);
    }
  }

  lemma {:induction false} ModeKept(fs: Fs, g: Fs, a: set<nat>, i: nat)
    requires Frame(fs, g, a) && Live(fs, i)
    ensures Live(g, i) && At(g, i).h.mode == At(fs, i).h.mode
  {
  }

  /** How single decrements add up modulo 2^64. */
  lemma {:induction false} LinkSums(n: word)
    ensures Wrap(n) == n && Wrap(Wrap(n - 1) - 2) == Wrap(n - 3) && Wrap(Wrap(n - 3) - 1) == Wrap(n - 4)
    ensures Wrap(Wrap(n - 1) + 1) == n && Wrap(Wrap(Wrap(n - 1) - 2) - 1) == Wrap(n - 4)
  {
    WrapExact(n);
    WrapShift(n - 1, -2);
    WrapShift(n - 3, -1);
    WrapShift(n - 1, 1);
  }

  /** What a rename to a free name does. */
  lemma {:induction false} MoveMeans(fs: Fs, p: nat, name: Name, np: nat, newname: Name, src: nat)
    requires Lawful(fs) && name in Bindings(fs, p) && IsDir(fs, np) && Live(fs, src)
    ensures var g := Move(fs, p, name, np, newname, src);
            && Lawful(g) && Frame(fs, g, {p, np})
            && (Fits(fs, np, newname) ==> Rebound(fs, g, p, name, np, newname, src))
            && (!Fits(fs, np, newname) ==> Bindings(g, p) == Bindings(fs, p) - {name} && OthersBound(fs, g, p))
            && forall i: nat :: Live(fs, i) ==>
                 Nlink(g, i) == Wrap(Nlink(fs, i) + (if IsDir(fs, src) then B2I(i == np) - B2I(i == p) else 0))
  {
    hide Lawful, Bindings, AddLinks, AddChild, RemoveChild, Frame, Wrap, Rebound, IsDirMode, Fits, NameFits;
    DirModes(fs, src);
    NamedInDir(fs, p, name);
    ChildLeads(fs, p, name);
    FitsIff(fs, np, newname);
    NameFitsIff(fs, np, newname, src);
    MoveBinds(fs, p, name, np, newname, src);
    var f1 := AddChild(fs, np, newname, src).0;
    if Fits(fs, np, newname) {
      AddMeans(fs, np, newname, src);
    } else {
      FrameSelf(fs, {np});
    }
    FrameLive(fs, f1, {np});
    var f2 := RemoveChild(f1, p, name);
    RemoveMeans(f1, p, name);
    FrameLive(f1, f2, {p});
    FrameJoins(fs, f1, f2, {np}, {p});
    assert {np} + {p} == {p, np};
    LinksMean(f2, p, -1);
    var f3 := AddLinks(f2, p, -1);
    FrameLive(f2, f3, {});
    LinksMean(f3, np, 1);
    FrameJoins(fs, f2, f3, {p, np}, {});
    FrameJoins(fs, f3, AddLinks(f3, np, 1), {p, np} + {}, {});
    assert {p, np} + {} == {p, np};
    forall i: nat | Live(fs, i)
      ensures Nlink(Move(fs, p, name, np, newname, src), i)
           == Wrap(Nlink(fs, i) + (if IsDir(fs, src) then B2I(i == np) - B2I(i == p) else 0))
    {
      LinkSums(At(fs, i).h.nlink);
    }
  }

  lemma {:induction false} FrameSelf(fs: Fs, a: set<nat>)
    ensures Frame(fs, fs, a)
  {
  }

  /** What a successful rename does: bindings, link counts, and nothing else. */
  lemma {:induction false} RenameMeans(fs: Fs, p: nat, name: Name, np: nat, newname: Name)
    requires Lawful(fs) && Gone(fs, 0)
    ensures var (g, r), src, dst := Rename(fs, p, name, np, newname), Leads(fs, p, name), Leads(fs, np, newname);
            && (r != Done ==> g == fs)
            && (r == Done ==>
                  && IsDir(fs, np) && Lawful(g) && Frame(fs, g, {p, np})
                  && (if Taken(fs, np, newname) || Fits(fs, np, newname)
                      then Rebound(fs, g, p, name, np, newname, src)
                      else Bindings(g, p) == Bindings(fs, p) - {name} && OthersBound(fs, g, p))
                  && forall i: nat :: Live(fs, i) ==>
                       Nlink(g, i)
                       == if Taken(fs, np, newname)
                          then Wrap(Nlink(fs, i) - (if i != dst then 0 else if IsDir(fs, dst) then 3 else 1)
                                                 - B2I(IsDir(fs, dst) && i == p))
                          else Wrap(Nlink(fs, i) + (if IsDir(fs, src) then B2I(i == np) - B2I(i == p) else 0)))
  {
    hide Lawful, Bindings, Move, Replace, IsEmpty, Taken, Occupied, Fits, Rebound, Frame, Wrap, IsDirMode;
    if RenameCheck(fs, p, name, np) == OK {
      ChildLeads(fs, p, name);
      ChildLeads(fs, np, newname);
      TakenIff(fs, np, newname);
      var src, dst := Leads(fs, p, name), Leads(fs, np, newname);
      if Taken(fs, np, newname) {
        TakenLive(fs, np, newname);
        ReplaceMeans(fs, p, name, np, newname, src, dst);
      } else {
        MoveMeans(fs, p, name, np, newname, src);
      }
    }
  }

  // ------------------------------------------------------- link, forget, attributes

  /** link answers the inode exactly when it has links and the new name fits; then the
      directory gains that binding, and the inode one link and one lookup. */
  lemma {:induction false} LinkMeans(fs: Fs, ino: nat, np: nat, newname: Name)
    requires Lawful(fs)
    ensures var (g, r) := Link(fs, ino, np, newname);
            && r == (if Gone(fs, ino) || Gone(fs, np) then Error(ENOENT)
                     else if !IsDir(fs, np) then Error(ENOTDIR)
                     else if newname in Bindings(fs, np) then Error(EEXIST)
                     else if !Fits(fs, np, newname) then Error(ENOSPC)
                     else EntryOf(ino))
            && (r.Error? ==> g == fs)
            && (r == EntryOf(ino) ==>
                  && Bindings(g, np) == Bindings(fs, np)[newname := ino] && OthersBound(fs, g, np)
                  && Live(g, ino) && At(g, ino).h.nlookup == Wrap(At(fs, ino).h.nlookup + 1)
                  && (forall i: nat :: Nlink(g, i) == if i == ino then Wrap(Nlink(fs, i) + 1) else Nlink(fs, i))
                  && Lawful(g) && Frame(fs, Uncounted(fs, g, ino), {np}))
  {
    hide Lawful, Bindings, AddChild, AddLinks, AddLookups, Fits, NameFits, Frame, Wrap;
    if !Gone(fs, ino) && !Gone(fs, np) && IsDir(fs, np) {
      ChildLeads(fs, np, newname);
      FitsIff(fs, np, newname);
      NameFitsIff(fs, np, newname, ino);
      if Fits(fs, np, newname) {
        AddMeans(fs, np, newname, ino);
        FitsUnbound(fs, np, newname);
        var f := AddChild(fs, np, newname, ino).0;
        FrameLive(fs, f, {np});
        LinksMean(f, ino, 1);
        var f1 := AddLinks(f, ino, 1);
        FrameLive(f, f1, {});
        FrameJoins(fs, f, f1, {np}, {});
        assert {np} + {} == {np};
        LookupsMean(fs, f1, {np}, ino);
      } else {
        AddRefused(fs, np, newname, ino);
      }
    }
  }

  lemma {:induction false} FitsUnbound(fs: Fs, d: nat, name: Name)
    requires IsDir(fs, d) && Fits(fs, d, name)
    ensures name !in Bindings(fs, d)
  {
  }

  lemma {:induction false} AddRefused(fs: Fs, d: nat, name: Name, ino: nat)
    requires Lawful(fs) && IsDir(fs, d) && !Fits(fs, d, name)
    ensures AddChild(fs, d, name, ino) == (fs, if name in Bindings(fs, d) then EEXIST else ENOSPC)
  {
    hide Bindings, NBlocks;
    ChildLeads(fs, d, name);
    assert NodeLaw(At(fs, d));
  }

  /** The table with one inode's lookup count set back to what it was. */
  ghost function Uncounted(fs: Fs, g: Fs, i: nat): Fs {
    if Live(fs, i) && Live(g, i) then SetHead(g, i, At(g, i).h.(nlookup := At(fs, i).h.nlookup)) else g
  }

  lemma {:induction false} LookupsMean(fs: Fs, f: Fs, a: set<nat>, i: nat)
    requires Lawful(f) && Frame(fs, f, a) && Live(f, i)
    ensures var g := AddLookups(f, i, 1);
            && Lawful(g) && Frame(fs, Uncounted(fs, g, i), a)
            && Live(g, i) && At(g, i).h.nlookup == Wrap(At(fs, i).h.nlookup + 1)
            && (forall e: nat :: Bindings(g, e) == Bindings(f, e))
            && forall j: nat :: Nlink(g, j) == Nlink(f, j)
  {
    hide Lawful, Wrap, ToMap;
    LinksLawful(f, i, 1);
    var g := AddLookups(f, i, 1);
    assert Uncounted(fs, g, i).nodes == f.nodes;
  }

  /** forget takes n lookups back; an inode left without lookups and links is reclaimed,
      its number queued and its blocks and slot given back. */
  lemma {:induction false} ForgetMeans(fs: Fs, ino: nat, n: nat)
    ensures var g := Forget(fs, ino, n);
            if !Live(fs, ino) then g == fs else
            var h, s := At(fs, ino).h, fs.stat;
            && (forall i: nat :: i < |fs.nodes| && i != ino ==> i < |g.nodes| && g.nodes[i] == fs.nodes[i])
            && |g.nodes| == |fs.nodes|
            && (if h.nlink == 0 && (h.nlookup - n) % 0x1_0000_0000_0000_0000 == 0
                then && !Live(g, ino) && g.deleted == fs.deleted + [ino]
                     && g.stat == s.(ffree := Wrap(s.ffree + 1), favail := Wrap(s.favail + 1),
                                     bfree := Wrap(s.bfree + h.blocks), bavail := Wrap(s.bavail + h.blocks))
                else && Live(g, ino) && g.deleted == fs.deleted && g.stat == s
                     && At(g, ino) == At(fs, ino).(h := h.(nlookup := (h.nlookup - n) % 0x1_0000_0000_0000_0000)))
  {
  }

  /** setattr of an inode with links sets its mode and attribute bytes and nothing else. */
  lemma {:induction false} SetAttrMeans(fs: Fs, ino: nat, mode: nat, meta: seq<byte>)
    ensures var (g, r) := SetAttr(fs, ino, mode, meta);
            && r == (if Gone(fs, ino) then Error(ENOENT) else Done)
            && (r.Error? ==> g == fs)
            && (r == Done ==>
                  && Live(g, ino) && At(g, ino).h.mode == mode && At(g, ino).h.meta == meta
                  && At(g, ino).(h := At(g, ino).h.(mode := At(fs, ino).h.mode, meta := At(fs, ino).h.meta))
                     == At(fs, ino)
                  && g == fs.(nodes := g.nodes) && |g.nodes| == |fs.nodes|
                  && forall i: nat :: i < |fs.nodes| && i != ino ==> g.nodes[i] == fs.nodes[i])
  {
  }
}
