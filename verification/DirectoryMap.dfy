/** The entry vector refines a finite map, and rename one update of it. */
module DirectoryMap {
  import opened Base
  import opened Model
  import opened Graph
  import opened Invariant
  import opened RenameProofs
  import opened Laws

  /** The name-to-number map of an entry vector; later entries win. */
  ghost function ToMap(es: seq<Entry>): map<Name, nat> {
    if es == [] then map[]
    else ToMap(es[..|es| - 1])[es[|es| - 1].name := es[|es| - 1].ino]
  }

  /** With unique names the map holds exactly the entries. */
  lemma {:induction false} MapHoldsEntries(es: seq<Entry>)
    requires UniqueNames(es)
    ensures forall k :: 0 <= k < |es| ==> es[k].name in ToMap(es) && ToMap(es)[es[k].name] == es[k].ino
    ensures forall name :: name in ToMap(es) <==> Find(es, name) < |es|
  {
    hide Find;
    if es != [] {
      var front := es[..|es| - 1];
      MapHoldsEntries(front);
      forall name ensures name in ToMap(es) <==> Find(es, name) < |es| {
        FindFront(es, name);
      }
    }
  }

  lemma {:induction false} FindFront(es: seq<Entry>, name: Name)
    requires es != []
    ensures Find(es, name) < |es| <==>
              es[|es| - 1].name == name || Find(es[..|es| - 1], name) < |es| - 1
  {
    var front := es[..|es| - 1];
    if Find(front, name) < |front| {
      assert es[Find(front, name)].name == name;
    }
    if Find(es, name) < |front| {
      assert front[Find(es, name)].name == name;
    }
    assert es[|es| - 1].name == name ==> Find(es, name) < |es|;
  }

  /** Lookup agrees with the map; 0 stands for an unbound name. */
  lemma {:induction false} LookupIsMap(es: seq<Entry>, name: Name)
    requires UniqueNames(es)
    ensures ChildIno(es, name) == if name in ToMap(es) then ToMap(es)[name] else 0
  {
    MapHoldsEntries(es);
  }

  lemma {:induction false} AddIsMap(es: seq<Entry>, name: Name, ino: nat)
    ensures ToMap(es + [Entry(name, ino)]) == ToMap(es)[name := ino]
  {
  }

  /** A map with exactly the entries of the vector is its map. */
  lemma {:induction false} MapByEntries(es: seq<Entry>, m: map<Name, nat>)
    requires UniqueNames(es)
    requires forall k :: 0 <= k < |es| ==> es[k].name in m && m[es[k].name] == es[k].ino
    requires forall n :: n in m ==> Find(es, n) < |es|
    ensures ToMap(es) == m
  {
    MapHoldsEntries(es);
    forall n | n in ToMap(es) ensures n in m && m[n] == ToMap(es)[n] {
      assert es[Find(es, n)].name == n;
    }
  }

  lemma {:induction false} UpdateIsMap(es: seq<Entry>, name: Name, ino: nat)
    requires UniqueNames(es) && Find(es, name) < |es|
    ensures ToMap(es[Find(es, name) := Entry(name, ino)]) == ToMap(es)[name := ino]
  {
    var k := Find(es, name);
    var es' := es[k := Entry(name, ino)];
    MapHoldsEntries(es);
    hide ToMap;
    forall n | n in ToMap(es)[name := ino] ensures Find(es', n) < |es'| {
      assert es'[if n == name then k else Find(es, n)].name == n;
    }
    MapByEntries(es', ToMap(es)[name := ino]);
  }

  function Without(es: seq<Entry>, k: nat): (r: seq<Entry>)
    requires k < |es|
    ensures |r| == |es| - 1
    ensures forall j :: 0 <= j < |r| ==> r[j] == es[if j < k then j else j + 1]
  {
    es[..k] + es[k + 1..]
  }

  lemma {:induction false} RemoveIsMap(es: seq<Entry>, name: Name)
    requires UniqueNames(es) && Find(es, name) < |es|
    ensures ToMap(es[..Find(es, name)] + es[Find(es, name) + 1..]) == ToMap(es) - {name}
  {
    hide Find, ToMap;
    var k, m := Find(es, name), ToMap(es);
    var es' := Without(es, k);
    MapHoldsEntries(es);
    WithoutUnique(es, k);
    forall n | n in m - {name} ensures Find(es', n) < |es'| {
      WithoutFinds(es, k, n);
    }
    MapByEntries(es', m - {name});
  }

  lemma {:induction false} WithoutUnique(es: seq<Entry>, k: nat)
    requires UniqueNames(es) && k < |es|
    ensures UniqueNames(Without(es, k))
    ensures forall j :: 0 <= j < |es| - 1 ==> Without(es, k)[j].name != es[k].name
  {
  }

  lemma {:induction false} WithoutFinds(es: seq<Entry>, k: nat, n: Name)
    requires k < |es| && n != es[k].name && Find(es, n) < |es|
    ensures Find(Without(es, k), n) < |es| - 1
  {
    var j := Find(es, n);
    assert Without(es, k)[if j < k then j else j - 1] == es[j];
  }

  // ------------------------------------------------------------ in the whole table

  /** The bindings of directory d; no bindings for anything else. */
  ghost function Bindings(fs: Fs, d: nat): map<Name, nat> {
    if IsDir(fs, d) then ToMap(Children(fs, d)) else map[]
  }

  /** _AddChild adds one binding when the name is unbound and there is space, and
      changes no binding otherwise. */
  lemma {:induction false} AddChildBinds(fs: Fs, d: nat, name: Name, ino: nat)
    requires Lawful(fs) && IsDir(fs, d)
    ensures var (g, ret), h := AddChild(fs, d, name, ino), At(fs, d).h;
            && (ret == EEXIST <==> name in Bindings(fs, d))
            && (ret == OK <==> name !in Bindings(fs, d) && HasSpaceFor(fs.stat, h.blocks, h.size, Cost(name)))
            && forall e: nat :: Bindings(g, e) == if e == d && ret == OK then Bindings(fs, d)[name := ino]
                                                  else Bindings(fs, e)
  {
    hide ToMap, HasSpaceFor, UseBlocks, NBlocks, TypeBits, DirSize;
    assert NodeLaw(At(fs, d));
    MapHoldsEntries(Children(fs, d));
    AddIsMap(Children(fs, d), name, ino);
  }

  lemma {:induction false} UpdateChildBinds(fs: Fs, d: nat, name: Name, ino: nat)
    requires Lawful(fs) && IsDir(fs, d) && Find(Children(fs, d), name) < |Children(fs, d)|
    ensures var g := UpdateChild(fs, d, name, ino);
            forall e: nat :: Bindings(g, e) == if e == d then Bindings(fs, d)[name := ino] else Bindings(fs, e)
  {
    assert NodeLaw(At(fs, d));
    UpdateIsMap(Children(fs, d), name, ino);
  }

  lemma {:induction false} RemoveChildBinds(fs: Fs, d: nat, name: Name)
    requires Lawful(fs) && IsDir(fs, d) && Find(Children(fs, d), name) < |Children(fs, d)|
    ensures var g := RemoveChild(fs, d, name);
            forall e: nat :: Bindings(g, e) == if e == d then Bindings(fs, d) - {name} else Bindings(fs, e)
  {
    assert NodeLaw(At(fs, d));
    RemoveIsMap(Children(fs, d), name);
  }

  lemma {:induction false} AddLinksBinds(fs: Fs, i: nat, n: int)
    ensures forall e: nat :: Bindings(AddLinks(fs, i, n), e) == Bindings(fs, e)
  {
  }

  // ------------------------------------------------------------- rename, as a map

  /** What rename means: newname is bound to the source, the old name is dropped,
      and no other binding of any directory changes. */
  ghost predicate Rebound(fs: Fs, g: Fs, p: nat, name: Name, np: nat, newname: Name, src: nat) {
    forall d: nat ::
      Bindings(g, d) == (var m := if d == np then Bindings(fs, d)[newname := src] else Bindings(fs, d);
                         if d == p then m - {name} else m)
  }

  lemma {:induction false} MoveBinds(fs: Fs, p: nat, name: Name, np: nat, newname: Name, src: nat)
    requires Lawful(fs) && IsDir(fs, p) && IsDir(fs, np) && Live(fs, src)
    requires Find(Children(fs, p), name) < |Children(fs, p)|
    ensures AddChild(fs, np, newname, src).1 == OK ==>
              Rebound(fs, Move(fs, p, name, np, newname, src), p, name, np, newname, src)
    ensures AddChild(fs, np, newname, src).1 != OK ==>
              forall d: nat :: Bindings(Move(fs, p, name, np, newname, src), d)
                               == if d == p then Bindings(fs, d) - {name} else Bindings(fs, d)
  {
    hide Lawful, Bindings;
    var (f, ret) := AddChild(fs, np, newname, src);
    AddLawful(fs, np, newname, src);
    if ret == OK {
      AddChildBinds(fs, np, newname, src);
      FindSame(Children(fs, p), Children(f, p), name);
    }
    RemoveChildBinds(f, p, name);
    var f2 := RemoveChild(f, p, name);
    AddLinksBinds(f2, p, -1);
    AddLinksBinds(AddLinks(f2, p, -1), np, 1);
  }

  lemma {:induction false} ReplaceBinds(fs: Fs, p: nat, name: Name, np: nat, newname: Name, src: nat, dst: nat)
    requires Lawful(fs) && IsDir(fs, p) && IsDir(fs, np) && Live(fs, dst)
    requires Find(Children(fs, p), name) < |Children(fs, p)|
    requires Find(Children(fs, np), newname) < |Children(fs, np)|
    ensures Rebound(fs, Replace(fs, p, name, np, newname, src, dst), p, name, np, newname, src)
  {
    hide Lawful, Bindings, Wrap;
    var f0 := AddLinks(fs, dst, -1);
    LinksLawful(fs, dst, -1);
    AddLinksBinds(fs, dst, -1);
    var f1 := UpdateChild(f0, np, newname, src);
    UpdateChildBinds(f0, np, newname, src);
    UpdateLawful(f0, np, newname, src);
    FindSame(Children(fs, p), Children(f1, p), name);
    var f2 := RemoveChild(f1, p, name);
    RemoveChildBinds(f1, p, name);
    AddLinksBinds(f2, dst, -2);
    AddLinksBinds(AddLinks(f2, dst, -2), p, -1);
  }

  /** A rename that answers success is one map update exactly when the new name can be
      added, or leads to the source already; otherwise the source loses its name and
      gets no new one.  A rename that answers an error changes nothing.  This asks
      nothing of slots, links, tree or the request, only that inodes obey their laws
      and number 0 is not in use. */
  lemma {:induction false} RenameMeaning(fs: Fs, p: nat, name: Name, np: nat, newname: Name)
    requires Lawful(fs) && Gone(fs, 0)
    ensures var (g, r) := Rename(fs, p, name, np, newname);
            && (r.Error? ==> g == fs)
            && (r == Done ==>
                  var src, dst := ChildIno(Children(fs, p), name), ChildIno(Children(fs, np), newname);
                  Rebound(fs, g, p, name, np, newname, src) <==>
                    RenameFits(fs, p, name, np, newname) || src == dst)
  {
    hide Lawful, Bindings, Move, Replace, AddChild, NameFits;
    var (g, r) := Rename(fs, p, name, np, newname);
    if r == Done {
      var src, dst := ChildIno(Children(fs, p), name), ChildIno(Children(fs, np), newname);
      NameFitsIff(fs, np, newname, src);
      assert Find(Children(fs, p), name) < |Children(fs, p)|;
      if Occupied(fs, dst) {
        assert Find(Children(fs, np), newname) < |Children(fs, np)|;
        ReplaceBinds(fs, p, name, np, newname, src, dst);
      } else {
        MoveBinds(fs, p, name, np, newname, src);
        if AddChild(fs, np, newname, src).1 != OK {
          OnlyDropped(fs, g, p, name, np, newname);
        }
      }
    }
  }

  /** With only the old name dropped, newname is bound to the source only if it was. */
  lemma {:induction false} OnlyDropped(fs: Fs, g: Fs, p: nat, name: Name, np: nat, newname: Name)
    requires Lawful(fs) && IsDir(fs, p) && IsDir(fs, np) && ChildIno(Children(fs, p), name) != 0
    requires forall d: nat :: Bindings(g, d) == if d == p then Bindings(fs, d) - {name} else Bindings(fs, d)
    ensures var src, dst := ChildIno(Children(fs, p), name), ChildIno(Children(fs, np), newname);
            Rebound(fs, g, p, name, np, newname, src) <==> src == dst
  {
    var src, dst := ChildIno(Children(fs, p), name), ChildIno(Children(fs, np), newname);
    assert NodeLaw(At(fs, p)) && NodeLaw(At(fs, np));
    LookupIsMap(Children(fs, p), name);
    LookupIsMap(Children(fs, np), newname);
    hide ToMap, ChildIno, Lawful;
    var m := Bindings(fs, np)[newname := src];
    if src == dst {
      assert m == Bindings(fs, np);
    } else {
      assert p == np ==> name != newname;
      assert newname in Bindings(g, np) ==> Bindings(g, np)[newname] != src;
      assert newname in m && m[newname] == src;
      assert Bindings(g, np) != if np == p then m - {name} else m;
    }
  }
}
