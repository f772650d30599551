/** Counting who names whom, and what one edit of a directory changes. */
module Graph {
  import opened Base
  import opened Model

  // ------------------------------------------------------------------ weights

  function B2I(b: bool): int { if b then 1 else 0 }

  /** Counts the non-dot entries naming x. */
  function NamesW(x: nat): Entry -> int {
    (e: Entry) => B2I(!Dot(e.name) && e.ino == x)
  }

  /** Counts the non-dot entries naming a directory of fs. */
  function SubdirW(fs: Fs): Entry -> int {
    (e: Entry) => B2I(!Dot(e.name) && IsDir(fs, e.ino))
  }

  function NonDotW(): Entry -> int {
    (e: Entry) => B2I(!Dot(e.name))
  }

  function CostW(): Entry -> int {
    (e: Entry) => Cost(e.name)
  }

  ghost function HolderW(x: nat): Option<Node> -> int {
    (o: Option<Node>) => if o.Some? && o.value.body.DirBody? then Sum(o.value.body.children, NamesW(x)) else 0
  }

  /** Non-dot entries of directory p naming x. */
  ghost function In(fs: Fs, p: nat, x: nat): int {
    if p < |fs.nodes| then HolderW(x)(fs.nodes[p]) else 0
  }

  /** Non-dot entries naming x in all live directories. */
  ghost function LinksTo(fs: Fs, x: nat): int {
    Sum(fs.nodes, HolderW(x))
  }

  /** Subdirectory entries of directory i. */
  ghost function Subdirs(fs: Fs, i: nat): int {
    if IsDir(fs, i) then Sum(Children(fs, i), SubdirW(fs)) else 0
  }

  ghost function NonDots(fs: Fs, i: nat): int {
    if IsDir(fs, i) then Sum(Children(fs, i), NonDotW()) else 0
  }

  // ------------------------------------------------------------- basic facts

  lemma {:induction false} InBounds(fs: Fs, p: nat, x: nat)
    ensures 0 <= In(fs, p, x) <= LinksTo(fs, x)
    ensures In(fs, p, x) > 0 ==> IsDir(fs, p)
  {
    forall i | 0 <= i < |fs.nodes| ensures HolderW(x)(fs.nodes[i]) >= 0 {
      if fs.nodes[i].Some? && fs.nodes[i].value.body.DirBody? {
        SumBounds(fs.nodes[i].value.body.children, NamesW(x));
      }
    }
    SumBounds(fs.nodes, HolderW(x));
  }

  /** An entry counts. */
  lemma {:induction false} EntryCounts(fs: Fs, p: nat, k: nat)
    requires IsDir(fs, p) && k < |Children(fs, p)| && !Dot(Children(fs, p)[k].name)
    ensures In(fs, p, Children(fs, p)[k].ino) > 0
    ensures LinksTo(fs, Children(fs, p)[k].ino) > 0
  {
    var x := Children(fs, p)[k].ino;
    SumBounds(Children(fs, p), NamesW(x));
    assert NamesW(x)(Children(fs, p)[k]) == 1;
    InBounds(fs, p, x);
  }

  /** Two different directories naming x make two names. */
  lemma {:induction false} TwoHolders(fs: Fs, p: nat, q: nat, x: nat)
    requires p != q && In(fs, p, x) > 0 && In(fs, q, x) > 0
    ensures LinksTo(fs, x) >= 2
  {
    var a, b := if p < q then p else q, if p < q then q else p;
    InBounds(fs, a, x);
    InBounds(fs, b, x);
    var cut := fs.(nodes := fs.nodes[a := None]);
    SumUpdate(fs.nodes, a, None, HolderW(x));
    InBounds(cut, b, x);
  }

  lemma {:induction false} NoEntries(fs: Fs, i: nat)
    requires NonDots(fs, i) == 0
    ensures Subdirs(fs, i) == 0
    ensures forall x :: In(fs, i, x) == 0
    ensures IsDir(fs, i) ==> forall k :: 0 <= k < |Children(fs, i)| ==> Dot(Children(fs, i)[k].name)
  {
    if IsDir(fs, i) {
      var es := Children(fs, i);
      SumBounds(es, NonDotW());
      forall k | 0 <= k < |es| ensures Dot(es[k].name) {
        assert NonDotW()(es[k]) <= 0;
      }
      AllDots(fs, i);
    }
  }

  lemma {:induction false} AllDots(fs: Fs, i: nat)
    requires IsDir(fs, i)
    requires forall k :: 0 <= k < |Children(fs, i)| ==> Dot(Children(fs, i)[k].name)
    ensures NonDots(fs, i) == 0 && Subdirs(fs, i) == 0
    ensures forall x :: In(fs, i, x) == 0
  {
    var es := Children(fs, i);
    var zero := (e: Entry) => 0;
    SumOfZero(es);
    SumSame(es, NonDotW(), zero);
    SumSame(es, SubdirW(fs), zero);
    forall x ensures In(fs, i, x) == 0 {
      if x >= 0 {
        SumSame(es, NamesW(x), (e: Entry) => 0);
        SumOfZero(es);
      }
    }
  }

  lemma {:induction false} SumOfZero(es: seq<Entry>)
    ensures Sum(es, (e: Entry) => 0) == 0
  {
    if es != [] {
      SumOfZero(es[..|es| - 1]);
    }
  }

  // ------------------------------------------------------------ edits of a vector

  /** es' is es after adding, removing or replacing one entry. */
  ghost predicate Edit(es: seq<Entry>, es': seq<Entry>, off: Option<Entry>, on: Option<Entry>) {
    match (off, on)
    case (None, None) => es' == es
    case (None, Some(e)) => es' == es + [e]
    case (Some(e), None) => exists k :: 0 <= k < |es| && es[k] == e && es' == es[..k] + es[k + 1..]
    case (Some(e), Some(e')) => exists k :: 0 <= k < |es| && es[k] == e && es' == es[k := e']
  }

  function Weight(o: Option<Entry>, f: Entry -> int): int {
    if o.Some? then f(o.value) else 0
  }

  lemma {:induction false} EditSum(es: seq<Entry>, es': seq<Entry>, off: Option<Entry>, on: Option<Entry>,
                                   f: Entry -> int)
    requires Edit(es, es', off, on)
    ensures Sum(es', f) == Sum(es, f) - Weight(off, f) + Weight(on, f)
  {
    match (off, on)
    case (None, None) =>
    case (None, Some(e)) =>
      SumAppend(es, e, f);
    case (Some(e), None) =>
      var k :| 0 <= k < |es| && es[k] == e && es' == es[..k] + es[k + 1..];
      SumRemove(es, k, f);
    case (Some(e), Some(e')) =>
      var k :| 0 <= k < |es| && es[k] == e && es' == es[k := e'];
      SumUpdate(es, k, e', f);
  }

  predicate Hits(o: Option<Entry>, x: nat) {
    o.Some? && !Dot(o.value.name) && o.value.ino == x
  }

  predicate HitsDir(fs: Fs, o: Option<Entry>) {
    o.Some? && !Dot(o.value.name) && IsDir(fs, o.value.ino)
  }

  /** g is fs with one entry of directory d taken off and one put on. */
  ghost predicate Edited(fs: Fs, g: Fs, d: nat, off: Option<Entry>, on: Option<Entry>) {
    && IsDir(fs, d)
    && IsDir(g, d)
    && g.nodes == fs.nodes[d := g.nodes[d]]
    && At(g, d).h == At(fs, d).h.(size := At(g, d).h.size, blocks := At(g, d).h.blocks)
    && Edit(Children(fs, d), Children(g, d), off, on)
  }

  /** How every count responds to one edit of directory d. */
  ghost predicate Recount(fs: Fs, g: Fs, d: nat, off: Option<Entry>, on: Option<Entry>) {
    && (forall x: nat :: LinksTo(g, x) == LinksTo(fs, x) - B2I(Hits(off, x)) + B2I(Hits(on, x)))
    && (forall p: nat, x: nat :: In(g, p, x) == In(fs, p, x) - B2I(p == d && Hits(off, x)) + B2I(p == d && Hits(on, x)))
    && (forall i: nat :: Subdirs(g, i)
                         == Subdirs(fs, i) - B2I(i == d && HitsDir(fs, off)) + B2I(i == d && HitsDir(fs, on)))
    && (forall i: nat :: i != d ==> NonDots(g, i) == NonDots(fs, i))
  }

  lemma {:induction false} EditEffect(fs: Fs, g: Fs, d: nat, off: Option<Entry>, on: Option<Entry>)
    requires Edited(fs, g, d, off, on)
    ensures Recount(fs, g, d, off, on)
  {
    var es, es' := Children(fs, d), Children(g, d);
    forall x: nat
      ensures LinksTo(g, x) == LinksTo(fs, x) - B2I(Hits(off, x)) + B2I(Hits(on, x))
      ensures In(g, d, x) == In(fs, d, x) - B2I(Hits(off, x)) + B2I(Hits(on, x))
    {
      SumUpdate(fs.nodes, d, g.nodes[d], HolderW(x));
      EditSum(es, es', off, on, NamesW(x));
    }
    forall i: nat
      ensures Subdirs(g, i) == Subdirs(fs, i) - B2I(i == d && HitsDir(fs, off)) + B2I(i == d && HitsDir(fs, on))
    {
      if IsDir(g, i) {
        SumSame(Children(g, i), SubdirW(g), SubdirW(fs));
        if i == d {
          EditSum(es, es', off, on, SubdirW(fs));
        }
      }
    }
  }

  /** g differs from fs only in heads and file contents: no count changes. */
  ghost predicate SameGraph(fs: Fs, g: Fs) {
    && |g.nodes| == |fs.nodes|
    && (forall i: nat :: Live(g, i) <==> Live(fs, i))
    && (forall i: nat :: IsDir(g, i) <==> IsDir(fs, i))
    && (forall i: nat :: IsDir(fs, i) ==> Children(g, i) == Children(fs, i))
  }

  lemma {:induction false} SameGraphCounts(fs: Fs, g: Fs)
    requires SameGraph(fs, g)
    ensures forall x :: LinksTo(g, x) == LinksTo(fs, x)
    ensures forall p, x :: In(g, p, x) == In(fs, p, x)
    ensures forall i :: Subdirs(g, i) == Subdirs(fs, i)
    ensures forall i :: NonDots(g, i) == NonDots(fs, i)
  {
    forall x: nat, p: nat ensures In(g, p, x) == In(fs, p, x) {
      if p < |fs.nodes| {
        assert IsDir(g, p) <==> IsDir(fs, p);
      }
    }
    forall x: nat ensures LinksTo(g, x) == LinksTo(fs, x) {
      forall i: nat | i < |fs.nodes| ensures HolderW(x)(g.nodes[i]) == HolderW(x)(fs.nodes[i]) {
        assert In(g, i, x) == In(fs, i, x);
      }
      SumPointwise(g.nodes, fs.nodes, HolderW(x));
    }
    forall i: nat ensures Subdirs(g, i) == Subdirs(fs, i) {
      if IsDir(fs, i) {
        SumSame(Children(fs, i), SubdirW(g), SubdirW(fs));
      }
    }
  }

  /** An edit followed by changes of heads only. */
  lemma {:induction false} EditThenTouch(fs: Fs, f: Fs, g: Fs, d: nat, off: Option<Entry>, on: Option<Entry>)
    requires Edited(fs, f, d, off, on) && SameGraph(f, g)
    ensures Recount(fs, g, d, off, on)
  {
    EditEffect(fs, f, d, off, on);
    SameGraphCounts(f, g);
    hide LinksTo, In, Subdirs, NonDots;
  }

  lemma {:induction false} SumPointwise(s: seq<Option<Node>>, t: seq<Option<Node>>, f: Option<Node> -> int)
    requires |s| == |t|
    requires forall i :: 0 <= i < |s| ==> f(s[i]) == f(t[i])
    ensures Sum(s, f) == Sum(t, f)
  {
    if s != [] {
      SumPointwise(s[..|s| - 1], t[..|t| - 1], f);
    }
  }

  /** A slot that no entry names and that holds no non-dot entry can be filled
      or cleared without moving any count. */
  lemma {:induction false} SlotEffect(fs: Fs, g: Fs, i: nat, v: Option<Node>)
    requires g.nodes == PutSlot(fs.nodes, i, v) && i <= |fs.nodes|
    requires LinksTo(fs, i) == 0
    requires NonDots(fs, i) == 0 && NonDots(g, i) == 0
    ensures forall x :: LinksTo(g, x) == LinksTo(fs, x)
    ensures forall p, x :: In(g, p, x) == In(fs, p, x)
    ensures forall d :: Subdirs(g, d) == Subdirs(fs, d)
    ensures forall d :: NonDots(g, d) == NonDots(fs, d)
  {
    NoEntries(fs, i);
    NoEntries(g, i);
    forall x: nat
      ensures LinksTo(g, x) == LinksTo(fs, x)
      ensures forall p :: In(g, p, x) == In(fs, p, x)
    {
      assert In(fs, i, x) == 0 && In(g, i, x) == 0;
      if i < |fs.nodes| {
        SumUpdate(fs.nodes, i, g.nodes[i], HolderW(x));
      } else {
        SumAppend(fs.nodes, g.nodes[i], HolderW(x));
      }
    }
    forall d: nat ensures Subdirs(g, d) == Subdirs(fs, d) {
      if d != i && IsDir(fs, d) {
        forall k | 0 <= k < |Children(fs, d)|
          ensures SubdirW(g)(Children(fs, d)[k]) == SubdirW(fs)(Children(fs, d)[k])
        {
          if !Dot(Children(fs, d)[k].name) {
            EntryCounts(fs, d, k);
          }
        }
        SumSame(Children(fs, d), SubdirW(g), SubdirW(fs));
      }
    }
  }
}
