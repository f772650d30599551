/** Directory listings: one reply at a time, resumed through a cookie. */
module ReadDir {
  import opened Base
  import opened Model
  import Names

  /** Bytes fuse_add_direntry needs: 24 bytes of header and the name, 8-aligned. */
  function DirentSize(name: Name): nat {
    (24 + |name| + 7) / 8 * 8
  }

  /** What stays fixed during a listing: the copied entries, which inodes are
      undeleted, and the room for one reply. */
  datatype Setting = Setting(es: seq<Entry>, alive: nat -> bool, cap: nat)
  {
    predicate Shown(i: nat)
      requires i < |es|
    {
      alive(es[i].ino)
    }

    function Size(i: nat): nat
      requires i < |es|
    {
      DirentSize(es[i].name)
    }

    /** The undeleted entries of a range, in order. */
    function ShownIn(lo: nat, hi: nat): (r: seq<nat>)
      requires lo <= hi <= |es|
      ensures forall x :: x in r <==> lo <= x < hi && Shown(x)
      decreases hi - lo
    {
      if lo == hi then [] else (if Shown(lo) then [lo] else []) + ShownIn(lo + 1, hi)
    }

    /** Any undeleted entry, and any two that are adjacent, fit one reply. */
    ghost predicate PairsFit() {
      && (forall i: nat :: i < |es| && Shown(i) ==> Size(i) <= cap)
      && (forall i: nat :: i + 1 < |es| && Shown(i) && Shown(i + 1) ==> Size(i) + Size(i + 1) <= cap)
    }
  }

  /** One reply: the indices sent, where the next reply starts, and whether it was
      cut because the buffer was full. */
  datatype Filled = Filled(sent: seq<nat>, next: int, cut: bool)

  /** The loop of FuseReadDir from entry i, with `used` bytes and `count` entries
      so far.  On a full buffer the iterator is stepped back. */
  function Fill(s: Setting, i: nat, used: nat, count: nat): Filled
    requires i <= |s.es|
    decreases |s.es| - i
  {
    if count >= 255 || i == |s.es| then Filled([], i, false)
    else if !s.Shown(i) then Fill(s, i + 1, used, count)
    else if used + s.Size(i) > s.cap then Filled([], i - 1, true)
    else var f := Fill(s, i + 1, used + s.Size(i), count + 1); Filled([i] + f.sent, f.next, f.cut)
  }

  function ReplyFrom(s: Setting, i: nat): Filled
    requires i <= |s.es|
  {
    Fill(s, i, 0, 0)
  }

  function After(sent: seq<nat>, f: Filled): Filled {
    f.(sent := sent + f.sent)
  }

  /** One turn of the loop, after `sent` has been sent. */
  lemma {:induction false} FillTurn(s: Setting, i: nat, used: nat, count: nat, sent: seq<nat>)
    requires i <= |s.es|
    ensures After([], Fill(s, i, used, count)) == Fill(s, i, used, count)
    ensures After(sent, Fill(s, i, used, count))
         == if count >= 255 || i == |s.es| then Filled(sent, i, false)
            else if !s.Shown(i) then After(sent, Fill(s, i + 1, used, count))
            else if used + s.Size(i) > s.cap then Filled(sent, i - 1, true)
            else After(sent + [i], Fill(s, i + 1, used + s.Size(i), count + 1))
  {
    if count < 255 && i < |s.es| && s.Shown(i) {
      var f := Fill(s, i + 1, used + s.Size(i), count + 1);
      assert sent + ([i] + f.sent) == sent + [i] + f.sent;
    }
  }

  /** Where the scanned range of a reply ends. */
  function End(f: Filled): int {
    if f.cut then f.next + 1 else f.next
  }

  /** A reply holds exactly the undeleted entries between its start and its end. */
  lemma {:induction false} FillShows(s: Setting, i: nat, used: nat, count: nat)
    requires i <= |s.es|
    ensures var f := Fill(s, i, used, count);
            i <= End(f) <= |s.es| && f.sent == s.ShownIn(i, End(f))
    ensures var f := Fill(s, i, used, count);
            f.cut ==> End(f) < |s.es| && s.Shown(End(f))
    ensures var f := Fill(s, i, used, count);
            f.sent == [] && count < 255 ==>
              if f.cut then used + s.Size(End(f)) > s.cap else End(f) == |s.es|
    decreases |s.es| - i
  {
    if count < 255 && i < |s.es| {
      if !s.Shown(i) {
        FillShows(s, i + 1, used, count);
      } else if used + s.Size(i) <= s.cap {
        FillShows(s, i + 1, used + s.Size(i), count + 1);
      }
    }
  }

  /** The three ways a reply from entry i ends up where it began or before: the entry
      does not fit alone, not with its successor, or only its successor is shown and
      does not fit alone. */
  predicate NoRoom(s: Setting, i: nat)
    requires i < |s.es|
  {
    if s.Shown(i) then
      s.Size(i) > s.cap || (i + 1 < |s.es| && s.Shown(i + 1) && s.Size(i) + s.Size(i + 1) > s.cap)
    else
      i + 1 < |s.es| && s.Shown(i + 1) && s.Size(i + 1) > s.cap
  }

  /** The loop stops before where it stands exactly when its first entry is cut. */
  lemma {:induction false} CutAtOnce(s: Setting, i: nat, used: nat, count: nat)
    requires i <= |s.es| && count < 255
    ensures Fill(s, i, used, count).next < i <==> i < |s.es| && s.Shown(i) && used + s.Size(i) > s.cap
  {
    if i < |s.es| {
      if !s.Shown(i) {
        FillShows(s, i + 1, used, count);
      } else if used + s.Size(i) <= s.cap {
        FillShows(s, i + 1, used + s.Size(i), count + 1);
      }
    }
  }

  /** The next reply starts further on exactly when there is room. */
  lemma {:induction false} Progress(s: Setting, i: nat)
    requires i < |s.es|
    ensures ReplyFrom(s, i).next > i <==> !NoRoom(s, i)
  {
    hide Setting.ShownIn;
    if !s.Shown(i) {
      CutAtOnce(s, i + 1, 0, 0);
    } else if s.Size(i) <= s.cap {
      CutAtOnce(s, i + 1, s.Size(i), 1);
    }
  }

  /** Without room for a pair the same reply is sent for ever: the listing never ends. */
  lemma {:induction false} Stuck(s: Setting, i: nat)
    requires i + 1 < |s.es| && s.Shown(i) && s.Shown(i + 1)
    requires s.Size(i) <= s.cap < s.Size(i) + s.Size(i + 1)
    ensures ReplyFrom(s, i) == Filled([i], i, true)
  {
    assert Fill(s, i + 1, s.Size(i), 1) == Filled([], i, true);
  }

  // ------------------------------------------------- when a listing gets to its end

  /** Where the context stands after n requests; -1 if it was stepped back from its
      first entry, which the source leaves undefined. */
  function Position(s: Setting, n: nat): int {
    if n == 0 then 0 else
    var i := Position(s, n - 1);
    if 0 <= i < |s.es| then ReplyFrom(s, i).next else i
  }

  ghost predicate Completes(s: Setting) {
    exists n: nat :: Position(s, n) == |s.es|
  }

  /** No entry a request starts from is without room. */
  ghost predicate NeverCramped(s: Setting) {
    forall n: nat :: 0 <= Position(s, n) < |s.es| ==> !NoRoom(s, Position(s, n))
  }

  lemma {:induction false} Advances(s: Setting, n: nat)
    requires NeverCramped(s)
    ensures 0 <= Position(s, n) <= |s.es| && (Position(s, n) < |s.es| ==> n <= Position(s, n))
  {
    if n > 0 {
      Advances(s, n - 1);
      var i := Position(s, n - 1);
      if i < |s.es| {
        Progress(s, i);
        FillShows(s, i, 0, 0);
      }
    }
  }

  /** An entry too large for any buffer is never passed. */
  lemma {:induction false} FillBlocked(s: Setting, i: nat, used: nat, count: nat, j: nat)
    requires i <= j < |s.es| && s.Shown(j) && s.Size(j) > s.cap
    ensures Fill(s, i, used, count).next <= j
    decreases j - i
  {
    if i < j && count < 255 {
      if !s.Shown(i) {
        FillBlocked(s, i + 1, used, count, j);
      } else if used + s.Size(i) <= s.cap {
        FillBlocked(s, i + 1, used + s.Size(i), count + 1, j);
      }
    }
  }

  lemma {:induction false} EndStays(s: Setting, n: nat, m: nat)
    requires n <= m && Position(s, n) == |s.es|
    ensures Position(s, m) == |s.es|
    decreases m - n
  {
    if n < m {
      EndStays(s, n + 1, m);
    }
  }

  /** From a start without room the listing never gets past the entry in the way. */
  lemma {:induction false} CrampedStays(s: Setting, m: nat, n: nat)
    requires m <= n && 0 <= Position(s, m) < |s.es| && NoRoom(s, Position(s, m))
    ensures Position(s, n) < |s.es|
  {
    var i := Position(s, m);
    if s.Shown(i) && s.Size(i) <= s.cap {
      RepeatsForever(s, m, n);
    } else {
      BlockedStays(s, m, n, if s.Shown(i) then i else i + 1);
    }
  }

  lemma {:induction false} RepeatsForever(s: Setting, m: nat, n: nat)
    requires m <= n && 0 <= Position(s, m) < |s.es|
    requires var i := Position(s, m); NoRoom(s, i) && s.Shown(i) && s.Size(i) <= s.cap
    ensures Position(s, n) == Position(s, m)
    decreases n
  {
    if m < n {
      RepeatsForever(s, m, n - 1);
      Stuck(s, Position(s, m));
    }
  }

  lemma {:induction false} BlockedStays(s: Setting, m: nat, n: nat, j: nat)
    requires m <= n && Position(s, m) <= j < |s.es| && s.Shown(j) && s.Size(j) > s.cap
    ensures Position(s, n) <= j
    decreases n
  {
    if m < n {
      BlockedStays(s, m, n - 1, j);
      var i := Position(s, n - 1);
      if 0 <= i {
        FillBlocked(s, i, 0, 0, j);
      }
    }
  }

  /** A listing gets to the end of its entries if and only if no entry it starts a
      reply from is without room. */
  lemma {:induction false} CompletesIff(s: Setting)
    ensures Completes(s) <==> NeverCramped(s)
  {
    if NeverCramped(s) {
      Advances(s, |s.es|);
    } else {
      var m: nat :| 0 <= Position(s, m) < |s.es| && NoRoom(s, Position(s, m));
      forall n: nat ensures Position(s, n) != |s.es| {
        if n <= m {
          if Position(s, n) == |s.es| {
            EndStays(s, n, m);
          }
        } else {
          CrampedStays(s, m, n);
        }
      }
    }
  }

  /** Nor are two adjacent entries too large for one buffer: a buffer of less than 24
      times 255 bytes is full before 255 entries are in it. */
  lemma {:induction false} PairBlocks(s: Setting, i: nat, used: nat, count: nat, j: nat)
    requires i <= j && j + 1 < |s.es| && s.Shown(j) && s.Shown(j + 1) && s.Size(j) + s.Size(j + 1) > s.cap
    requires 24 * count <= used <= s.cap < 24 * 255
    ensures Fill(s, i, used, count).next <= j
    decreases j - i
  {
    if !s.Shown(i) {
      PairBlocks(s, i + 1, used, count, j);
    } else if used + s.Size(i) <= s.cap {
      if i < j {
        PairBlocks(s, i + 1, used + s.Size(i), count + 1, j);
      } else {
        assert Fill(s, j + 1, used + s.Size(j), count + 1) == Filled([], j, true);
      }
    }
  }

  lemma {:induction false} PairStays(s: Setting, n: nat, j: nat)
    requires j + 1 < |s.es| && s.Shown(j) && s.Shown(j + 1) && s.Size(j) + s.Size(j + 1) > s.cap
    requires s.cap < 24 * 255
    ensures Position(s, n) <= j
  {
    if n > 0 {
      PairStays(s, n - 1, j);
      if 0 <= Position(s, n - 1) {
        PairBlocks(s, Position(s, n - 1), 0, 0, j);
      }
    }
  }

  /** In terms of the entries alone: a listing gets to its end if and only if every
      undeleted entry, and every two adjacent ones, fit the buffer. */
  lemma {:induction false} CompletesIffFits(s: Setting)
    requires s.cap < 24 * 255
    ensures Completes(s) <==> s.PairsFit()
  {
    if s.PairsFit() {
      CompletesIff(s);
    } else if exists j: nat :: j < |s.es| && s.Shown(j) && s.Size(j) > s.cap {
      var j: nat :| j < |s.es| && s.Shown(j) && s.Size(j) > s.cap;
      forall n: nat ensures Position(s, n) != |s.es| {
        BlockedStays(s, 0, n, j);
      }
    } else {
      var j: nat :| j + 1 < |s.es| && s.Shown(j) && s.Shown(j + 1) && s.Size(j) + s.Size(j + 1) > s.cap;
      forall n: nat ensures Position(s, n) != |s.es| {
        PairStays(s, n, j);
      }
    }
  }

  predicate InRange(s: Setting, sent: seq<nat>) {
    forall j :: 0 <= j < |sent| ==> sent[j] < |s.es|
  }

  lemma {:induction false} SentInRange(s: Setting, i: nat, used: nat, count: nat)
    requires i <= |s.es|
    ensures InRange(s, Fill(s, i, used, count).sent)
  {
    FillShows(s, i, used, count);
    var f := Fill(s, i, used, count);
    forall j | 0 <= j < |f.sent| ensures f.sent[j] < |s.es| {
      assert f.sent[j] in f.sent;
    }
  }

  // -------------------------------------------------------------- whole listings

  /** Cookie increments of one reply: one per entry sent and one per full buffer. */
  function Ticks(f: Filled): nat {
    |f.sent| + if f.cut then 1 else 0
  }

  /** The replies of a listing from entry i on; the kernel stops at an empty one. */
  ghost function Listing(s: Setting, i: nat): (r: seq<Filled>)
    requires s.PairsFit() && i <= |s.es|
    ensures forall f :: f in r ==> InRange(s, f.sent)
    decreases |s.es| - i
  {
    if i == |s.es| || ReplyFrom(s, i).sent == [] then [] else
    var f := ReplyFrom(s, i);
    Progress(s, i);
    FillShows(s, i, 0, 0);
    SentInRange(s, i, 0, 0);
    [f] + Listing(s, f.next)
  }

  ghost function Increments(fs: seq<Filled>): nat {
    if fs == [] then 0 else Ticks(fs[0]) + Increments(fs[1..])
  }

  /** Coverage: a listing shows every undeleted entry of the snapshot, in order, up to
      the entry just before each cut, which alone is shown again. */
  lemma {:induction false} ListingCovers(s: Setting, i: nat)
    requires s.PairsFit() && i <= |s.es|
    ensures Merged(Listing(s, i)) == s.ShownIn(i, |s.es|)
    decreases |s.es| - i
  {
    if i < |s.es| {
      var f := ReplyFrom(s, i);
      Progress(s, i);
      FillShows(s, i, 0, 0);
      if f.sent != [] {
        ListingCovers(s, f.next);
        Joined(s, i, f);
        assert Listing(s, i)[1..] == Listing(s, f.next);
      }
    }
  }

  /** A reply followed by later entries, without the entry repeated after a cut. */
  function Join(f: Filled, later: seq<nat>): seq<nat> {
    if f.cut && f.sent != [] && later != [] && later[0] == f.sent[|f.sent| - 1] then f.sent + later[1..]
    else f.sent + later
  }

  /** The replies without the repeated entry after each cut. */
  function Merged(fs: seq<Filled>): seq<nat> {
    if fs == [] then [] else Join(fs[0], Merged(fs[1..]))
  }

  lemma {:induction false} ShownSplit(s: Setting, lo: nat, mid: nat, hi: nat)
    requires lo <= mid <= hi <= |s.es|
    ensures s.ShownIn(lo, hi) == s.ShownIn(lo, mid) + s.ShownIn(mid, hi)
    decreases mid - lo
  {
    if lo < mid {
      ShownSplit(s, lo + 1, mid, hi);
    }
  }

  /** A cut reply and the listing that resumes one entry earlier. */
  lemma {:induction false} JoinResumes(f: Filled, a: seq<nat>, mid: seq<nat>, c: seq<nat>)
    requires f.cut && f.sent == a + mid && |mid| <= 1
    requires mid == [] && c != [] ==> c[0] !in a
    ensures Join(f, mid + c) == a + mid + c
  {
  }

  lemma {:induction false} Joined(s: Setting, i: nat, f: Filled)
    requires i < f.next <= |s.es| && i <= End(f) <= |s.es|
    requires f.sent == s.ShownIn(i, End(f))
    ensures Join(f, s.ShownIn(f.next, |s.es|)) == s.ShownIn(i, |s.es|)
  {
    hide Setting.ShownIn, Join;
    ShownSplit(s, i, f.next, |s.es|);
    if f.cut {
      var a, mid, c := s.ShownIn(i, f.next), s.ShownIn(f.next, End(f)), s.ShownIn(End(f), |s.es|);
      ShownSplit(s, i, f.next, End(f));
      ShownSplit(s, f.next, End(f), |s.es|);
      OneShown(s, f.next);
      assert c != [] ==> c[0] in c;
      JoinResumes(f, a, mid, c);
      assert a + mid + c == a + (mid + c);
    } else {
      JoinPlain(f, s.ShownIn(f.next, |s.es|));
    }
  }

  lemma {:induction false} OneShown(s: Setting, i: nat)
    requires i < |s.es|
    ensures |s.ShownIn(i, i + 1)| <= 1
  {
  }

  lemma {:induction false} JoinPlain(f: Filled, later: seq<nat>)
    requires !f.cut
    ensures Join(f, later) == f.sent + later
  {
  }

  // ------------------------------------------------------------ the live contexts

  const BUF_SIZE: nat := 384

  /** The context key in the upper half of a 32-bit cookie. */
  function KeyOf(cookie: nat): nat {
    cookie / 0x1_0000 % 0x1_0000
  }

  datatype Dirent = Dirent(name: Name, ino: nat, off: nat)

  /** The records of the entries sent, with consecutive cookies after `cookie`. */
  function Dirents(s: Setting, sent: seq<nat>, cookie: nat): (r: seq<Dirent>)
    requires InRange(s, sent)
    ensures |r| == |sent|
    ensures forall j :: 0 <= j < |r| ==> r[j] == Dirent(s.es[sent[j]].name, s.es[sent[j]].ino, cookie + j + 1)
  {
    seq(|sent|, j requires 0 <= j < |sent| =>
      Dirent(s.es[sent[j]].name, s.es[sent[j]].ino, cookie + j + 1))
  }

  lemma {:induction false} DirentsAppend(s: Setting, sent: seq<nat>, x: nat, cookie: nat)
    requires InRange(s, sent) && x < |s.es|
    ensures InRange(s, sent + [x])
    ensures Dirents(s, sent + [x], cookie)
         == Dirents(s, sent, cookie) + [Dirent(s.es[x].name, s.es[x].ino, cookie + |sent| + 1)]
  {
  }

  lemma {:induction false} NoDirents(s: Setting, cookie: nat)
    ensures InRange(s, []) && Dirents(s, [], cookie) == []
  {
  }

  class ReadDirCtx {
    var cookie: nat
    var it: int
    const children: seq<Entry>

    constructor (cookie: nat, children: seq<Entry>)
      ensures this.cookie == cookie && it == 0 && this.children == children
    {
      this.cookie, it, this.children := cookie, 0, children;
    }

    function Snapshot(alive: nat -> bool, cap: nat): Setting {
      Setting(children, alive, cap)
    }

    /** The loop of FuseReadDir: the records put into a buffer of `cap` bytes. */
    method FillBuffer(alive: nat -> bool, cap: nat) returns (reply: seq<Dirent>)
      requires 0 <= it <= |children|
      modifies this
      ensures var s := Snapshot(alive, cap);
              var f := ReplyFrom(s, old(it));
              && it == f.next && cookie == old(cookie) + Ticks(f)
              && InRange(s, f.sent)
              && reply == Dirents(s, f.sent, old(cookie))
    {
      hide Dirents, InRange, DirentSize, Fill, After;
      var s := Snapshot(alive, cap);
      ghost var all := ReplyFrom(s, it);
      SentInRange(s, it, 0, 0);
      var bytes: nat, entries: nat := 0, 0;
      reply := [];
      ghost var sent: seq<nat> := [];
      NoDirents(s, cookie);
      FillTurn(s, it, 0, 0, []);
      while entries < 255 && it != |children|
        invariant 0 <= it <= |children| && entries == |sent|
        invariant cookie == old(cookie) + |sent|
        invariant all == After(sent, Fill(s, it, bytes, entries))
        invariant InRange(s, sent) && reply == Dirents(s, sent, old(cookie))
        decreases |children| - it
      {
        var child := children[it];
        FillTurn(s, it, bytes, entries, sent);
        if !alive(child.ino) {
          it := it + 1;
          continue;
        }
        cookie := cookie + 1;
        var need := DirentSize(child.name);
        if bytes + need > cap {
          it := it - 1;
          return;
        }
        reply := reply + [Dirent(child.name, child.ino, cookie)];
        DirentsAppend(s, sent, it, old(cookie));
        bytes, entries := bytes + need, entries + 1;
        sent := sent + [it as nat];
        it := it + 1;
      }
      FillTurn(s, it, bytes, entries, sent);
    }
  }

  datatype Answer = Refused(e: Errno) | Sent(es: seq<Dirent>)

  /** Which inodes readdir shows. */
  function Alive(fs: Fs): nat -> bool {
    (i: nat) => !Gone(fs, i)
  }

  function Room(size: nat): nat {
    if BUF_SIZE < size then BUF_SIZE else size
  }

  /** The context moved on from entry `it` by the reply it gave. */
  ghost predicate Served(c: ReadDirCtx, fs: Fs, size: nat, it: int, cookie: nat, r: Answer)
    reads c
  {
    && 0 <= it <= |c.children|
    && var s := c.Snapshot(Alive(fs), Room(size));
       var f := ReplyFrom(s, it);
       && c.it == f.next && c.cookie == cookie + Ticks(f)
       && InRange(s, f.sent)
       && r == Sent(Dirents(s, f.sent, cookie))
  }

  /** After a request only the context that answered has moved, and it is dropped if
      it is at its end. */
  ghost predicate Filed(c: ReadDirCtx, key: nat, now: map<nat, ReadDirCtx>, was: map<nat, ReadDirCtx>)
    reads c
  {
    now == if c.it == |c.children| then was - {key} else was[key := c]
  }

  /** Every record's cookie leads back to the context. */
  predicate Keyed(got: seq<seq<Dirent>>, key: nat) {
    forall a, b :: 0 <= a < |got| && 0 <= b < |got[a]| ==> KeyOf(got[a][b].off) == key
  }

  lemma {:induction false} KeyedAppend(got: seq<seq<Dirent>>, r: seq<Dirent>, key: nat, cookie: nat)
    requires Keyed(got, key) && key < 0x1_0000
    requires key * 0x1_0000 <= cookie && cookie + |r| < (key + 1) * 0x1_0000
    requires forall j :: 0 <= j < |r| ==> r[j].off == cookie + j + 1
    ensures Keyed(got + [r], key)
    ensures forall j :: 0 <= j < |r| ==> KeyOf(r[j].off) == key
  {
  }

  /** A listing of directory `ino` with replies of at most `size` bytes. */
  function Whole(fs: Fs, ino: nat, size: nat): Setting
    requires IsDir(fs, ino)
  {
    Setting(Children(fs, ino), Alive(fs), Room(size))
  }

  /** A listing of a directory completes exactly when its entries fit, as a caller can
      tell from names and sizes. */
  lemma {:induction false} DirectoryListsIff(fs: Fs, ino: nat, size: nat)
    requires IsDir(fs, ino)
    ensures Completes(Whole(fs, ino, size)) <==>
              && (forall i: nat :: i < |Children(fs, ino)| && !Gone(fs, Children(fs, ino)[i].ino) ==>
                    DirentSize(Children(fs, ino)[i].name) <= Room(size))
              && (forall i: nat :: i + 1 < |Children(fs, ino)| && !Gone(fs, Children(fs, ino)[i].ino)
                                   && !Gone(fs, Children(fs, ino)[i + 1].ino) ==>
                    DirentSize(Children(fs, ino)[i].name) + DirentSize(Children(fs, ino)[i + 1].name) <= Room(size))
  {
    hide Completes, Gone;
    var s, es := Whole(fs, ino, size), Children(fs, ino);
    CompletesIffFits(s);
    assert forall i: nat :: i < |es| ==> (s.Shown(i) <==> !Gone(fs, es[i].ino)) && s.Size(i) == DirentSize(es[i].name);
    if !s.PairsFit() && forall i: nat :: i < |es| && s.Shown(i) ==> s.Size(i) <= s.cap {
      var i: nat :| i + 1 < |es| && s.Shown(i) && s.Shown(i + 1) && s.Size(i) + s.Size(i + 1) > s.cap;
      assert !Gone(fs, es[i].ino) && !Gone(fs, es[i + 1].ino);
    }
  }

  /** As long as names are in order a listing shows every name but possibly "..", whose
      directory may be gone after a rename. */
  lemma {:induction false} ListsEveryName(fs: Fs, ino: nat, size: nat, k: nat)
    requires Names.NamesOk(fs) && IsDir(fs, ino) && Whole(fs, ino, size).PairsFit()
    requires k < |Children(fs, ino)| && !Dot(Children(fs, ino)[k].name)
    ensures k in Merged(Listing(Whole(fs, ino, size), 0))
  {
    Names.NameLeads(fs, ino, k);
    ListingCovers(Whole(fs, ino, size), 0);
  }

  /** Names of at most 168 bytes always fit two to a full buffer. */
  lemma {:induction false} ShortNamesFit(fs: Fs, ino: nat, size: nat)
    requires IsDir(fs, ino) && BUF_SIZE <= size
    requires forall k :: 0 <= k < |Children(fs, ino)| ==> |Children(fs, ino)[k].name| <= 168
    ensures Whole(fs, ino, size).PairsFit()
  {
  }

  /** The replies of a listing as records, each taking up the cookies where the
      previous one left off. */
  ghost function Records(s: Setting, fs: seq<Filled>, cookie: nat): seq<seq<Dirent>>
    requires forall f :: f in fs ==> InRange(s, f.sent)
  {
    if fs == [] then []
    else [Dirents(s, fs[0].sent, cookie)] + Records(s, fs[1..], cookie + Ticks(fs[0]))
  }

  /** Where the listing stands after the request at entry i, and what that answers. */
  ghost function Further(s: Setting, i: nat): nat
    requires s.PairsFit() && i <= |s.es|
  {
    if i == |s.es| then i else Progress(s, i); ReplyFrom(s, i).next
  }

  ghost function Answered(s: Setting, i: nat, cookie: nat): (r: seq<Dirent>)
    requires i <= |s.es|
    ensures |r| == |ReplyFrom(s, i).sent|
    ensures forall j :: 0 <= j < |r| ==> r[j].off == cookie + j + 1
  {
    SentInRange(s, i, 0, 0);
    Dirents(s, ReplyFrom(s, i).sent, cookie)
  }

  /** One round of a listing: it moves on, and an empty reply is the last one. */
  lemma {:induction false} Rounds(s: Setting, i: nat, cookie: nat)
    requires s.PairsFit() && i <= |s.es|
    ensures var f := ReplyFrom(s, i);
            && InRange(s, f.sent) && f.next == Further(s, i) <= |s.es| && (i < |s.es| ==> i < Further(s, i))
            && if f.sent == [] then
                 && Further(s, i) == |s.es| && Ticks(f) == 0
                 && Listing(s, i) == [] && Increments(Listing(s, i)) == 0
                 && Records(s, Listing(s, i), cookie) == []
               else
                 && i < |s.es|
                 && Increments(Listing(s, i)) == Ticks(f) + Increments(Listing(s, Further(s, i)))
                 && Records(s, Listing(s, i), cookie)
                 == [Answered(s, i, cookie)] + Records(s, Listing(s, Further(s, i)), cookie + Ticks(f))
  {
    hide Fill, Dirents, Listing, Setting.PairsFit, Setting.ShownIn;
    var f := ReplyFrom(s, i);
    RoundMoves(s, i);
    RoundLists(s, i);
    if f.sent != [] {
      assert Listing(s, i)[1..] == Listing(s, f.next);
    }
  }

  lemma {:induction false} RoundMoves(s: Setting, i: nat)
    requires s.PairsFit() && i <= |s.es|
    ensures var f := ReplyFrom(s, i);
            && InRange(s, f.sent) && f.next == Further(s, i) <= |s.es| && (i < |s.es| ==> i < Further(s, i))
            && (if f.sent == [] then Further(s, i) == |s.es| && Ticks(f) == 0 else i < |s.es|)
  {
    FillShows(s, i, 0, 0);
    SentInRange(s, i, 0, 0);
    if i < |s.es| {
      Progress(s, i);
    }
  }

  lemma {:induction false} RoundLists(s: Setting, i: nat)
    requires s.PairsFit() && i <= |s.es| && Further(s, i) <= |s.es|
    requires ReplyFrom(s, i).sent != [] ==> i < |s.es|
    ensures Listing(s, i) == if ReplyFrom(s, i).sent == [] then [] else [ReplyFrom(s, i)] + Listing(s, Further(s, i))
  {
    hide Fill, Setting.PairsFit, Setting.ShownIn;
  }

  /** The contexts of all listings in progress, shared by all directories. */
  class Listings {
    var states: map<nat, ReadDirCtx>

    /** Each context is filed under the key its cookie carries and is part-way
        through its copy of the entries. */
    ghost predicate Valid()
      reads this, states.Values
    {
      && (forall k :: k in states ==> states[k].cookie / 0x1_0000 == k < 0x1_0000)
      && (forall k :: k in states ==> 0 <= states[k].it < |states[k].children|)
    }

    constructor ()
      ensures Valid() && states == map[]
    {
      states := map[];
    }

    /** `key` is the first random key that is not in use. */
    method PrepareReaddir(off: nat, children: seq<Entry>, key: nat) returns (ctx: Option<ReadDirCtx>)
      requires off == 0 ==> key < 0x1_0000 && key !in states
      modifies this
      ensures off != 0 ==> states == old(states)
      ensures off != 0 ==> ctx == if KeyOf(off) in states then Some(states[KeyOf(off)]) else None
      ensures off == 0 ==>
        && ctx.Some? && fresh(ctx.value) && states == old(states)[key := ctx.value]
        && ctx.value.children == children && ctx.value.it == 0 && ctx.value.cookie == key * 0x1_0000
    {
      if off != 0 {
        return if KeyOf(off) in states then Some(states[KeyOf(off)]) else None;
      }
      var c := new ReadDirCtx(key * 0x1_0000, children);
      states := states[key := c];
      return Some(c);
    }

    /** Drops exactly the contexts that have reached their end. */
    method RecycleStates()
      modifies this
      ensures states == map k | k in old(states) && old(states)[k].it != |old(states)[k].children| :: old(states)[k]
    {
      var todo := states.Keys;
      ghost var was := states;
      while todo != {}
        invariant todo <= was.Keys
        invariant states == map k | k in was && (k in todo || was[k].it != |was[k].children|) :: was[k]
      {
        var k :| k in todo;
        if states[k].it == |states[k].children| {
          states := states - {k};
        }
        todo := todo - {k};
      }
    }

    /** One readdir request.  `ctx` is the context that answered it, if one did. */
    method FuseReadDir(fs: Fs, ino: nat, size: nat, off: nat, key: nat)
      returns (r: Answer, ghost ctx: Option<ReadDirCtx>)
      requires Valid()
      requires off == 0 ==> key < 0x1_0000 && key !in states
      modifies this, states.Values
      ensures CheckParent(fs, ino) != OK ==> r == Refused(CheckParent(fs, ino)) && ctx.None?
      ensures CheckParent(fs, ino) == OK && (off == 0 || KeyOf(off) in old(states)) ==> ctx.Some?
      ensures ctx.None? ==> states == old(states) && forall k :: k in states ==> unchanged(states[k])
      ensures CheckParent(fs, ino) == OK && ctx.None? ==> r == Sent([])
      ensures ctx.Some? && off != 0 ==> KeyOf(off) in old(states) && ctx.value == old(states)[KeyOf(off)]
      ensures ctx.Some? && off == 0 ==>
        && fresh(ctx.value) && CheckParent(fs, ino) == OK
        && ctx.value.children == Children(fs, ino)
        && Served(ctx.value, fs, size, 0, key * 0x1_0000, r)
      ensures ctx.Some? && off != 0 ==>
        Served(ctx.value, fs, size, old(ctx.value.it), old(ctx.value.cookie), r)
      ensures ctx.Some? ==> Filed(ctx.value, if off == 0 then key else KeyOf(off), states, old(states))
      ensures forall k :: k in old(states) && ctx != Some(old(states)[k]) ==> unchanged(old(states)[k])
    {
      ctx := None;
      var e := CheckParent(fs, ino);
      if e != OK {
        return Refused(e), None;
      }
      var c := PrepareReaddir(off, Children(fs, ino), key);
      ctx := c;
      if c.None? {
        return Sent([]), None;
      }
      var es := c.value.FillBuffer(Alive(fs), Room(size));
      RecycleStates();
      r := Sent(es);
    }

    /** Between two requests of a listing: the context stands at entry `it`, or the
        listing is over and the context is gone. */
    ghost predicate Between(s: Setting, it: nat, cookie: nat, key: nat, others: map<nat, ReadDirCtx>)
      reads this, states.Values
    {
      && Valid() && it <= |s.es| && key !in others
      && if it == |s.es| then states == others
         else && key in states && states == others[key := states[key]]
              && states[key].children == s.es
              && states[key].it == it && states[key].cookie == cookie
    }

    /** The context that has answered stands where its iterator is. */
    lemma {:induction false} StandsAt(c: ReadDirCtx, s: Setting, key: nat, others: map<nat, ReadDirCtx>)
      requires key !in others && Filed(c, key, states, others)
      requires c.children == s.es && 0 <= c.it <= |s.es| && c.cookie / 0x1_0000 == key < 0x1_0000
      requires forall k :: k in others ==> others[k].cookie / 0x1_0000 == k < 0x1_0000
      requires forall k :: k in others ==> 0 <= others[k].it < |others[k].children|
      ensures Between(s, c.it, c.cookie, key, others)
    {
      assert others - {key} == others;
    }

    lemma {:induction false} ListingOver(s: Setting, cookie: nat, key: nat, others: map<nat, ReadDirCtx>)
      requires Between(s, |s.es|, cookie, key, others)
      ensures Valid() && states == others
    {
    }

    /** The first request of a listing. */
    method Begin(fs: Fs, ino: nat, size: nat, key: nat) returns (r: Answer)
      requires Valid() && key < 0x1_0000 && key !in states
      requires CheckParent(fs, ino) == OK && Whole(fs, ino, size).PairsFit()
      requires Ticks(ReplyFrom(Whole(fs, ino, size), 0)) < 0x1_0000
      modifies this, states.Values
      ensures var s := Whole(fs, ino, size);
              && r == Sent(Answered(s, 0, key * 0x1_0000))
              && Between(s, Further(s, 0), key * 0x1_0000 + Ticks(ReplyFrom(s, 0)), key, old(states))
      ensures forall c :: c in states.Values ==> c in old(states.Values) || fresh(c)
    {
      hide Fill, Gone, Setting.PairsFit, Dirents, Alive, Room, Setting.ShownIn;
      ghost var s := Whole(fs, ino, size);
      Rounds(s, 0, 0);
      ghost var ctx;
      r, ctx := FuseReadDir(fs, ino, size, 0, key);
      assert s == ctx.value.Snapshot(Alive(fs), Room(size));
      assert ctx.value.cookie / 0x1_0000 == key;
      StandsAt(ctx.value, s, key, old(states));
    }

    /** The other contexts are other objects, filed as before. */
    lemma {:induction false} OthersApart(s: Setting, it: nat, cookie: nat, key: nat, others: map<nat, ReadDirCtx>)
      requires Between(s, it, cookie, key, others) && it < |s.es|
      ensures key in states
      ensures forall k :: k in others ==> k in states && states[k] == others[k] && others[k] != states[key]
      ensures forall k :: k in others ==> others[k].cookie / 0x1_0000 == k < 0x1_0000
      ensures forall k :: k in others ==> 0 <= others[k].it < |others[k].children|
    {
      forall k | k in others ensures k in states && states[k] == others[k] && others[k] != states[key] {
        assert states[k].cookie / 0x1_0000 == k && states[key].cookie / 0x1_0000 == key;
      }
    }

    /** A later request, with any cookie that carries the key. */
    method Resume(fs: Fs, ino: nat, size: nat, off: nat, key: nat,
                  ghost it: nat, ghost cookie: nat, ghost others: map<nat, ReadDirCtx>) returns (r: Answer)
      requires CheckParent(fs, ino) == OK && Whole(fs, ino, size).PairsFit()
      requires off != 0 && KeyOf(off) == key
      requires Between(Whole(fs, ino, size), it, cookie, key, others)
      requires cookie % 0x1_0000 + Ticks(ReplyFrom(Whole(fs, ino, size), it)) < 0x1_0000
      modifies this, states.Values
      ensures var s := Whole(fs, ino, size);
              && r == Sent(Answered(s, it, cookie))
              && Between(s, Further(s, it), cookie + Ticks(ReplyFrom(s, it)), key, others)
      ensures states.Values <= old(states.Values)
    {
      hide Fill, Gone, Setting.PairsFit, Dirents, Alive, Room, Setting.ShownIn;
      ghost var s := Whole(fs, ino, size);
      Rounds(s, it, 0);
      if it < |s.es| {
        OthersApart(s, it, cookie, key, others);
      }
      ghost var ctx;
      r, ctx := FuseReadDir(fs, ino, size, off, key);
      if it < |s.es| {
        var c := ctx.value;
        assert s == c.Snapshot(Alive(fs), Room(size));
        assert old(states) - {key} == others - {key} && old(states)[key := c] == others[key := c];
        assert c.cookie / 0x1_0000 == key;
        StandsAt(c, s, key, others);
      }
    }

    /** The kernel's side of a listing: it asks again with the cookie of the last
        record until a reply is empty.  No other request comes in between. */
    method ListDirectory(fs: Fs, ino: nat, size: nat, key: nat) returns (got: seq<seq<Dirent>>)
      requires Valid() && key < 0x1_0000 && key !in states
      requires CheckParent(fs, ino) == OK
      requires Whole(fs, ino, size).PairsFit()
      requires Increments(Listing(Whole(fs, ino, size), 0)) < 0x1_0000
      modifies this, states.Values
      ensures Valid() && states == old(states)
      ensures var s := Whole(fs, ino, size);
              got == Records(s, Listing(s, 0), key * 0x1_0000)
      ensures Keyed(got, key)
    {
      hide Fill, Listing, Records, Increments, Setting.PairsFit, Dirents, Gone, Valid, Alive, Between, Room;
      ghost var s := Whole(fs, ino, size);
      ghost var it: nat, cookie: nat := 0, key * 0x1_0000;
      Rounds(s, it, cookie);
      var r := Begin(fs, ino, size, key);
      got := [];
      while r.es != []
        invariant it <= |s.es| && r == Sent(Answered(s, it, cookie))
        invariant key * 0x1_0000 <= cookie
        invariant cookie + Increments(Listing(s, it)) < (key + 1) * 0x1_0000
        invariant got + Records(s, Listing(s, it), cookie) == Records(s, Listing(s, 0), key * 0x1_0000)
        invariant Keyed(got, key)
        invariant Between(s, Further(s, it), cookie + Ticks(ReplyFrom(s, it)), key, old(states))
        invariant forall c :: c in states.Values ==> c in old(states.Values) || fresh(c)
        decreases |s.es| - it
      {
        Rounds(s, it, cookie);
        KeyedAppend(got, r.es, key, cookie);
        got := got + [r.es];
        var off := r.es[|r.es| - 1].off;
        it, cookie := Further(s, it), cookie + Ticks(ReplyFrom(s, it));
        Rounds(s, it, cookie);
        r := Resume(fs, ino, size, off, key, it, cookie, old(states));
      }
      Rounds(s, it, cookie);
      ListingOver(s, cookie + Ticks(ReplyFrom(s, it)), key, old(states));
    }
  }
}
