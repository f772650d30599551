/** Pickling and loading the whole file system: tables, free queues, counters, pool. */
module StateCodec {
  import opened Base
  import opened Model
  import opened Invariant
  import opened Runs
  import opened Laws
  import opened Accounting
  import opened Slots
  import opened Snapshots
  import opened DirectoryMap
  import opened Codec

  // -------------------------------------------------------------------- tables

  /** The slot header (exist flag, padding, mode) and, if there is one, the inode. */
  function EncSlot(o: Option<Node>, rest: seq<byte>): seq<byte> {
    if o.None? then [0, 0, 0, 0] + (LE(0, 4) + rest)
    else [1, 0, 0, 0] + (LE(o.value.h.mode, 4) + EncNode(o.value, rest))
  }

  function DecSlot(bs: seq<byte>): Parsed<Option<Node>> {
    var exist := Take(bs, 4);
    if exist.Bad? then Bad else
    var mode := Word(exist.rest, 4);
    if mode.Bad? then Bad
    else if exist.value[0] == 0 then Ok(None, mode.rest)
    else
      var n := DecNode(mode.value, mode.rest);
      if n.Bad? then Bad else Ok(Some(n.value), n.rest)
  }

  lemma {:induction false} SlotRound(o: Option<Node>, rest: seq<byte>)
    requires o.Some? ==> NodeFits(o.value)
    ensures DecSlot(EncSlot(o, rest)) == Ok(o, rest)
  {
    hide EncNode, DecNode, LE, Word, Take;
    var mode := if o.Some? then o.value.h.mode else 0;
    var tail := if o.Some? then EncNode(o.value, rest) else rest;
    TakeRound([if o.Some? then 1 else 0, 0, 0, 0], LE(mode, 4) + tail);
    Word4(mode, tail);
    if o.Some? {
      NodeRound(o.value, rest);
    }
  }

  function EncTable(nodes: seq<Option<Node>>, rest: seq<byte>): seq<byte> {
    if nodes == [] then rest else EncSlot(nodes[0], EncTable(nodes[1..], rest))
  }

  /** The load loop: a null slot is skipped, not kept. */
  function DecTable(n: nat, bs: seq<byte>): Parsed<seq<Option<Node>>> {
    if n == 0 then Ok([], bs) else
    var o := DecSlot(bs);
    if o.Bad? then Bad else
    var more := DecTable(n - 1, o.rest);
    if more.Bad? then Bad
    else Ok((if o.value.Some? then [o.value] else []) + more.value, more.rest)
  }

  /** A table without its null slots. */
  function Squeeze(nodes: seq<Option<Node>>): (r: seq<Option<Node>>)
    ensures |r| <= |nodes|
    ensures forall i :: 0 <= i < |r| ==> r[i].Some?
  {
    if nodes == [] then []
    else (if nodes[0].Some? then [nodes[0]] else []) + Squeeze(nodes[1..])
  }

  ghost predicate TableFits(nodes: seq<Option<Node>>) {
    forall i :: 0 <= i < |nodes| && nodes[i].Some? ==> NodeFits(nodes[i].value)
  }

  lemma {:induction false} TableRound(nodes: seq<Option<Node>>, rest: seq<byte>)
    requires TableFits(nodes)
    ensures DecTable(|nodes|, EncTable(nodes, rest)) == Ok(Squeeze(nodes), rest)
  {
    hide EncSlot, DecSlot, NodeFits;
    if nodes != [] {
      SlotRound(nodes[0], EncTable(nodes[1..], rest));
      TableRound(nodes[1..], rest);
    }
  }

  // --------------------------------------------------------- queue and counters

  function EncQueue(q: seq<nat>, rest: seq<byte>): seq<byte> {
    if q == [] then rest else LE(q[0], 8) + EncQueue(q[1..], rest)
  }

  function DecQueue(n: nat, bs: seq<byte>): Parsed<seq<nat>> {
    if n == 0 then Ok([], bs) else
    var x := Word(bs, 8);
    if x.Bad? then Bad else
    var more := DecQueue(n - 1, x.rest);
    if more.Bad? then Bad else Ok([x.value] + more.value, more.rest)
  }

  ghost predicate QueueFits(q: seq<nat>) {
    Fits8(|q|) && forall i :: 0 <= i < |q| ==> Fits8(q[i])
  }

  lemma {:induction false} QueueRound(q: seq<nat>, rest: seq<byte>)
    requires QueueFits(q)
    ensures DecQueue(|q|, EncQueue(q, rest)) == Ok(q, rest)
  {
    hide LE, Word;
    if q != [] {
      Word8(q[0], EncQueue(q[1..], rest));
      QueueRound(q[1..], rest);
      assert [q[0]] + q[1..] == q;
    }
  }

  /** Bytes of statvfs besides the six counters (112 in all). */
  const STAT_FIXED: nat := 64

  function EncStat(s: Stat, rest: seq<byte>): seq<byte> {
    LE(s.blocks, 8) + (LE(s.bfree, 8) + (LE(s.bavail, 8) +
    (LE(s.files, 8) + (LE(s.ffree, 8) + (LE(s.favail, 8) + (s.fixed + rest))))))
  }

  function DecStat(bs: seq<byte>): Parsed<Stat> {
    var a := Word(bs, 8);
    if a.Bad? then Bad else
    var b := Word(a.rest, 8);
    if b.Bad? then Bad else
    var c := Word(b.rest, 8);
    if c.Bad? then Bad else
    var d := Word(c.rest, 8);
    if d.Bad? then Bad else
    var e := Word(d.rest, 8);
    if e.Bad? then Bad else
    var f := Word(e.rest, 8);
    if f.Bad? then Bad else
    var g := Take(f.rest, STAT_FIXED);
    if g.Bad? then Bad
    else Ok(Stat(Wrap(a.value), Wrap(b.value), Wrap(c.value), Wrap(d.value), Wrap(e.value), Wrap(f.value), g.value),
            g.rest)
  }

  lemma {:induction false} StatRound(s: Stat, rest: seq<byte>)
    requires |s.fixed| == STAT_FIXED
    ensures DecStat(EncStat(s, rest)) == Ok(s, rest)
  {
    hide LE, Word, Take, Wrap;
    var r6 := s.fixed + rest;
    var r5 := LE(s.favail, 8) + r6;
    var r4 := LE(s.ffree, 8) + r5;
    var r3 := LE(s.files, 8) + r4;
    var r2 := LE(s.bavail, 8) + r3;
    var r1 := LE(s.bfree, 8) + r2;
    Word8(s.blocks, r1);
    Word8(s.bfree, r2);
    Word8(s.bavail, r3);
    Word8(s.files, r4);
    Word8(s.ffree, r5);
    Word8(s.favail, r6);
    TakeRound(s.fixed, rest);
    WrapExact(s.blocks);
    WrapExact(s.bfree);
    WrapExact(s.bavail);
    WrapExact(s.files);
    WrapExact(s.ffree);
    WrapExact(s.favail);
  }

  // ------------------------------------------------------------- table and queue

  /** Inode count, table, queue length, queue: the common part of live state and snapshots. */
  function EncTables(fs: Fs, rest: seq<byte>): seq<byte> {
    LE(|fs.nodes|, 8) + EncTable(fs.nodes, LE(|fs.deleted|, 8) + EncQueue(fs.deleted, rest))
  }

  function DecTables(bs: seq<byte>): Parsed<(seq<Option<Node>>, seq<nat>)> {
    var n := Word(bs, 8);
    if n.Bad? then Bad else
    var nodes := DecTable(n.value, n.rest);
    if nodes.Bad? then Bad else
    var m := Word(nodes.rest, 8);
    if m.Bad? then Bad else
    var q := DecQueue(m.value, m.rest);
    if q.Bad? then Bad else Ok((nodes.value, q.value), q.rest)
  }

  ghost predicate FsFits(fs: Fs) {
    Fits8(|fs.nodes|) && TableFits(fs.nodes) && QueueFits(fs.deleted) && |fs.stat.fixed| == STAT_FIXED
  }

  lemma {:induction false} TablesRound(fs: Fs, rest: seq<byte>)
    requires FsFits(fs)
    ensures DecTables(EncTables(fs, rest)) == Ok((Squeeze(fs.nodes), fs.deleted), rest)
  {
    hide LE, Word, EncTable, DecTable, EncQueue, DecQueue, TableFits;
    var r1 := EncQueue(fs.deleted, rest);
    var r0 := LE(|fs.deleted|, 8) + r1;
    Word8(|fs.nodes|, EncTable(fs.nodes, r0));
    TableRound(fs.nodes, r0);
    Word8(|fs.deleted|, r1);
    QueueRound(fs.deleted, rest);
  }

  // ----------------------------------------------------------------------- pool

  /** Snapshots in the iteration order of the hash map. */
  function EncPool(keys: seq<nat>, pool: map<nat, Fs>, rest: seq<byte>): seq<byte>
    requires forall i :: 0 <= i < |keys| ==> keys[i] in pool
  {
    if keys == [] then rest
    else LE(keys[0], 8) + EncTables(pool[keys[0]], EncStat(pool[keys[0]].stat, EncPool(keys[1..], pool, rest)))
  }

  /** insert_state refuses a key twice. */
  function DecPool(n: nat, acc: map<nat, Fs>, bs: seq<byte>): Parsed<map<nat, Fs>> {
    if n == 0 then Ok(acc, bs) else
    var k := Word(bs, 8);
    if k.Bad? then Bad else
    var t := DecTables(k.rest);
    if t.Bad? then Bad else
    var s := DecStat(t.rest);
    if s.Bad? || k.value in acc then Bad
    else DecPool(n - 1, acc[k.value := Fs(t.value.0, t.value.1, s.value)], s.rest)
  }

  function SqueezeFs(fs: Fs): Fs {
    fs.(nodes := Squeeze(fs.nodes))
  }

  /** The keys are those of the pool, each once. */
  ghost predicate Lists(keys: seq<nat>, pool: map<nat, Fs>) {
    && (forall i, j :: 0 <= i < j < |keys| ==> keys[i] != keys[j])
    && (forall k :: k in keys <==> k in pool)
  }

  function SqueezePool(pool: map<nat, Fs>): map<nat, Fs> {
    map k | k in pool :: SqueezeFs(pool[k])
  }

  /** The snapshots under some of the keys, as load brings them back. */
  function Chosen(keys: seq<nat>, pool: map<nat, Fs>): map<nat, Fs> {
    map k | k in keys && k in pool :: SqueezeFs(pool[k])
  }

  lemma {:induction false} ChosenFirst(keys: seq<nat>, pool: map<nat, Fs>, acc: map<nat, Fs>)
    requires keys != [] && keys[0] in pool && keys[0] !in keys[1..]
    ensures acc[keys[0] := SqueezeFs(pool[keys[0]])] + Chosen(keys[1..], pool) == acc + Chosen(keys, pool)
  {
  }

  lemma {:induction false} PoolRound(keys: seq<nat>, pool: map<nat, Fs>, acc: map<nat, Fs>, rest: seq<byte>)
    requires forall i :: 0 <= i < |keys| ==>
               keys[i] in pool && keys[i] !in acc && Fits8(keys[i]) && FsFits(pool[keys[i]])
    requires forall i, j :: 0 <= i < j < |keys| ==> keys[i] != keys[j]
    ensures DecPool(|keys|, acc, EncPool(keys, pool, rest))
            == Ok(acc + Chosen(keys, pool), rest)
    decreases |keys|
  {
    hide LE, Word, EncTables, DecTables, EncStat, DecStat, Squeeze, Chosen;
    if keys == [] {
      NoneChosen(pool, acc);
    } else {
      var k, fs := keys[0], pool[keys[0]];
      var r2 := EncPool(keys[1..], pool, rest);
      var r1 := EncStat(fs.stat, r2);
      Word8(k, EncTables(fs, r1));
      TablesRound(fs, r1);
      assert |fs.stat.fixed| == STAT_FIXED;
      StatRound(fs.stat, r2);
      PoolRound(keys[1..], pool, acc[k := SqueezeFs(fs)], rest);
      ChosenFirst(keys, pool, acc);
    }
  }

  lemma {:induction false} NoneChosen(pool: map<nat, Fs>, acc: map<nat, Fs>)
    ensures acc + Chosen([], pool) == acc
  {
  }

  // ---------------------------------------------------------------- whole state

  function EncState(st: State, keys: seq<nat>, rest: seq<byte>): seq<byte>
    requires forall i :: 0 <= i < |keys| ==> keys[i] in st.pool
  {
    EncStat(st.live.stat, EncTables(st.live, LE(|keys|, 8) + EncPool(keys, st.pool, rest)))
  }

  function DecState(bs: seq<byte>): Parsed<State> {
    var s := DecStat(bs);
    if s.Bad? then Bad else
    var t := DecTables(s.rest);
    if t.Bad? then Bad else
    var n := Word(t.rest, 8);
    if n.Bad? then Bad else
    var p := DecPool(n.value, map[], n.rest);
    if p.Bad? then Bad else Ok(State(Fs(t.value.0, t.value.1, s.value), p.value), p.rest)
  }

  ghost predicate StateFits(st: State) {
    FsFits(st.live) && Fits8(|st.pool|) && forall k :: k in st.pool ==> Fits8(k) && FsFits(st.pool[k])
  }

  function SqueezeState(st: State): State {
    State(SqueezeFs(st.live), SqueezePool(st.pool))
  }

  lemma {:induction false} ListsLength(keys: seq<nat>, pool: map<nat, Fs>)
    requires Lists(keys, pool)
    ensures |keys| == |pool|
    decreases |keys|
  {
    if keys == [] {
      assert pool == map[];
    } else {
      assert keys == [keys[0]] + keys[1..];
      LessOne(pool, keys[0]);
      ListsLength(keys[1..], pool - {keys[0]});
    }
  }

  lemma {:induction false} LessOne(pool: map<nat, Fs>, k: nat)
    requires k in pool
    ensures |pool| == |pool - {k}| + 1
  {
    assert pool.Keys == (pool - {k}).Keys + {k};
    assert |pool.Keys| == |(pool - {k}).Keys| + 1;
  }

  /** Loading a pickled state, whatever follows the bytes, gives statvfs, the free
      queues in order and the pool key by key, and every table without its null
      slots, and uses up exactly the bytes written. */
  lemma {:induction false} StateRound(st: State, keys: seq<nat>, rest: seq<byte>)
    requires StateFits(st) && Lists(keys, st.pool)
    ensures DecState(EncState(st, keys, rest)) == Ok(SqueezeState(st), rest)
  {
    hide LE, Word, EncTables, DecTables, EncStat, DecStat, EncPool, DecPool, Squeeze, Chosen, SqueezePool;
    AllChosen(keys, st.pool);
    var r2 := EncPool(keys, st.pool, rest);
    var r1 := LE(|keys|, 8) + r2;
    ListsLength(keys, st.pool);
    StatRound(st.live.stat, EncTables(st.live, r1));
    TablesRound(st.live, r1);
    Word8(|keys|, r2);
    PoolRound(keys, st.pool, map[], rest);
  }

  lemma {:induction false} AllChosen(keys: seq<nat>, pool: map<nat, Fs>)
    requires Lists(keys, pool)
    ensures map[] + Chosen(keys, pool) == SqueezePool(pool)
  {
  }

  // ------------------------------------------- when the round trip is the identity

  lemma {:induction false} SqueezeIdentity(nodes: seq<Option<Node>>)
    ensures Squeeze(nodes) == nodes <==> forall i :: 0 <= i < |nodes| ==> nodes[i].Some?
  {
    if nodes != [] {
      SqueezeIdentity(nodes[1..]);
      if nodes[0].Some? && Squeeze(nodes) == nodes {
        assert Squeeze(nodes)[1..] == Squeeze(nodes[1..]);
      }
    }
  }

  /** No table has a null slot, or equivalently all free queues are empty. */
  ghost predicate QueuesEmpty(st: State) {
    st.live.deleted == [] && forall k :: k in st.pool ==> st.pool[k].deleted == []
  }

  lemma {:induction false} SqueezeFsIdentity(fs: Fs)
    requires SlotsOk(fs)
    ensures SqueezeFs(fs) == fs <==> fs.deleted == []
    ensures SlotsOk(SqueezeFs(fs)) <==> fs.deleted == []
  {
    SqueezeIdentity(fs.nodes);
    hide Squeeze;
    if fs.deleted != [] {
      assert fs.deleted[0] in fs.deleted;
    } else {
      forall i: nat | i < |fs.nodes| ensures fs.nodes[i].Some? {
        assert i !in fs.deleted;
      }
    }
  }

  // ------------------------------------------------- what a reachable state fits

  /** Every number and length fits its C type; nothing about how they agree. */
  ghost predicate NodeRange(n: Node) {
    && n.h.mode < 0x1_0000_0000 && Fits8(n.h.size) && |n.h.meta| == META && XAttrsFit(n.h.xattrs)
    && (n.body.DirBody? ==> EntriesFit(n.body.children) && Fits8(|n.body.children|))
    && (n.body.SpecialBody? ==> n.body.stype < 0x1_0000_0000)
  }

  ghost predicate FsRange(fs: Fs) {
    && Fits8(|fs.nodes|) && Fits8(|fs.deleted|) && |fs.stat.fixed| == STAT_FIXED
    && forall i: nat :: Live(fs, i) ==> NodeRange(At(fs, i))
  }

  ghost predicate StateRange(st: State) {
    FsRange(st.live) && Fits8(|st.pool|) && forall k :: k in st.pool ==> Fits8(k) && FsRange(st.pool[k])
  }

  /** The agreements the format relies on (class and mode, symlink size and text,
      file size within its blocks, queued numbers in the table) come from the
      invariant. */
  lemma {:induction false} RangeFits(fs: Fs)
    requires Tidy(fs) && FsRange(fs)
    ensures FsFits(fs)
  {
    hide XAttrsFit, EntriesFit, TypeBits, DirSize, ZeroFree;
    TableIff(fs);
    forall i: nat | i < |fs.nodes| && fs.nodes[i].Some? ensures NodeFits(fs.nodes[i].value) {
      assert Live(fs, i) && NodeOk(i, At(fs, i)) && NodeRange(At(fs, i));
    }
    forall i: nat | i < |fs.deleted| ensures Fits8(fs.deleted[i]) {
      assert fs.deleted[i] in fs.deleted;
    }
  }

  lemma {:induction false} TidyFits(st: State)
    requires StateTidy(st) && StateRange(st)
    ensures StateFits(st)
  {
    hide Tidy, FsRange, FsFits;
    RangeFits(st.live);
    forall k | k in st.pool ensures FsFits(st.pool[k]) {
      RangeFits(st.pool[k]);
    }
  }

  /** In a tidy state pickle and load is the identity, and so commutes with any
      restore, exactly when every free queue is empty; otherwise the loaded state
      breaks the slot law, because load drops null slots that the queue still lists. */
  lemma {:induction false} RoundTripIff(st: State, keys: seq<nat>)
    requires StateTidy(st) && StateRange(st) && Lists(keys, st.pool)
    ensures DecState(EncState(st, keys, [])) == Ok(st, []) <==> QueuesEmpty(st)
    ensures SlotsOk(SqueezeState(st).live) <==> st.live.deleted == []
  {
    hide EncState, DecState, Squeeze, Numbered, Lawful, SlotsOk, StateFits, StateRange, SqueezeFs;
    TidyFits(st);
    StateRound(st, keys, []);
    SqueezeFsIdentity(st.live);
    forall k | k in st.pool ensures SqueezeFs(st.pool[k]) == st.pool[k] <==> st.pool[k].deleted == [] {
      SqueezeFsIdentity(st.pool[k]);
    }
    assert SqueezeState(st) == st ==> forall k :: k in st.pool ==> SqueezePool(st.pool)[k] == st.pool[k];
    if QueuesEmpty(st) {
      assert SqueezePool(st.pool) == st.pool;
    }
  }

  lemma {:induction false} SqueezeKeeps(nodes: seq<Option<Node>>)
    ensures forall o :: o in nodes && o.Some? <==> o in Squeeze(nodes)
  {
    if nodes != [] {
      SqueezeKeeps(nodes[1..]);
      assert forall o :: o in nodes <==> o == nodes[0] || o in nodes[1..];
    }
  }

  /** restore(k) after pickle and load also succeeds, with the snapshot's table
      without its null slots; it is the restore done directly exactly when that
      snapshot's free queue is empty, whatever the live table and other snapshots. */
  lemma {:induction false} RestoreAfterLoad(st: State, keys: seq<nat>, key: nat)
    requires StateTidy(st) && StateRange(st) && Lists(keys, st.pool) && key in st.pool
    ensures var loaded := DecState(EncState(st, keys, []));
            && loaded.Ok? && Restore(st, key).1 == Done && Restore(loaded.value, key).1 == Done
            && Restore(loaded.value, key).0.live == SqueezeFs(st.pool[key])
            && (Restore(loaded.value, key).0.live == Restore(st, key).0.live <==> st.pool[key].deleted == [])
  {
    hide EncState, DecState, Squeeze, Numbered, Lawful, StateRange, StateFits;
    TidyFits(st);
    StateRound(st, keys, []);
    var fs := st.pool[key];
    StorableIsCopyable(fs);
    SqueezeFsIdentity(fs);
    SqueezeKeeps(fs.nodes);
    assert fs.nodes[0] in fs.nodes;
    forall i | 0 <= i < |Squeeze(fs.nodes)| ensures Castable(Squeeze(fs.nodes)[i].value) {
      assert Squeeze(fs.nodes)[i] in Squeeze(fs.nodes);
    }
  }

  // ------------------------------------------------------- the laws survive loading

  lemma {:induction false} SqueezeLawful(fs: Fs)
    requires Lawful(fs)
    ensures Lawful(SqueezeFs(fs))
  {
    hide NodeLaw, Squeeze;
    SqueezeKeeps(fs.nodes);
    forall i: nat | Live(SqueezeFs(fs), i) ensures NodeLaw(At(SqueezeFs(fs), i)) {
      var o := Squeeze(fs.nodes)[i];
      assert o in Squeeze(fs.nodes);
      var j :| 0 <= j < |fs.nodes| && fs.nodes[j] == o;
      assert Live(fs, j) && At(fs, j) == o.value;
    }
  }

  /** A request, or a pickle and load of the whole state. */
  datatype Event = Request(op: Op) | Reload

  function Next(st: State, e: Event): State {
    if e.Reload? then SqueezeState(st) else Step(st, e.op).0
  }

  function RunEvents(st: State, es: seq<Event>): State
    decreases |es|
  {
    if es == [] then st else RunEvents(Next(st, es[0]), es[1..])
  }

  ghost predicate TypeKeepingEvents(st: State, es: seq<Event>)
    decreases |es|
  {
    es != [] ==> && (es[0].Request? ==> KeepsType(st.live, es[0].op))
                 && TypeKeepingEvents(Next(st, es[0]), es[1..])
  }

  /** The size law, the block law of each inode, unique names and the agreement of
      class and mode hold after every sequence of requests, checkpoints, restores and
      loads, also of states with null slots. */
  lemma {:induction false} LawfulForever(st: State, es: seq<Event>)
    requires StateLawful(st) && TypeKeepingEvents(st, es)
    ensures StateLawful(RunEvents(st, es))
    decreases |es|
  {
    hide Lawful, FsStep, KeepsType, Squeeze, SqueezeFs;
    if es != [] {
      var e := es[0];
      if e.Reload? {
        SqueezeLawful(st.live);
        forall k | k in st.pool ensures Lawful(SqueezePool(st.pool)[k]) {
          SqueezeLawful(st.pool[k]);
        }
      } else if !e.op.CheckpointOp? && !e.op.RestoreOp? {
        FsStepLawful(st.live, e.op);
      }
      LawfulForever(Next(st, e), es[1..]);
    }
  }

  // ---------------------------------------------- what rename means after any loads

  ghost predicate StateZero(st: State) {
    ZeroHeld(st.live) && forall k :: k in st.pool ==> ZeroHeld(st.pool[k])
  }

  /** No request of the sequence reclaims number 0. */
  ghost predicate ZeroSparingEvents(st: State, es: seq<Event>)
    decreases |es|
  {
    es != [] ==> && (es[0].Request? ==> !Reclaims(st.live, es[0].op, 0))
                 && ZeroSparingEvents(Next(st, es[0]), es[1..])
  }

  lemma {:induction false} SqueezeHoldsZero(fs: Fs)
    requires ZeroHeld(fs)
    ensures ZeroHeld(SqueezeFs(fs))
  {
  }

  /** Requests, restores and loads keep number 0 out of use. */
  lemma {:induction false} ZeroForever(st: State, es: seq<Event>)
    requires StateZero(st) && ZeroSparingEvents(st, es)
    ensures StateZero(RunEvents(st, es))
    decreases |es|
  {
    hide ZeroHeld, FsStep, Reclaims, SqueezeFs;
    if es != [] {
      var e := es[0];
      if e.Reload? {
        SqueezeHoldsZero(st.live);
        forall k | k in st.pool ensures ZeroHeld(SqueezePool(st.pool)[k]) {
          SqueezeHoldsZero(st.pool[k]);
        }
      } else if !e.op.CheckpointOp? && !e.op.RestoreOp? {
        StepHoldsZero(st.live, e.op);
      }
      ZeroForever(Next(st, e), es[1..]);
    }
  }

  /** After any requests, restores and loads from FuseInit on, a rename that answers
      success is one map update exactly when the new name fits or leads to the source
      already, and one that answers an error changes nothing. */
  lemma {:induction false} RenameMeansForever(blocks: word, files: word, fixed: seq<byte>, rootMode: nat,
                                              meta: seq<byte>, es: seq<Event>,
                                              p: nat, name: Name, np: nat, newname: Name)
    requires var s0 := State(Init(blocks, files, fixed, rootMode, meta), map[]);
             TypeKeepingEvents(s0, es) && ZeroSparingEvents(s0, es)
    ensures var fs := RunEvents(State(Init(blocks, files, fixed, rootMode, meta), map[]), es).live;
            var (g, r) := Rename(fs, p, name, np, newname);
            && (r.Error? ==> g == fs)
            && (r == Done ==>
                  var src, dst := ChildIno(Children(fs, p), name), ChildIno(Children(fs, np), newname);
                  Rebound(fs, g, p, name, np, newname, src) <==>
                    RenameFits(fs, p, name, np, newname) || src == dst)
  {
    hide Init, RunEvents, TypeKeepingEvents, ZeroSparingEvents, TableOk, SlotsOk, LinksOk, TreeOk, Lawful;
    hide Move, Replace, Rebound, RenameFits;
    var s0 := State(Init(blocks, files, fixed, rootMode, meta), map[]);
    InitShape(blocks, files, fixed, rootMode, meta);
    InitOk(blocks, files, fixed, rootMode, meta);
    OkIsLawful(s0.live);
    LawfulForever(s0, es);
    ZeroForever(s0, es);
    RenameMeaning(RunEvents(s0, es).live, p, name, np, newname);
  }

  /** In particular from FuseInit on: no removal ever makes a size negative. */
  lemma {:induction false} NoRemovalUnderflows(blocks: word, files: word, fixed: seq<byte>, rootMode: nat,
                                               meta: seq<byte>, es: seq<Event>, d: nat, name: Name)
    requires var s0 := State(Init(blocks, files, fixed, rootMode, meta), map[]); TypeKeepingEvents(s0, es)
    ensures var fs := RunEvents(State(Init(blocks, files, fixed, rootMode, meta), map[]), es).live;
            && (forall i: nat :: Live(fs, i) ==> NodeLaw(At(fs, i)))
            && (IsDir(fs, d) && Find(Children(fs, d), name) < |Children(fs, d)| ==>
                  Cost(name) + DIR_BASE <= At(fs, d).h.size)
  {
    hide Init, NodeLaw, SlotsOk, LinksOk, TreeOk, TableOk, RunEvents, TypeKeepingEvents;
    var s0 := State(Init(blocks, files, fixed, rootMode, meta), map[]);
    InitOk(blocks, files, fixed, rootMode, meta);
    OkIsLawful(s0.live);
    LawfulForever(s0, es);
    var fs := RunEvents(s0, es).live;
    if IsDir(fs, d) && Find(Children(fs, d), name) < |Children(fs, d)| {
      NoNegativeSize(fs, d, name);
    }
  }
}
