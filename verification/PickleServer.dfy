/** pickle_file_system and load_file_system on the server's own objects. */
module PickleServer {
  import opened Base
  import opened Model
  import opened Invariant
  import opened Runs
  import opened Objects
  import opened Server
  import opened Codec
  import opened Pickler
  import opened Slots
  import opened StateCodec
  import opened StateFile

  // ------------------------------------------------------------------ pickling

  method WriteStat<S(!new)>(s: Stat, sink: Sink<S>, ghost rest: seq<byte>)
    requires sink.Valid()
    modifies sink
    ensures sink.Valid() && sink.bytes + rest == old(sink.bytes) + EncStat(s, rest)
  {
    hide LE;
    ghost var b0 := sink.bytes;
    var b := EncStat(s, []);
    StatAppends(s, rest);
    Regroup(b0, b, rest);
    sink.WriteAndHash(b);
  }

  lemma {:induction false} StatAppends(s: Stat, rest: seq<byte>)
    ensures EncStat(s, []) + rest == EncStat(s, rest)
  {
  }

  /** Slot by slot: header, then the inode's own bytes. */
  method WriteTable<S(!new)>(fs: RamFs, files: seq<Inode?>, ghost nodes: seq<Option<Node>>, ghost key: Option<nat>,
                             sink: Sink<S>, ghost rest: seq<byte>)
    requires fs.Tied(files, nodes, key) && sink.Valid()
    modifies sink
    ensures sink.Valid() && sink.bytes + rest == old(sink.bytes) + EncTable(nodes, rest)
  {
    hide LE, EncNode;
    ghost var b0 := sink.bytes;
    for i := 0 to |files|
      invariant sink.Valid() && sink.bytes + EncTable(nodes[i..], rest) == b0 + EncTable(nodes, rest)
    {
      assert nodes[i..][0] == nodes[i] && nodes[i..][1..] == nodes[i + 1..];
      ghost var more, b := EncTable(nodes[i + 1..], rest), sink.bytes;
      if files[i] == null {
        sink.WriteAndHash([0, 0, 0, 0] + LE(0, 4));
        Regroup([0, 0, 0, 0], LE(0, 4), more);
        Regroup(b, [0, 0, 0, 0] + LE(0, 4), more);
      } else {
        assert fs.TiedAt(files[i], nodes[i].value, Home(key, i));
        var n := files[i].Snapshot();
        var data := PickleNode(n, more);
        var header := [1, 0, 0, 0] + LE(n.h.mode, 4);
        sink.WriteAndHash(header);
        sink.WriteAndHash(data);
        Regroup([1, 0, 0, 0], LE(n.h.mode, 4), EncNode(n, more));
        Regroup(b, header, EncNode(n, more));
        Regroup(b + header, data, more);
      }
    }
  }

  /** The pop-push loop over a queue: it writes the queue and ends where it began. */
  method WriteQueue<S(!new)>(q: seq<nat>, sink: Sink<S>, ghost rest: seq<byte>) returns (q': seq<nat>)
    requires sink.Valid()
    modifies sink
    ensures q' == q && sink.Valid() && sink.bytes + rest == old(sink.bytes) + (LE(|q|, 8) + EncQueue(q, rest))
  {
    hide LE;
    ghost var b0 := sink.bytes;
    sink.WriteAndHash(LE(|q|, 8));
    Regroup(b0, LE(|q|, 8), EncQueue(q, rest));
    q' := q;
    for i := 0 to |q|
      invariant q' == q[i..] + q[..i]
      invariant sink.Valid() && sink.bytes + EncQueue(q[i..], rest) == b0 + LE(|q|, 8) + EncQueue(q, rest)
    {
      assert q[i..][0] == q[i] && q[i..][1..] == q[i + 1..];
      Regroup(sink.bytes, LE(q[i], 8), EncQueue(q[i + 1..], rest));
      sink.WriteAndHash(LE(q'[0], 8));
      q' := q'[1..] + [q'[0]];
    }
  }

  /** Inode count, table and queue. */
  method WriteTables<S(!new)>(fs: RamFs, files: seq<Inode?>, q: seq<nat>, ghost f: Fs, ghost key: Option<nat>,
                              sink: Sink<S>, ghost rest: seq<byte>) returns (q': seq<nat>)
    requires fs.Tied(files, f.nodes, key) && q == f.deleted && sink.Valid()
    modifies sink
    ensures q' == q && sink.Valid() && sink.bytes + rest == old(sink.bytes) + EncTables(f, rest)
  {
    hide LE, EncTable, EncQueue;
    ghost var b0 := sink.bytes;
    ghost var r := LE(|q|, 8) + EncQueue(q, rest);
    sink.WriteAndHash(LE(|files|, 8));
    Regroup(b0, LE(|files|, 8), EncTable(f.nodes, r));
    WriteTable(fs, files, f.nodes, key, sink, r);
    q' := WriteQueue(q, sink, rest);
  }

  /** pickle_file_system: live state and pool, the pool in some iteration order. */
  method PickleFileSystem<S(!new)>(fs: RamFs, keys: seq<nat>, sink: Sink<S>)
    requires fs.Valid() && Lists(keys, fs.st.pool) && sink.Valid()
    modifies fs`deleted, sink
    ensures fs.Valid() && fs.deleted == old(fs.deleted) && sink.Valid()
    ensures sink.bytes == old(sink.bytes) + EncState(fs.st, keys, [])
  {
    hide LE, EncTables, EncStat, EncPool, RamFs.TiedAt;
    ghost var b0, st := sink.bytes, fs.st;
    ghost var r1 := EncPool(keys, st.pool, []);
    WriteStat(fs.stbuf.v, sink, EncTables(st.live, LE(|keys|, 8) + r1));
    var q := WriteTables(fs, fs.inodes, fs.deleted, st.live, None, sink, LE(|keys|, 8) + r1);
    fs.deleted := q;
    Regroup(sink.bytes, LE(|keys|, 8), r1);
    sink.WriteAndHash(LE(|keys|, 8));
    WritePool(fs, keys, sink);
    assert sink.bytes + [] == sink.bytes;
  }

  method WritePool<S(!new)>(fs: RamFs, keys: seq<nat>, sink: Sink<S>)
    requires fs.Valid() && Lists(keys, fs.st.pool) && sink.Valid()
    modifies sink
    ensures fs.Valid() && sink.Valid() && sink.bytes + [] == old(sink.bytes) + EncPool(keys, fs.st.pool, [])
  {
    hide LE, EncTables, EncStat, RamFs.Valid;
    ghost var b0, pool := sink.bytes, fs.st.pool;
    for i := 0 to |keys|
      invariant fs.Valid() && sink.Valid()
      invariant sink.bytes + EncPool(keys[i..], pool, []) == b0 + EncPool(keys, pool, [])
    {
      assert keys[i] in keys && keys[i..][0] == keys[i] && keys[i..][1..] == keys[i + 1..];
      WriteSaved(fs, keys[i], sink, EncPool(keys[i + 1..], pool, []));
    }
  }

  /** One pooled state: its key, tables and counters. */
  method WriteSaved<S(!new)>(fs: RamFs, k: nat, sink: Sink<S>, ghost rest: seq<byte>)
    requires fs.Valid() && k in fs.st.pool && sink.Valid()
    modifies sink
    ensures fs.Valid() && sink.Valid()
    ensures var f := fs.st.pool[k];
            sink.bytes + rest == old(sink.bytes) + (LE(k, 8) + EncTables(f, EncStat(f.stat, rest)))
  {
    hide LE, EncTables, EncStat, RamFs.TiedAt;
    ghost var f := fs.st.pool[k];
    ghost var r := EncStat(f.stat, rest);
    Regroup(sink.bytes, LE(k, 8), EncTables(f, r));
    sink.WriteAndHash(LE(k, 8));
    var q := WriteTables(fs, fs.pool[k].files, fs.pool[k].deleted, f, Some(k), sink, r);
    WriteStat(fs.pool[k].stat, sink, rest);
  }

  /** pickle_verifs2: the bytes, then the header in front of them. */
  method PickleVerifs2<S(!new)>(fs: RamFs, keys: seq<nat>, h: Hasher<S>) returns (file: seq<byte>)
    requires fs.Valid() && Lists(keys, fs.st.pool) && Streaming(h)
    modifies fs`deleted
    ensures fs.Valid() && fs.deleted == old(fs.deleted) && file == StateFileOf(h, EncState(fs.st, keys, []))
  {
    hide EncState, LE;
    var sink := new Sink<S>(h);
    PickleFileSystem(fs, keys, sink);
    assert sink.bytes == EncState(fs.st, keys, []);
    var filelen := 40 + |sink.bytes|;
    file := LE(filelen, 8) + h.final(sink.ctx) + sink.bytes;
  }

  // ------------------------------------------------------------------- loading

  lemma {:induction false} LoadedFileFits(mode: nat, bs: seq<byte>)
    requires DecNode(mode, bs).Ok? && DecNode(mode, bs).value.body.FileBody?
    ensures var n := DecNode(mode, bs).value; n.h.size == |n.body.data| && n.h.size <= 512 * n.h.blocks
  {
  }

  /** One slot: the header, and a new object if there is an inode. */
  method LoadSlot(data: seq<byte>, ptr: nat, ghost home: Home) returns (x: Inode?, next: nat)
    requires ptr <= |data| && DecSlot(data[ptr..]).Ok?
    ensures ptr <= next <= |data| && DecSlot(data[ptr..]).rest == data[next..]
    ensures x == null <==> DecSlot(data[ptr..]).value.None?
    ensures x != null ==> fresh(x) && x.home == home && x.Valid() && x.View() == DecSlot(data[ptr..]).value.value
                          && (x.p.FileP? ==> fresh(x.p.buf))
  {
    hide DecNode, Word;
    var exist, mode;
    exist, next := ReadBytes(data, ptr, 4);
    mode, next := ReadWord(data, next, 4);
    if exist[0] == 0 {
      return null, next;
    }
    if DecNode(mode, data[next..]).value.body.FileBody? {
      LoadedFileFits(mode, data[next..]);
    }
    var n;
    n, next := LoadNode(mode, data, next);
    x := new Inode.Load(n, home);
  }

  /** The load loop over a table: null slots are skipped. */
  method LoadTable(fs: RamFs, data: seq<byte>, ptr: nat, n: nat, ghost key: Option<nat>)
    returns (files: seq<Inode?>, next: nat, ghost nodes: seq<Option<Node>>,
             ghost objs: set<object>, ghost own: map<array<byte>, Inode>)
    requires ptr <= |data| && DecTable(n, data[ptr..]).Ok?
    ensures ptr <= next <= |data| && DecTable(n, data[ptr..]) == Ok(nodes, data[next..])
    ensures |files| == |nodes| && fs.Copies(files, nodes, key, own) && fs.InSet(files, own, objs)
    ensures fresh(objs) && forall b :: b in own ==> fresh(b)
  {
    hide DecSlot;
    files, next, nodes, objs, own := [], ptr, [], {}, map[];
    ghost var all := DecTable(n, data[ptr..]);
    for i := 0 to n
      invariant ptr <= next <= |data| && DecTable(n - i, data[next..]).Ok?
      invariant all.value == nodes + DecTable(n - i, data[next..]).value
      invariant all.rest == DecTable(n - i, data[next..]).rest
      invariant |files| == |nodes| && fs.Copies(files, nodes, key, own) && fs.InSet(files, own, objs)
      invariant fresh(objs) && forall b :: b in own ==> fresh(b)
    {
      ghost var o := DecSlot(data[next..]);
      var x;
      x, next := LoadSlot(data, next, Home(key, |files|));
      ghost var more := DecTable(n - i - 1, data[next..]).value;
      if x != null {
        assert nodes + ([o.value] + more) == (nodes + [o.value]) + more;
        ghost var own' := if x.p.FileP? then own[x.p.buf := x] else own;
        fs.CopiesGrow(files, nodes, key, own, own');
        own := own';
        objs := objs + {x} + (if x.p.FileP? then {x.p.buf} else {});
        files, nodes := files + [x], nodes + [o.value];
      }
      else {
        assert nodes + ([] + more) == nodes + more;
      }
    }
    assert all.value == nodes;
  }

  method LoadQueue(data: seq<byte>, ptr: nat, n: nat) returns (q: seq<nat>, next: nat)
    requires ptr <= |data| && DecQueue(n, data[ptr..]).Ok?
    ensures ptr <= next <= |data| && DecQueue(n, data[ptr..]) == Ok(q, data[next..])
  {
    hide Word;
    q, next := [], ptr;
    ghost var all := DecQueue(n, data[ptr..]);
    for i := 0 to n
      invariant ptr <= next <= |data| && DecQueue(n - i, data[next..]).Ok?
      invariant all.value == q + DecQueue(n - i, data[next..]).value
      invariant all.rest == DecQueue(n - i, data[next..]).rest
    {
      var ino;
      ino, next := ReadWord(data, next, 8);
      ghost var more := DecQueue(n - i - 1, data[next..]).value;
      assert q + ([ino] + more) == (q + [ino]) + more;
      q := q + [ino];
    }
    assert all.value == q;
  }

  /** Counts, table and queue of the live state or of one snapshot. */
  method LoadTables(fs: RamFs, data: seq<byte>, ptr: nat, ghost key: Option<nat>)
    returns (files: seq<Inode?>, q: seq<nat>, next: nat, ghost nodes: seq<Option<Node>>, ghost objs: set<object>,
             ghost own: map<array<byte>, Inode>)
    requires ptr <= |data| && DecTables(data[ptr..]).Ok?
    ensures ptr <= next <= |data| && DecTables(data[ptr..]) == Ok((nodes, q), data[next..])
    ensures |files| == |nodes| && fs.Copies(files, nodes, key, own) && fs.InSet(files, own, objs)
    ensures fresh(objs) && forall b :: b in own ==> fresh(b)
  {
    hide Word, DecTable, DecQueue, RamFs.CopyAt;
    var n, m;
    n, next := ReadWord(data, ptr, 8);
    files, next, nodes, objs, own := LoadTable(fs, data, next, n, key);
    m, next := ReadWord(data, next, 8);
    q, next := LoadQueue(data, next, m);
  }

  method LoadStat(data: seq<byte>, ptr: nat) returns (s: Stat, next: nat)
    requires ptr <= |data| && DecStat(data[ptr..]).Ok?
    ensures ptr <= next <= |data| && DecStat(data[ptr..]) == Ok(s, data[next..])
  {
    hide Word, Take;
    var a, b, c, d, e, f, g;
    a, next := ReadWord(data, ptr, 8);
    b, next := ReadWord(data, next, 8);
    c, next := ReadWord(data, next, 8);
    d, next := ReadWord(data, next, 8);
    e, next := ReadWord(data, next, 8);
    f, next := ReadWord(data, next, 8);
    g, next := ReadBytes(data, next, STAT_FIXED);
    s := Stat(Wrap(a), Wrap(b), Wrap(c), Wrap(d), Wrap(e), Wrap(f), g);
  }

  /** load_file_system into a server whose tables and pool are dropped first, as
      load_verifs2 does.  The bytes must be those of some pickled state. */
  method LoadFileSystem(fs: RamFs, data: seq<byte>) returns (used: nat)
    requires fs.Valid() && DecState(data).Ok?
    modifies fs, fs.stbuf
    ensures fs.Valid() && fresh(fs.repr - old(fs.repr))
    ensures used <= |data| && DecState(data) == Ok(fs.st, data[used..])
  {
    hide Word, DecStat, DecTables, DecPool, RamFs.Tied, RamFs.CopyAt;
    assert data[0..] == data;
    var s, next := LoadStat(data, 0);
    ghost var nodes, objs, own;
    var files, q;
    files, q, next, nodes, objs, own := LoadTables(fs, data, next, None);
    fs.pool, fs.inodes, fs.deleted := map[], files, q;
    fs.stbuf.v := s;
    fs.repr, fs.owner := fs.repr + objs, fs.owner + own;
    fs.st := State(Fs(nodes, q, s), map[]);
    fs.LiveReplaced(own, objs);
    var n;
    n, next := ReadWord(data, next, 8);
    used := LoadPool(fs, data, next, n);
  }

  /** The loop over the pickled pool. */
  method LoadPool(fs: RamFs, data: seq<byte>, ptr: nat, n: nat) returns (next: nat)
    requires fs.Valid() && ptr <= |data| && DecPool(n, fs.st.pool, data[ptr..]).Ok?
    modifies fs
    ensures fs.Valid() && fresh(fs.repr - old(fs.repr)) && fs.st.live == old(fs.st.live)
    ensures ptr <= next <= |data| && DecPool(n, old(fs.st.pool), data[ptr..]) == Ok(fs.st.pool, data[next..])
  {
    hide Word, DecStat, DecTables, RamFs.Valid;
    next := ptr;
    for i := 0 to n
      invariant fs.Valid() && fresh(fs.repr - old(fs.repr)) && fs.st.live == old(fs.st.live)
      invariant ptr <= next <= |data|
      invariant DecPool(n - i, fs.st.pool, data[next..]) == DecPool(n, old(fs.st.pool), data[ptr..])
    {
      ghost var nodes, objs, own;
      var key, files, q, s;
      key, next := ReadWord(data, next, 8);
      files, q, next, nodes, objs, own := LoadTables(fs, data, next, Some(key));
      s, next := LoadStat(data, next);
      var ret := fs.InsertState(key, Saved(files, q, s), Fs(nodes, q, s), own, objs);
    }
  }

  /** load_verifs2: verify, then load; a refused file leaves the server alone. */
  method LoadVerifs2<S(!new)>(fs: RamFs, h: Hasher<S>, file: seq<byte>) returns (res: int)
    requires fs.Valid() && Streaming(h)
    requires Accepted(h, file) ==> DecState(file[40..]).Ok?
    modifies fs, fs.stbuf
    ensures fs.Valid() && fresh(fs.repr - old(fs.repr))
    ensures res == 0 <==> Accepted(h, file)
    ensures res == 0 ==> DecState(file[40..]).Ok? && fs.st == DecState(file[40..]).value
    ensures res != 0 ==> fs.st == old(fs.st)
  {
    hide RamFs.Valid, DecState, Digest, UnLE;
    var code := VerifyStateFile(h, file);
    if code > 0 {
      return 0 - code;
    } else if code == -1 {
      return -90;
    } else if code == -3 {
      return -22;
    }
    var used := LoadFileSystem(fs, file[40..]);
    res := 0;
  }

  /** A pickled file is accepted, and loading it gives every table without its null
      slots, the queues, the counters and the pool, with no byte left over. */
  lemma {:induction false} PickledFileLoads<S(!new)>(h: Hasher<S>, st: State, keys: seq<nat>)
    requires Streaming(h) && StateTidy(st) && StateRange(st) && Lists(keys, st.pool)
    requires Fits8(40 + |EncState(st, keys, [])|)
    ensures var file := StateFileOf(h, EncState(st, keys, []));
            Accepted(h, file) && DecState(file[40..]) == Ok(SqueezeState(st), [])
  {
    hide EncState, DecState, StateFits, StateRange, StateTidy;
    TidyFits(st);
    PickledFileVerifies(h, EncState(st, keys, []));
    StateRound(st, keys, []);
  }
}
