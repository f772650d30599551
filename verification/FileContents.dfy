/** What reading returns after writing and truncating, byte by byte. */
module FileContents {
  import opened Base
  import opened Model
  import opened Invariant

  function Data(fs: Fs, i: nat): seq<byte>
    requires IsFile(fs, i)
  {
    At(fs, i).body.data
  }

  /** A byte of the file, or zero beyond its end. */
  function ByteAt(c: seq<byte>, k: nat): byte {
    if k < |c| then c[k] else 0
  }

  /** No inode but one, and no counter but the block counters, is different. */
  ghost predicate OnlyFile(fs: Fs, g: Fs, i: nat) {
    && |g.nodes| == |fs.nodes| && g.deleted == fs.deleted
    && (forall j: nat :: j < |fs.nodes| && j != i ==> g.nodes[j] == fs.nodes[j])
    && g.stat == fs.stat.(bfree := g.stat.bfree, bavail := g.stat.bavail)
  }

  /** After a write the file holds the data where it was put, what it held elsewhere,
      and zeros in a gap (a write of no bytes beyond the end extends the file); reading
      the place gives the data back; an error or a short count changes nothing. */
  lemma {:induction false} WriteThenRead(fs: Fs, ino: nat, data: seq<byte>, off: nat, mem: bool)
    requires IsFile(fs, ino) && !Gone(fs, ino)
    ensures var (g, r) := Write(fs, ino, data, off, mem);
            if r == Wrote(|data|) && (mem || data != []) then
              && IsFile(g, ino) && OnlyFile(fs, g, ino)
              && |Data(g, ino)| == (if off + |data| > |Data(fs, ino)| then off + |data| else |Data(fs, ino)|)
              && (forall k: nat :: ByteAt(Data(g, ino), k)
                                   == if off <= k < off + |data| then data[k - off] else ByteAt(Data(fs, ino), k))
              && Read(g, ino, |data|, off) == Bytes(data)
            else r.Error? || data != [] ==> g == fs
  {
  }

  /** After a truncate the file has the new length, keeps its bytes up to there, and
      is zero from the old end on, however often it shrank before. */
  lemma {:induction false} TruncateThenRead(fs: Fs, ino: nat, size: nat, mem: bool)
    requires IsFile(fs, ino) && !Gone(fs, ino)
    ensures var (g, r) := Truncate(fs, ino, size, mem);
            if r == Done then
              && IsFile(g, ino) && OnlyFile(fs, g, ino) && |Data(g, ino)| == size
              && (forall k: nat :: ByteAt(Data(g, ino), k) == if k < size then ByteAt(Data(fs, ino), k) else 0)
            else g == fs
  {
  }

  /** Exactly when the blocks to be added are not free, truncate answers ENOSPC with the
      wrong sign. */
  lemma {:induction false} TruncateRefusesIff(fs: Fs, ino: nat, size: nat, mem: bool)
    requires IsFile(fs, ino) && !Gone(fs, ino) && NodeLaw(At(fs, ino))
    ensures Truncate(fs, ino, size, mem).1 == Negated(ENOSPC) <==>
              NBlocks(size) - NBlocks(|Data(fs, ino)|) > fs.stat.bfree
  {
  }

  /** Shrinking and growing again leaves zeros, not the old bytes. */
  lemma {:induction false} ShrinkThenGrow(fs: Fs, ino: nat, small: nat, large: nat, mem: bool)
    requires IsFile(fs, ino) && !Gone(fs, ino) && small <= large
    requires Truncate(fs, ino, small, mem).1 == Done
    requires Truncate(Truncate(fs, ino, small, mem).0, ino, large, mem).1 == Done
    ensures var g := Truncate(Truncate(fs, ino, small, mem).0, ino, large, mem).0;
            IsFile(g, ino) && |Data(g, ino)| == large
            && forall k: nat :: small <= k < large ==> Data(g, ino)[k] == 0
  {
  }

  // --------------------------------------------------------------------- the answers

  /** What write answers: for a file, whether the data fits its blocks or the blocks to
      be added are free, and whether memory for them was had. */
  lemma {:induction false} WriteAnswers(fs: Fs, ino: nat, data: seq<byte>, off: nat, mem: bool)
    requires Live(fs, ino) ==> NodeLaw(At(fs, ino))
    ensures Write(fs, ino, data, off, mem).1
            == if Gone(fs, ino) then Error(ENOENT) else
               match At(fs, ino).body
               case SpecialBody(_) => Error(ENOENT)
               case DirBody(_) => Error(EISDIR)
               case LinkBody(_) => Error(EISDIR)
               case FileBody(c) =>
                 var more := NBlocks(off + |data|) - NBlocks(|c|);
                 if more > fs.stat.bfree then Error(ENOSPC)
                 else if more > 0 && !mem then Wrote(0)
                 else Wrote(|data|)
  {
    if IsFile(fs, ino) {
      BlocksGrow(|Data(fs, ino)|, off + |data|);
    }
    hide NBlocks, Overwrite;
  }

  /** More blocks are needed exactly beyond the end of the last one. */
  lemma {:induction false} BlocksGrow(len: nat, end: nat)
    ensures end > 512 * NBlocks(len) <==> NBlocks(end) > NBlocks(len)
    ensures end > 512 * NBlocks(len) ==> end > len
    ensures end <= len ==> NBlocks(end) <= NBlocks(len)
  {
  }

  /** What truncate answers. */
  lemma {:induction false} TruncateAnswers(fs: Fs, ino: nat, size: nat, mem: bool)
    requires Live(fs, ino) ==> NodeLaw(At(fs, ino))
    ensures Truncate(fs, ino, size, mem).1
            == if Gone(fs, ino) then Error(ENOENT) else
               match At(fs, ino).body
               case DirBody(_) => Error(EISDIR)
               case LinkBody(_) => Error(EINVAL)
               case SpecialBody(_) => Error(EINVAL)
               case FileBody(c) =>
                 if NBlocks(size) - NBlocks(|c|) > fs.stat.bfree then Negated(ENOSPC)
                 else if NBlocks(size) !in {0, NBlocks(|c|)} && !mem then Error(EINVAL)
                 else Done
  {
    if IsFile(fs, ino) {
      BlocksGrow(|Data(fs, ino)|, size);
    }
    hide NBlocks, Resized;
  }

  /** What read answers: the bytes from the offset on, up to the size asked for or the
      end of the file. */
  lemma {:induction false} ReadAnswers(fs: Fs, ino: nat, size: nat, off: nat)
    ensures var r := Read(fs, ino, size, off);
            if Gone(fs, ino) then r == Error(ENOENT) else
            match At(fs, ino).body
            case SpecialBody(_) => r == Error(ENOENT)
            case DirBody(_) => r == Error(EISDIR)
            case LinkBody(_) => r == Error(EISDIR)
            case FileBody(c) =>
              && r.Bytes?
              && |r.data| == (if off >= |c| then 0 else if off + size <= |c| then size else |c| - off)
              && forall k :: 0 <= k < |r.data| ==> r.data[k] == c[off + k]
  {
  }
}
