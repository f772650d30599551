/** The state file: header with length and digest, then the pickled bytes. */
module StateFile {
  import opened Base
  import opened Codec

  /** A digest with an incremental interface, as SHA-256 is used here. */
  datatype Hasher<!S> = Hasher(init: S, update: (S, seq<byte>) -> S, final: S -> seq<byte>)

  /** Hashing depends on the concatenated input only; digests have 32 bytes. */
  ghost predicate Streaming<S(!new)>(h: Hasher<S>) {
    && (forall s: S, a: seq<byte>, b: seq<byte> :: h.update(h.update(s, a), b) == h.update(s, a + b))
    && (forall s: S :: h.update(s, []) == s)
    && (forall s: S :: |h.final(s)| == 32)
  }

  function Digest<S>(h: Hasher<S>, body: seq<byte>): seq<byte> {
    h.final(h.update(h.init, body))
  }

  lemma {:induction false} NoInput<S(!new)>(h: Hasher<S>)
    requires Streaming(h)
    ensures h.update(h.init, []) == h.init
  {
  }

  lemma {:induction false} MoreInput<S(!new)>(h: Hasher<S>, a: seq<byte>, b: seq<byte>)
    requires Streaming(h)
    ensures h.update(h.update(h.init, a), b) == h.update(h.init, a + b)
  {
  }

  /** What write_and_hash keeps: the file bytes written and the running hash. */
  class Sink<S(!new)> {
    const h: Hasher<S>
    var bytes: seq<byte>
    var ctx: S

    ghost predicate Valid()
      reads this
    {
      Streaming(h) && ctx == h.update(h.init, bytes)
    }

    constructor (h: Hasher<S>)
      requires Streaming(h)
      ensures Valid() && this.h == h && bytes == []
    {
      hide Streaming;
      this.h := h;
      bytes := [];
      ctx := h.init;
      new;
      NoInput(h);
    }

    method WriteAndHash(data: seq<byte>)
      requires Valid()
      modifies this
      ensures Valid() && bytes == old(bytes) + data
    {
      hide Streaming;
      MoreInput(h, bytes, data);
      bytes := bytes + data;
      ctx := h.update(ctx, data);
    }
  }

  const HEADER: nat := 40

  /** The file pickle_verifs2 leaves: its own length, the digest, the body. */
  function StateFileOf<S>(h: Hasher<S>, body: seq<byte>): seq<byte> {
    LE(40 + |body|, 8) + Digest(h, body) + body
  }

  /** Header length equals file length and header digest equals the body's. */
  predicate Accepted<S>(h: Hasher<S>, file: seq<byte>) {
    && |file| >= HEADER
    && UnLE(file[..8]) == |file|
    && file[8..40] == Digest(h, file[40..])
  }

  /** verify_state_file: 0 accepted, 28 (ENOSPC) short header, -1 length, -3 digest. */
  method VerifyStateFile<S(!new)>(h: Hasher<S>, file: seq<byte>) returns (code: int)
    requires Streaming(h)
    ensures code == 0 <==> Accepted(h, file)
    ensures code == 28 <==> |file| < HEADER
    ensures code == -1 <==> |file| >= HEADER && UnLE(file[..8]) != |file|
    ensures code == -3 <==> |file| >= HEADER && UnLE(file[..8]) == |file| && file[8..40] != Digest(h, file[40..])
  {
    hide UnLE;
    if |file| < 40 {
      return 28;
    }
    if |file| != UnLE(file[..8]) {
      return -1;
    }
    var digest := HashBody(h, file[40..]);
    code := if digest == file[8..40] then 0 else -3;
  }

  /** The body, hashed in reads of 4096 bytes. */
  method HashBody<S(!new)>(h: Hasher<S>, body: seq<byte>) returns (digest: seq<byte>)
    requires Streaming(h)
    ensures digest == Digest(h, body)
  {
    hide Streaming;
    var ctx, pos := h.init, 0;
    NoInput(h);
    assert body[..0] == [];
    while pos < |body|
      invariant 0 <= pos <= |body|
      invariant ctx == h.update(h.init, body[..pos])
    {
      var n := if |body| - pos < 4096 then |body| - pos else 4096;
      assert body[..pos] + body[pos..pos + n] == body[..pos + n];
      MoreInput(h, body[..pos], body[pos..pos + n]);
      ctx := h.update(ctx, body[pos..pos + n]);
      pos := pos + n;
    }
    assert body[..pos] == body;
    return h.final(ctx);
  }

  /** Every file pickle_verifs2 produces passes verification, and its body is found
      behind the header. */
  lemma {:induction false} PickledFileVerifies<S(!new)>(h: Hasher<S>, body: seq<byte>)
    requires Streaming(h) && Fits8(40 + |body|)
    ensures Accepted(h, StateFileOf(h, body)) && StateFileOf(h, body)[40..] == body
  {
    hide LE, UnLE;
    var file := StateFileOf(h, body);
    assert |Digest(h, body)| == 32;
    assert file[..8] == LE(40 + |body|, 8) && file[8..40] == Digest(h, body) && file[40..] == body;
    Widths();
    WordRound(40 + |body|, 8);
  }

  /** A file of another length, or with another digest, than its header says is refused. */
  lemma {:induction false} TamperingShows<S(!new)>(h: Hasher<S>, body: seq<byte>, other: seq<byte>)
    requires Streaming(h) && Fits8(40 + |body|)
    requires |other| != |body| || Digest(h, other) != Digest(h, body)
    ensures !Accepted(h, StateFileOf(h, body)[..40] + other)
  {
    hide LE, UnLE;
    var file := StateFileOf(h, body)[..40] + other;
    assert |Digest(h, body)| == 32;
    assert file[..8] == LE(40 + |body|, 8) && file[8..40] == Digest(h, body) && file[40..] == other;
    Widths();
    WordRound(40 + |body|, 8);
  }
}
