/** The Dropbox content hash: of a whole file, and of a stream in pieces
    (dropbox/internal/dropbox/client.go, dropbox/internal/dropbox/mirror.go). */
module ContentHash {
  newtype byte = x: int | 0 <= x < 256

  type Bytes = seq<byte>

  // contentHashBlockSize
  const BLOCK: nat := 4 * 1024 * 1024

  // A digest function, and the rendering of its result.
  datatype Config = Config(sha: Bytes -> Bytes, hex: Bytes -> string)

  // ---- The simple form ------------------------------------------------------

  // The digests of the blocks, end to end; the last block may be short.
  function Digests(cfg: Config, data: Bytes): Bytes {
    if data == [] then []
    else if |data| <= BLOCK then cfg.sha(data)
    else cfg.sha(data[..BLOCK]) + Digests(cfg, data[BLOCK..])
  }

  function HashOf(cfg: Config, data: Bytes): string {
    cfg.hex(cfg.sha(Digests(cfg, data)))
  }

  lemma {:induction false} DigestsStep(cfg: Config, data: Bytes, off: nat, end: nat)
    requires off < |data| && end == if off + BLOCK > |data| then |data| else off + BLOCK
    ensures Digests(cfg, data[off..]) == cfg.sha(data[off..end]) + Digests(cfg, data[end..])
  {
    var rest := data[off..];
    if |rest| <= BLOCK {
      assert data[off..end] == rest && data[end..] == [];
      assert cfg.sha(rest) + [] == cfg.sha(rest);
    } else {
      assert rest[..BLOCK] == data[off..end] && rest[BLOCK..] == data[end..];
    }
  }

  // ContentHash
  method ContentHash(cfg: Config, data: Bytes) returns (hash: string)
    ensures hash == HashOf(cfg, data)
  {
    hide Digests;
    var overall: Bytes := [];
    var off := 0;
    assert data[0..] == data && overall + Digests(cfg, data) == Digests(cfg, data);
    while off < |data|
      invariant 0 <= off
      invariant overall + Digests(cfg, if off < |data| then data[off..] else []) == Digests(cfg, data)
    {
      var end := off + BLOCK;
      if end > |data| {
        end := |data|;
      }
      DigestsStep(cfg, data, off, end);
      assert (overall + cfg.sha(data[off..end])) + Digests(cfg, data[end..]) == overall + (cfg.sha(data[off..end]) + Digests(cfg, data[end..]));
      assert off + BLOCK >= |data| ==> data[end..] == [];
      overall := overall + cfg.sha(data[off..end]);
      off := off + BLOCK;
    }
    NoDigests(cfg);
    assert overall + [] == overall;
    return cfg.hex(cfg.sha(overall));
  }

  lemma NoDigests(cfg: Config)
    ensures Digests(cfg, []) == []
  {
  }

  // ---- The streaming form ---------------------------------------------------

  // What the two digests have taken in: the finished blocks' digests, and the bytes of the block begun.
  datatype Stream = Stream(overall: Bytes, block: Bytes)

  const FRESH := Stream([], [])

  function Absorbed(cfg: Config, s: Stream, p: Bytes): Stream
    requires |s.block| < BLOCK
    decreases |p|
  {
    if p == [] then s
    else
      var n := if BLOCK - |s.block| > |p| then |p| else BLOCK - |s.block|;
      var block := s.block + p[..n];
      Absorbed(cfg, if |block| == BLOCK then Stream(s.overall + cfg.sha(block), []) else Stream(s.overall, block), p[n..])
  }

  function Summed(cfg: Config, s: Stream): string {
    cfg.hex(cfg.sha(if s.block == [] then s.overall else s.overall + cfg.sha(s.block)))
  }

  class StreamingContentHash {
    const cfg: Config
    var overall: Bytes
    var block: Bytes
    var inBlock: nat

    ghost predicate Valid()
      reads this
    {
      inBlock == |block| < BLOCK
    }

    function State(): Stream
      reads this
    {
      Stream(overall, block)
    }

    constructor (cfg: Config)
      ensures Valid() && this.cfg == cfg && State() == FRESH
    {
      this.cfg := cfg;
      overall, block, inBlock := [], [], 0;
    }

    method Write(data: Bytes) returns (n: nat)
      requires Valid()
      modifies this
      ensures Valid() && n == |data| && State() == Absorbed(cfg, old(State()), data)
    {
      var p := data;
      while |p| > 0
        invariant Valid()
        invariant Absorbed(cfg, State(), p) == Absorbed(cfg, old(State()), data)
        decreases |p|
      {
        var k := BLOCK - inBlock;
        if k > |p| {
          k := |p|;
        }
        block := block + p[..k];
        inBlock := inBlock + k;
        p := p[k..];
        if inBlock == BLOCK {
          overall := overall + cfg.sha(block);
          block, inBlock := [], 0;
        }
      }
      return |data|;
    }

    // Closes the block begun; the result does not change when asked again.
    method Sum() returns (hash: string)
      requires Valid()
      modifies this
      ensures Valid() && hash == Summed(cfg, old(State())) && Summed(cfg, State()) == hash && block == []
    {
      if inBlock != 0 {
        overall := overall + cfg.sha(block);
        block, inBlock := [], 0;
      }
      return cfg.hex(cfg.sha(overall));
    }
  }

  // ---- Equal -----------------------------------------------------------------

  // The digests of what was taken in, were it to end here.
  function Closed(cfg: Config, s: Stream): Bytes {
    if s.block == [] then s.overall else s.overall + cfg.sha(s.block)
  }

  lemma {:induction false} AbsorbedStays(cfg: Config, s: Stream, p: Bytes)
    requires |s.block| < BLOCK
    ensures |Absorbed(cfg, s, p).block| < BLOCK
    decreases |p|
  {
    if p != [] {
      var n := if BLOCK - |s.block| > |p| then |p| else BLOCK - |s.block|;
      var block := s.block + p[..n];
      AbsorbedStays(cfg, if |block| == BLOCK then Stream(s.overall + cfg.sha(block), []) else Stream(s.overall, block), p[n..]);
    }
  }

  // Taking in two pieces is taking in both at once, wherever the cut is.
  lemma {:induction false} AbsorbedConcat(cfg: Config, s: Stream, a: Bytes, b: Bytes)
    requires |s.block| < BLOCK
    ensures |Absorbed(cfg, s, a).block| < BLOCK && Absorbed(cfg, Absorbed(cfg, s, a), b) == Absorbed(cfg, s, a + b)
    decreases |a|
  {
    AbsorbedStays(cfg, s, a);
    if a == [] {
      assert a + b == b;
    } else {
      var room := BLOCK - |s.block|;
      if |a| < room {
        ShortPiece(cfg, s, a, b);
      } else {
        var next := Stream(s.overall + cfg.sha(s.block + a[..room]), []);
        assert (a + b)[..room] == a[..room] && (a + b)[room..] == a[room..] + b;
        AbsorbedConcat(cfg, next, a[room..], b);
      }
    }
  }

  // A piece that does not fill the block only lengthens it.
  lemma ShortPiece(cfg: Config, s: Stream, a: Bytes, b: Bytes)
    requires |s.block| < BLOCK && 0 < |a| < BLOCK - |s.block|
    ensures Absorbed(cfg, s, a) == Stream(s.overall, s.block + a)
    ensures Absorbed(cfg, Stream(s.overall, s.block + a), b) == Absorbed(cfg, s, a + b)
  {
    assert a[..|a|] == a && a[|a|..] == [];
    var t := Stream(s.overall, s.block + a);
    if b == [] {
      assert a + b == a;
    } else {
      var m := if BLOCK - |t.block| > |b| then |b| else BLOCK - |t.block|;
      assert (a + b)[..|a| + m] == a + b[..m] && (a + b)[|a| + m..] == b[m..];
      assert t.block + b[..m] == s.block + (a + b)[..|a| + m];
    }
  }

  // The digests that a stream ends with are those of the bytes of its blocks followed by what it took in.
  lemma {:induction false} AbsorbedDigests(cfg: Config, s: Stream, p: Bytes)
    requires |s.block| < BLOCK
    ensures Closed(cfg, Absorbed(cfg, s, p)) == s.overall + Digests(cfg, s.block + p)
    decreases |p|
  {
    if p == [] {
      assert s.block + p == s.block;
      assert s.overall + [] == s.overall;
    } else {
      var n := if BLOCK - |s.block| > |p| then |p| else BLOCK - |s.block|;
      var block := s.block + p[..n];
      var all := s.block + p;
      assert all[..|block|] == block && all[|block|..] == p[n..];
      if |block| == BLOCK {
        AbsorbedDigests(cfg, Stream(s.overall + cfg.sha(block), []), p[n..]);
        assert [] + p[n..] == p[n..];
        FullBlock(cfg, all);
        assert (s.overall + cfg.sha(block)) + Digests(cfg, p[n..]) == s.overall + (cfg.sha(block) + Digests(cfg, p[n..]));
      } else {
        assert p[n..] == [] && block == all;
      }
    }
  }

  lemma FullBlock(cfg: Config, all: Bytes)
    requires |all| >= BLOCK
    ensures Digests(cfg, all) == cfg.sha(all[..BLOCK]) + Digests(cfg, all[BLOCK..])
  {
    if |all| == BLOCK {
      assert all[..BLOCK] == all && all[BLOCK..] == [];
      assert cfg.sha(all) + [] == cfg.sha(all);
    }
  }

  function Joined(chunks: seq<Bytes>): Bytes {
    if chunks == [] then [] else Joined(chunks[..|chunks| - 1]) + chunks[|chunks| - 1]
  }

  // Streaming is whole-file hashing: for any bytes and any way to cut them into successive writes,
  // the sum is the content hash of the whole.
  lemma StreamIsWhole(cfg: Config, data: Bytes)
    ensures Summed(cfg, Absorbed(cfg, FRESH, data)) == HashOf(cfg, data)
  {
    AbsorbedDigests(cfg, FRESH, data);
    assert [] + data == data && [] + Digests(cfg, data) == Digests(cfg, data);
  }

  // A copy through the hasher in pieces, as the mirror writes a download.
  method HashInPieces(cfg: Config, chunks: seq<Bytes>) returns (hash: string)
    ensures hash == HashOf(cfg, Joined(chunks))
  {
    var h := new StreamingContentHash(cfg);
    for i := 0 to |chunks|
      invariant fresh(h) && h.Valid() && h.cfg == cfg
      invariant h.State() == Absorbed(cfg, FRESH, Joined(chunks[..i]))
    {
      assert chunks[..i + 1][..i] == chunks[..i];
      AbsorbedConcat(cfg, FRESH, Joined(chunks[..i]), chunks[i]);
      var n := h.Write(chunks[i]);
    }
    assert chunks[..|chunks|] == chunks;
    StreamIsWhole(cfg, Joined(chunks));
    hash := h.Sum();
  }
}
