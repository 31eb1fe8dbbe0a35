/** Reading one frame's binary snapshot back into a particle set, as
    `read_data` in src/main.cpp does. The data directory is a map from file
    name to the file's bytes; how a record of `sizeof(particle)` bytes is
    reinterpreted as a particle is the `decode` parameter. */
module Snapshot {
  import opened Particles
  import opened FileNames

  type Byte = bv8

  /** The files that exist, by name, with their contents. */
  type FileSystem = map<string, seq<Byte>>

  /** The particle set handed to `read_data`: the particles in the order they
      were inserted. */
  class ParticleSet {
    var members: seq<Particle>

    constructor ()
      ensures members == []
    {
      members := [];
    }

    method Insert(p: Particle)
      modifies this
      ensures members == old(members) + [p]
    {
      members := members + [p];
    }
  }

  /** How many whole records of `size` bytes a file of `length` bytes holds:
      the trailing partial record, if any, is dropped. */
  function RecordCount(length: nat, size: nat): (n: nat)
    requires size > 0
    ensures n * size <= length < n * size + size
  {
    length / size
  }

  /** The particles a file holds: one per whole record, read front to back. */
  function Records(data: seq<Byte>, size: nat, decode: seq<Byte> -> Particle): (ps: seq<Particle>)
    requires size > 0
    decreases |data|
  {
    if |data| < size then []
    else [decode(data[..size])] + Records(data[size..], size, decode)
  }

  /** There is one particle per whole record. */
  lemma {:induction false} RecordsLength(data: seq<Byte>, size: nat, decode: seq<Byte> -> Particle)
    requires size > 0
    ensures |Records(data, size, decode)| == RecordCount(|data|, size)
    decreases |data|
  {
    if |data| >= size {
      var rest := data[size..];
      RecordsLength(rest, size, decode);
      QuotientStep(|rest|, size);
    }
  }

  /** Division is the unique way to write `a` as `q * size + r` with
      `0 <= r < size`. */
  lemma DivisionUnique(a: int, size: int, q: int, r: int)
    requires size > 0 && a == q * size + r && 0 <= r < size
    ensures a / size == q && a % size == r
  {
    var q', r' := a / size, a % size;
    assert (q - q') * size == r' - r;
    if q > q' {
      MultiplyAtLeast(q - q', size);
    } else if q < q' {
      MultiplyAtLeast(q' - q, size);
    }
  }

  lemma MultiplyAtLeast(d: int, size: int)
    requires d >= 1 && size > 0
    ensures d * size >= size
  {
    assert d * size == (d - 1) * size + size;
  }

  lemma QuotientStep(m: nat, size: nat)
    requires size > 0
    ensures (m + size) / size == m / size + 1
    ensures (m + size) % size == m % size
  {
    var q, r := m / size, m % size;
    assert m + size == (q + 1) * size + r;
    DivisionUnique(m + size, size, q + 1, r);
  }

  /** Bytes after the last whole record are never read. */
  lemma {:induction false} TrailingBytesIgnored(data: seq<Byte>, extra: seq<Byte>, size: nat, decode: seq<Byte> -> Particle)
    requires size > 0 && |data| % size == 0 && |extra| < size
    ensures Records(data + extra, size, decode) == Records(data, size, decode)
    decreases |data|
  {
    if |data| >= size {
      var rest := data[size..];
      assert (data + extra)[..size] == data[..size];
      assert (data + extra)[size..] == rest + extra;
      QuotientStep(|rest|, size);
      TrailingBytesIgnored(rest, extra, size, decode);
    } else {
      assert |data| == 0;
    }
  }

  /** The reading loop of `read_data`: `length / sizeof(particle)` records,
      each read from where the previous one ended and inserted. */
  method ReadRecords(particles: ParticleSet, data: seq<Byte>, size: nat, decode: seq<Byte> -> Particle)
    requires particles.members == []
    requires size > 0
    modifies particles
    ensures particles.members == Records(data, size, decode)
  {
    var count := |data| / size;
    RecordsLength(data, size, decode);
    ghost var all := Records(data, size, decode);
    var pos := 0;
    for i := 0 to count
      invariant pos <= |data|
      invariant all == particles.members + Records(data[pos..], size, decode)
      invariant |particles.members| == i
    {
      var temp := decode(data[pos..pos + size]);
      assert data[pos..][..size] == data[pos..pos + size];
      assert data[pos..][size..] == data[pos + size..];
      particles.Insert(temp);
      pos := pos + size;
    }
  }

  /** `read_data(particles, frame)`: the set must be empty; if the frame's
      binary file does not exist nothing is read and the answer is false,
      otherwise every whole record is inserted, in file order. */
  method ReadData(particles: ParticleSet, fs: FileSystem, frame: nat, size: nat, decode: seq<Byte> -> Particle)
    returns (found: bool)
    requires particles.members == []
    requires size > 0
    modifies particles
    ensures found <==> DataFileName(frame, true) in fs
    ensures found ==> particles.members == Records(fs[DataFileName(frame, true)], size, decode)
    ensures !found ==> particles.members == []
  {
    var name := GenFilename(frame, true);
    if name !in fs {
      return false;
    }
    ReadRecords(particles, fs[name], size, decode);
    return true;
  }
}
