// The streaming hash of a sample: size guards before and while reading, and a
// deadline check every 64 chunks.
module HashSample {
  import opened Basics

  const CHUNK := 8192
  const CHUNKS_PER_CHECK := 64
  const MIB := 1048576
  const DEFAULT_MB := 500

  /** The size cap; a missing, unparsable (None) or non-positive setting falls back to the default. */
  function MaxSampleBytes(setting: Option<int>): (limit: nat)
    ensures limit > 0 && limit % MIB == 0
    ensures setting.Some? && setting.value > 0 ==> limit == setting.value * MIB
    ensures setting.None? || setting.value <= 0 ==> limit == 524288000
  {
    var mb := if setting.Some? && setting.value > 0 then setting.value else DEFAULT_MB;
    mb * MIB
  }

  /** `hashed` is how much had been fed to the digest when the deadline was found spent. */
  datatype Result<D> = Hashed(digest: D, size: nat) | TooLarge(size: nat, limit: nat) | Late(hashed: nat)

  /** The content the streaming guard lets through: whole chunks up to the first one that starts beyond the cap. */
  function Tolerated(limit: nat): nat {
    CHUNK * (limit / CHUNK + 1)
  }

  lemma ToleratedIsOneChunkMore(limit: nat)
    requires limit % MIB == 0
    ensures Tolerated(limit) == limit + CHUNK
  {
    assert limit == MIB * (limit / MIB);
    assert MIB == CHUNK * 128;
    assert limit == CHUNK * (128 * (limit / MIB));
    assert limit / CHUNK == 128 * (limit / MIB);
  }

  /** No check up to the `n`-th chunk found the deadline spent; check 0 precedes the reading. */
  ghost predicate InTime(late: nat -> bool, n: nat) {
    forall k: nat :: CHUNKS_PER_CHECK * k <= n ==> !late(k)
  }

  /** How many chunks a content of this length is read in. */
  function ChunksOf(length: nat): nat { (length + CHUNK - 1) / CHUNK }

  /**
    Hashes what the file holds. `onDisk` is the size found before opening, `late(k)` says the k-th deadline check
    fails; without a deadline it never does.
   */
  method HashFile<D>(content: seq<byte>, onDisk: Option<nat>, limit: nat, late: nat -> bool, digestOf: seq<byte> -> D)
    returns (r: Result<D>)
    ensures !late(0) && onDisk.Some? && onDisk.value > limit ==> r == TooLarge(onDisk.value, limit)
    ensures r.Hashed? ==> r.digest == digestOf(content) && r.size == |content| <= Tolerated(limit)
    ensures r.Hashed? ==> InTime(late, ChunksOf(|content|))
    ensures r.TooLarge? && !(onDisk.Some? && onDisk.value > limit) ==>
      r == TooLarge(Tolerated(limit), limit) && |content| > Tolerated(limit)
    ensures r.TooLarge? ==> !late(0)
    ensures r.Late? ==> exists k: nat ::
      && late(k) && (forall j: nat :: j < k ==> !late(j))
      && r.hashed == (if k == 0 then 0 else CHUNK * (CHUNKS_PER_CHECK * k - 1))
      && r.hashed <= |content| && r.hashed <= Tolerated(limit)
  {
    var fed: seq<byte> := [];
    var size, chunks := 0, 0;
    if late(0) { return Late(0); }
    if onDisk.Some? && onDisk.value > limit { return TooLarge(onDisk.value, limit); }
    while size < |content|
      invariant size == |fed| <= |content| && fed == content[..size]
      invariant size == CHUNK * chunks || size == |content|
      invariant chunks == ChunksOf(size) && size <= Tolerated(limit)
      invariant InTime(late, chunks)
      decreases |content| - size
    {
      var end := if size + CHUNK <= |content| then size + CHUNK else |content|;
      chunks := chunks + 1;
      if chunks % CHUNKS_PER_CHECK == 0 && late(chunks / CHUNKS_PER_CHECK) {
        return Late(size);
      }
      if size > limit { return TooLarge(size, limit); }
      fed := fed + content[size..end];
      size := end;
    }
    assert fed == content;
    return Hashed(digestOf(fed), size);
  }
}
