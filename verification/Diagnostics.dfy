/**
 The buffers that keep the end of a child process's diagnostics: `tailBuffer` of
 internal/speech/whispercpp/persistent.go and `rollingBuffer` of
 internal/model/persistent_process.go.
 */
module Diagnostics {
  import opened Prelude

  const ROLLING_LIMIT := 64 * 1024

  /** The last `limit` elements, or all if there are fewer. */
  function Tail<T>(s: seq<T>, limit: nat): (r: seq<T>)
    ensures |r| <= limit && |r| <= |s|
  {
    if |s| > limit then s[|s| - limit..] else s
  }

  /** It is an end of the whole, and as long as it can be. */
  lemma TailMeaning<T>(s: seq<T>, limit: nat)
    ensures s[..|s| - |Tail(s, limit)|] + Tail(s, limit) == s
    ensures |Tail(s, limit)| == if |s| < limit then |s| else limit
  {
  }

  function Concat<T>(chunks: seq<seq<T>>): seq<T> {
    if chunks == [] then [] else Concat(chunks[..|chunks| - 1]) + chunks[|chunks| - 1]
  }

  /** What a buffer holds after these writes, trimming after each. */
  function Kept<T>(chunks: seq<seq<T>>, limit: nat): seq<T> {
    if chunks == [] then [] else Tail(Kept(chunks[..|chunks| - 1], limit) + chunks[|chunks| - 1], limit)
  }

  lemma DropTwice<T>(s: seq<T>, cut: nat, more: seq<T>)
    requires cut <= |s|
    ensures s[cut..] + more == (s + more)[cut..]
    ensures forall k | 0 <= k <= |s| + |more| - cut :: (s[cut..] + more)[k..] == (s + more)[cut + k..]
  {
  }

  /** Bytes that were trimmed away earlier would be trimmed away now. */
  lemma TailForgets<T>(before: seq<T>, more: seq<T>, limit: nat)
    ensures Tail(Tail(before, limit) + more, limit) == Tail(before + more, limit)
  {
    if |before| > limit {
      DropTwice(before, |before| - limit, more);
      assert |before[|before| - limit..] + more| == limit + |more|;
    }
  }

  /** Trimming after every write keeps exactly the end of everything written. */
  lemma {:induction false} KeptIsTail<T>(chunks: seq<seq<T>>, limit: nat)
    ensures Kept(chunks, limit) == Tail(Concat(chunks), limit)
  {
    if chunks != [] {
      KeptIsTail(chunks[..|chunks| - 1], limit);
      TailForgets(Concat(chunks[..|chunks| - 1]), chunks[|chunks| - 1], limit);
    }
  }

  /** How the writes were cut up does not matter. */
  lemma ChunkingDoesNotMatter<T>(a: seq<seq<T>>, b: seq<seq<T>>, limit: nat)
    requires Concat(a) == Concat(b)
    ensures Kept(a, limit) == Kept(b, limit)
  {
    KeptIsTail(a, limit);
    KeptIsTail(b, limit);
  }

  class TailBuffer {
    const limit: nat
    var data: seq<byte>
    ghost var writes: seq<seq<byte>>

    ghost predicate Valid()
      reads this
    {
      data == Kept(writes, limit)
    }

    constructor (limit: nat)
      ensures Valid() && this.limit == limit && writes == [] && data == []
    {
      this.limit := limit;
      data := [];
      writes := [];
    }

    method Write(p: seq<byte>) returns (n: nat)
      requires Valid()
      modifies this
      ensures Valid() && n == |p| && writes == old(writes) + [p]
      ensures data == Tail(Concat(writes), limit)
    {
      data := data + p;
      if |data| > limit {
        data := data[|data| - limit..];
      }
      writes := writes + [p];
      assert writes[..|writes| - 1] == old(writes);
      KeptIsTail(writes, limit);
      n := |p|;
    }

    /** All of the last `min(limit, total)` bytes, and nothing else. */
    method String() returns (s: seq<byte>)
      requires Valid()
      ensures s == data == Tail(Concat(writes), limit)
    {
      KeptIsTail(writes, limit);
      s := data;
    }
  }

  class RollingBuffer {
    var data: seq<byte>
    /** The writes since the last reset. */
    ghost var writes: seq<seq<byte>>

    ghost predicate Valid()
      reads this
    {
      data == Kept(writes, ROLLING_LIMIT)
    }

    constructor ()
      ensures Valid() && writes == [] && data == []
    {
      data := [];
      writes := [];
    }

    method Write(p: seq<byte>) returns (n: nat)
      requires Valid()
      modifies this
      ensures Valid() && n == |p| && writes == old(writes) + [p]
      ensures data == Tail(Concat(writes), 65_536)
    {
      data := data + p;
      if |data| > 64 * 1024 {
        data := data[|data| - 64 * 1024..];
      }
      writes := writes + [p];
      assert writes[..|writes| - 1] == old(writes);
      KeptIsTail(writes, ROLLING_LIMIT);
      n := |p|;
    }

    method String() returns (s: seq<byte>)
      requires Valid()
      ensures s == data == Tail(Concat(writes), 65_536)
    {
      KeptIsTail(writes, ROLLING_LIMIT);
      s := data;
    }

    method Reset()
      requires Valid()
      modifies this
      ensures Valid() && writes == [] && data == []
    {
      data := [];
      writes := [];
    }
  }
}
