/** graphResolvedNodeChunks: chunks are moved onto canonical keys, and only the first chunk
    of each (canonical key, embedding record) pair is kept. */
module ChunkRewrite {
  import opened Text
  import opened Sorting
  import opened NodeMerge

  type Uuid = s: string | |s| == 36 witness "00000000-0000-0000-0000-000000000000"

  datatype Chunk = Chunk(entityKey: string, recordId: Uuid, chunkIndex: int, sourceText: string)

  function Moved(m: map<string, string>, chunk: Chunk): Chunk {
    chunk.(entityKey := CanonicalKey(m, chunk.entityKey))
  }

  function ChunkKey(chunk: Chunk): string {
    chunk.entityKey + [NUL] + chunk.recordId
  }

  /** The fixed length of a record id makes the joined key unambiguous for every entity key. */
  lemma ChunkKeyInjective(a: Chunk, b: Chunk)
    ensures ChunkKey(a) == ChunkKey(b) <==> a.entityKey == b.entityKey && a.recordId == b.recordId
  {
    if ChunkKey(a) == ChunkKey(b) {
      var s := ChunkKey(a);
      assert |a.entityKey| == |s| - 37 == |b.entityKey|;
      assert a.entityKey == s[..|s| - 37] && a.recordId == s[|s| - 36..];
      assert b.entityKey == ChunkKey(b)[..|s| - 37] && b.recordId == ChunkKey(b)[|s| - 36..];
    }
  }

  predicate Usable(m: map<string, string>, chunk: Chunk) {
    CanonicalKey(m, chunk.entityKey) != ""
  }

  function KeysOf(chunks: seq<Chunk>): set<string> {
    set c | c in chunks :: ChunkKey(c)
  }

  /** One more chunk, already moved. */
  function Keep(kept: seq<Chunk>, chunk: Chunk): seq<Chunk> {
    if chunk.entityKey == "" || ChunkKey(chunk) in KeysOf(kept) then kept else kept + [chunk]
  }

  /** The kept chunks in input order. */
  function Deduped(chunks: seq<Chunk>, m: map<string, string>): seq<Chunk> {
    if chunks == [] then []
    else Keep(Deduped(chunks[..|chunks| - 1], m), Moved(m, chunks[|chunks| - 1]))
  }

  lemma DedupedSnoc(chunks: seq<Chunk>, i: nat, m: map<string, string>)
    requires i < |chunks|
    ensures Deduped(chunks[..i + 1], m) == Keep(Deduped(chunks[..i], m), Moved(m, chunks[i]))
  {
    assert chunks[..i + 1][..i] == chunks[..i];
  }

  predicate ChunkLess(a: Chunk, b: Chunk) {
    if a.entityKey == b.entityKey then a.chunkIndex < b.chunkIndex else Less(a.entityKey, b.entityKey)
  }

  lemma ChunkLessWeakOrder()
    ensures WeakOrder(ChunkLess)
  {
    forall a, b | ChunkLess(a, b)
      ensures !ChunkLess(b, a)
    {
      LessTotal(a.entityKey, b.entityKey);
    }
    forall a, b, c | ChunkLess(a, c)
      ensures ChunkLess(a, b) || ChunkLess(b, c)
    {
      LessTotal(a.entityKey, b.entityKey);
      LessTotal(b.entityKey, c.entityKey);
      if a.entityKey != c.entityKey && Less(b.entityKey, a.entityKey) {
        LessTrans(b.entityKey, a.entityKey, c.entityKey);
      }
    }
  }

  method ResolvedNodeChunks(chunks: seq<Chunk>, canonicalByKey: map<string, string>) returns (resolved: seq<Chunk>)
    ensures multiset(resolved) == multiset(Deduped(chunks, canonicalByKey)) && Sorted(ChunkLess, resolved)
  {
    var seen: set<string> := {};
    resolved := [];
    for i := 0 to |chunks|
      invariant resolved == Deduped(chunks[..i], canonicalByKey)
      invariant seen == KeysOf(resolved)
    {
      DedupedSnoc(chunks, i, canonicalByKey);
      var canonicalKey := CanonicalKey(canonicalByKey, chunks[i].entityKey);
      if canonicalKey == "" {
        continue;
      }
      var chunk := chunks[i].(entityKey := canonicalKey);
      var key := canonicalKey + [NUL] + chunk.recordId;
      if key in seen {
        continue;
      }
      assert KeysOf(resolved + [chunk]) == KeysOf(resolved) + {key};
      seen := seen + {key};
      resolved := resolved + [chunk];
    }
    assert chunks[..|chunks|] == chunks;
    ChunkLessWeakOrder();
    resolved := Sort(resolved, ChunkLess);
  }

  // ---- meaning ----

  ghost predicate SamePlace(a: Chunk, b: Chunk) {
    a.entityKey == b.entityKey && a.recordId == b.recordId
  }

  /** Chunk i is the first input chunk of its (canonical key, record) pair. */
  ghost predicate First(chunks: seq<Chunk>, m: map<string, string>, i: nat) {
    && i < |chunks| && Usable(m, chunks[i])
    && forall j: nat :: j < i ==> !SamePlace(Moved(m, chunks[j]), Moved(m, chunks[i]))
  }

  /** Every usable chunk has its pair in the output. */
  lemma {:induction false} PairKept(chunks: seq<Chunk>, m: map<string, string>, i: nat) returns (c: Chunk)
    requires i < |chunks| && Usable(m, chunks[i])
    ensures c in Deduped(chunks, m) && SamePlace(c, Moved(m, chunks[i]))
  {
    var init, last := chunks[..|chunks| - 1], |chunks| - 1;
    if i < last {
      c := PairKept(init, m, i);
    } else {
      c := Moved(m, chunks[last]);
      if c !in Deduped(chunks, m) {
        var d :| d in Deduped(init, m) && ChunkKey(d) == ChunkKey(c);
        ChunkKeyInjective(d, c);
        c := d;
      }
    }
  }

  /** Every output chunk is the first input chunk of its pair. */
  lemma {:induction false} OutputIsFirst(chunks: seq<Chunk>, m: map<string, string>, c: Chunk) returns (i: nat)
    requires c in Deduped(chunks, m)
    ensures First(chunks, m, i) && c == Moved(m, chunks[i])
  {
    var init, last := chunks[..|chunks| - 1], |chunks| - 1;
    if c in Deduped(init, m) {
      i := OutputIsFirst(init, m, c);
    } else {
      i := last;
      forall j: nat | j < last
        ensures !SamePlace(Moved(m, chunks[j]), c)
      {
        if SamePlace(Moved(m, chunks[j]), c) {
          var d := PairKept(init, m, j);
          ChunkKeyInjective(d, c);
        }
      }
    }
  }

  /** Every first chunk of a pair is in the output. */
  lemma {:induction false} FirstIsOutput(chunks: seq<Chunk>, m: map<string, string>, i: nat)
    requires First(chunks, m, i)
    ensures Moved(m, chunks[i]) in Deduped(chunks, m)
  {
    var init, last := chunks[..|chunks| - 1], |chunks| - 1;
    if i < last {
      FirstIsOutput(init, m, i);
    } else {
      var c := Moved(m, chunks[last]);
      if c !in Deduped(chunks, m) {
        var d :| d in Deduped(init, m) && ChunkKey(d) == ChunkKey(c);
        ChunkKeyInjective(d, c);
        var j := OutputIsFirst(init, m, d);
        assert SamePlace(Moved(m, chunks[j]), c);
      }
    }
  }

  /** No pair appears twice. */
  lemma {:induction false} PairsDistinct(chunks: seq<Chunk>, m: map<string, string>, a: nat, b: nat)
    requires a < b < |Deduped(chunks, m)|
    ensures !SamePlace(Deduped(chunks, m)[a], Deduped(chunks, m)[b])
  {
    var prev := Deduped(chunks[..|chunks| - 1], m);
    if b < |prev| {
      PairsDistinct(chunks[..|chunks| - 1], m, a, b);
    } else {
      ChunkKeyInjective(Deduped(chunks, m)[a], Deduped(chunks, m)[b]);
      assert prev[a] in prev;
    }
  }

  /** The output is the duplicate-free image of the input by (canonical key, record id). */
  lemma ChunksAreImage(chunks: seq<Chunk>, m: map<string, string>, out: seq<Chunk>, c: Chunk)
    requires multiset(out) == multiset(Deduped(chunks, m))
    ensures c in out <==> exists i: nat :: First(chunks, m, i) && c == Moved(m, chunks[i])
    ensures multiset(out)[c] <= 1
  {
    var kept := Deduped(chunks, m);
    PermutationSameElements(out, kept);
    if c in kept {
      var i := OutputIsFirst(chunks, m, c);
    }
    if i: nat :| First(chunks, m, i) && c == Moved(m, chunks[i]) {
      FirstIsOutput(chunks, m, i);
    }
    forall a, b | 0 <= a < b < |kept|
      ensures kept[a] != kept[b]
    {
      PairsDistinct(chunks, m, a, b);
    }
    NoRepeats(kept, c);
  }
}
