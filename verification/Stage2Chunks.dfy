/** Splitting the delta candidates into prompt-sized passes (`chunkDeltaCandidates`, packages/core/src/digest/stage2.ts). */
module Stage2Chunks {
  import opened Seqs

  datatype Candidate = Candidate(eventId: string, content: string)

  function Size(chunk: seq<Candidate>): nat {
    if chunk == [] then 0 else Size(chunk[..|chunk| - 1]) + |chunk[|chunk| - 1].content|
  }

  /** Next-fit: a candidate that would overflow the open chunk opens the next one. */
  function Chunks(candidates: seq<Candidate>, budget: int): (r: seq<seq<Candidate>>)
    ensures r == [] <==> candidates == []
  {
    if candidates == [] then []
    else
      var n := |candidates| - 1;
      Place(Chunks(candidates[..n], budget), candidates[n], budget)
  }

  function Place(chunks: seq<seq<Candidate>>, c: Candidate, budget: int): seq<seq<Candidate>> {
    if chunks == [] || Size(chunks[|chunks| - 1]) + |c.content| > budget then chunks + [[c]]
    else chunks[..|chunks| - 1] + [chunks[|chunks| - 1] + [c]]
  }

  function Limit(maxChunks: int): nat {
    if maxChunks < 0 then 0 else maxChunks
  }

  /** Past the ceiling the most recent passes are kept. */
  function ChunkCandidates(candidates: seq<Candidate>, budget: int, maxChunks: int): seq<seq<Candidate>> {
    LastN(Chunks(candidates, budget), Limit(maxChunks))
  }

  function Flatten(chunks: seq<seq<Candidate>>): seq<Candidate> {
    if chunks == [] then [] else Flatten(chunks[..|chunks| - 1]) + chunks[|chunks| - 1]
  }

  // ---------------------------------------------------------------- what a chunk is

  /** A chunk a pass may be given: it fits, or it is one candidate that cannot. */
  predicate Admissible(chunk: seq<Candidate>, budget: int) {
    chunk != [] && (Size(chunk) <= budget || |chunk| == 1)
  }

  predicate AllAdmissible(chunks: seq<seq<Candidate>>, budget: int) {
    forall i :: 0 <= i < |chunks| ==> Admissible(chunks[i], budget)
  }

  lemma SizeMore(chunk: seq<Candidate>, c: Candidate)
    ensures Size(chunk + [c]) == Size(chunk) + |c.content|
  {
    assert (chunk + [c])[..|chunk|] == chunk;
  }

  lemma {:induction false} SizeConcat(a: seq<Candidate>, b: seq<Candidate>)
    ensures Size(a + b) == Size(a) + Size(b)
  {
    if b == [] {
      assert a + b == a;
    } else {
      assert (a + b)[..|a + b| - 1] == a + b[..|b| - 1];
      SizeConcat(a, b[..|b| - 1]);
    }
  }

  lemma {:induction false} FlattenConcat(a: seq<seq<Candidate>>, b: seq<seq<Candidate>>)
    ensures Flatten(a + b) == Flatten(a) + Flatten(b)
  {
    if b == [] {
      assert a + b == a;
    } else {
      assert (a + b)[..|a + b| - 1] == a + b[..|b| - 1];
      FlattenConcat(a, b[..|b| - 1]);
    }
  }

  lemma FlattenOne(chunk: seq<Candidate>)
    ensures Flatten([chunk]) == chunk
  {
    assert [chunk][..0] == [];
  }

  /** Next-fit splits the candidates, in order, into admissible chunks. */
  lemma {:induction false} ChunksSplit(candidates: seq<Candidate>, budget: int)
    ensures Flatten(Chunks(candidates, budget)) == candidates
    ensures AllAdmissible(Chunks(candidates, budget), budget)
  {
    if candidates != [] {
      hide Flatten, Admissible, Place;
      var n := |candidates| - 1;
      ChunksSplit(candidates[..n], budget);
      PlaceSplits(Chunks(candidates[..n], budget), candidates[n], budget);
      assert candidates == candidates[..n] + [candidates[n]];
    }
  }

  lemma FlattenMore(chunks: seq<seq<Candidate>>, chunk: seq<Candidate>)
    ensures Flatten(chunks + [chunk]) == Flatten(chunks) + chunk
  {
    assert (chunks + [chunk])[..|chunks|] == chunks;
  }

  lemma AdmissibleMore(chunks: seq<seq<Candidate>>, chunk: seq<Candidate>, budget: int)
    requires AllAdmissible(chunks, budget) && Admissible(chunk, budget)
    ensures AllAdmissible(chunks + [chunk], budget)
  {
  }

  lemma PlaceSplits(chunks: seq<seq<Candidate>>, c: Candidate, budget: int)
    requires AllAdmissible(chunks, budget)
    ensures Flatten(Place(chunks, c, budget)) == Flatten(chunks) + [c]
    ensures AllAdmissible(Place(chunks, c, budget), budget)
  {
    hide Flatten, Size, AllAdmissible;
    if chunks == [] || Size(chunks[|chunks| - 1]) + |c.content| > budget {
      FlattenMore(chunks, [c]);
      AdmissibleMore(chunks, [c], budget);
    } else {
      var before, last := chunks[..|chunks| - 1], chunks[|chunks| - 1];
      assert chunks == before + [last];
      Extends(before, last, c, budget);
    }
  }

  /** The open chunk takes one more candidate. */
  lemma Extends(before: seq<seq<Candidate>>, last: seq<Candidate>, c: Candidate, budget: int)
    requires AllAdmissible(before + [last], budget) && Size(last) + |c.content| <= budget
    ensures Flatten(before + [last + [c]]) == Flatten(before + [last]) + [c]
    ensures AllAdmissible(before + [last + [c]], budget)
  {
    hide Flatten, Size;
    FlattenMore(before, last);
    FlattenMore(before, last + [c]);
    assert Flatten(before) + (last + [c]) == (Flatten(before) + last) + [c];
    SizeMore(last, c);
    assert forall i :: 0 <= i < |before| ==> (before + [last])[i] == before[i];
  }

  /** What the passes see is a suffix of what came in, in chunks that fit or hold a single candidate. */
  lemma PassesSeeASuffix(candidates: seq<Candidate>, budget: int, maxChunks: int)
    ensures var passes := ChunkCandidates(candidates, budget, maxChunks);
            && |passes| <= Limit(maxChunks)
            && AllAdmissible(passes, budget)
            && |Flatten(passes)| <= |candidates|
            && Flatten(passes) == candidates[|candidates| - |Flatten(passes)|..]
  {
    hide Chunks, Flatten, Admissible;
    var chunks := Chunks(candidates, budget);
    var passes := ChunkCandidates(candidates, budget, maxChunks);
    ChunksSplit(candidates, budget);
    var dropped := chunks[..|chunks| - |passes|];
    assert chunks == dropped + passes;
    FlattenConcat(dropped, passes);
  }

  // ---------------------------------------------------------------- no split needs fewer passes

  lemma ChunksMore(a: seq<Candidate>, c: Candidate, budget: int)
    ensures Chunks(a + [c], budget) == Place(Chunks(a, budget), c, budget)
  {
    assert (a + [c])[..|a|] == a;
  }

  /** Candidates that fit together open at most one chunk more. */
  lemma {:induction false} OneMoreChunk(a: seq<Candidate>, b: seq<Candidate>, budget: int)
    requires Size(b) <= budget || |b| <= 1
    ensures |Chunks(a + b, budget)| <= |Chunks(a, budget)| + 1
    ensures |Chunks(a + b, budget)| == |Chunks(a, budget)| + 1 ==> Size(Chunks(a + b, budget)[|Chunks(a, budget)|]) <= Size(b)
  {
    if b == [] {
      assert a + b == a;
    } else {
      var n := |b| - 1;
      OneMoreChunk(a, b[..n], budget);
      assert b == b[..n] + [b[n]] && a + b == (a + b[..n]) + [b[n]];
      ChunksMore(a + b[..n], b[n], budget);
      SizeMore(b[..n], b[n]);
      if n == 0 { assert a + b[..n] == a; }
      Opens(Chunks(a + b[..n], budget), |Chunks(a, budget)|, Size(b[..n]), b[n], budget);
    }
  }

  /** If the chunk begun since is no larger than what came since, one candidate more keeps it so. */
  lemma Opens(chunks: seq<seq<Candidate>>, k: nat, since: nat, c: Candidate, budget: int)
    requires |chunks| <= k + 1
    requires |chunks| == k + 1 ==> Size(chunks[k]) <= since && since + |c.content| <= budget
    ensures var r := Place(chunks, c, budget);
            |r| <= k + 1 && (|r| == k + 1 ==> Size(r[k]) <= since + |c.content|)
  {
    SizeMore([], c);
    assert [] + [c] == [c];
    if |chunks| > 0 { SizeMore(chunks[|chunks| - 1], c); }
  }

  /** Any split of the candidates into admissible chunks has at least as many as next-fit. */
  lemma {:induction false} NextFitIsFewest(split: seq<seq<Candidate>>, budget: int)
    requires AllAdmissible(split, budget)
    ensures |Chunks(Flatten(split), budget)| <= |split|
  {
    if split != [] {
      var n := |split| - 1;
      NextFitIsFewest(split[..n], budget);
      OneMoreChunk(Flatten(split[..n]), split[n], budget);
    }
  }

  ghost predicate Splittable(candidates: seq<Candidate>, budget: int, maxChunks: int) {
    exists split :: AllAdmissible(split, budget) && Flatten(split) == candidates && |split| <= Limit(maxChunks)
  }

  /** Every candidate reaches a pass exactly when the passes could hold them all, however they were split. */
  lemma NothingDroppedIffSplittable(candidates: seq<Candidate>, budget: int, maxChunks: int)
    ensures Flatten(ChunkCandidates(candidates, budget, maxChunks)) == candidates <==> Splittable(candidates, budget, maxChunks)
  {
    hide Chunks, Flatten, Size;
    var chunks := Chunks(candidates, budget);
    var passes := ChunkCandidates(candidates, budget, maxChunks);
    ChunksSplit(candidates, budget);
    if Splittable(candidates, budget, maxChunks) {
      var split :| AllAdmissible(split, budget) && Flatten(split) == candidates && |split| <= Limit(maxChunks);
      NextFitIsFewest(split, budget);
    }
    if |chunks| > Limit(maxChunks) {
      var dropped := chunks[..|chunks| - |passes|];
      assert chunks == dropped + passes;
      FlattenConcat(dropped, passes);
      FirstChunk(dropped);
    }
  }

  /** Each chunk but the first was opened because its first candidate did not fit the one before. */
  predicate NextFit(chunks: seq<seq<Candidate>>, budget: int) {
    forall i :: 0 < i < |chunks| ==> chunks[i] != [] && Size(chunks[i - 1]) + |chunks[i][0].content| > budget
  }

  lemma PlacedNextFit(chunks: seq<seq<Candidate>>, c: Candidate, budget: int)
    requires NextFit(chunks, budget) && AllAdmissible(chunks, budget)
    ensures NextFit(Place(chunks, c, budget), budget)
  {
    hide Size;
    var r: seq<seq<Candidate>> := Place(chunks, c, budget);
    forall i: int | 0 < i < |r| ensures r[i] != [] && Size(r[i - 1]) + |r[i][0].content| > budget {
      if i < |chunks| {
        assert chunks[i] != [] && r[i][0] == chunks[i][0] && r[i - 1] == chunks[i - 1];
      } else {
        assert r[i] == [c];
      }
    }
  }

  lemma {:induction false} ChunksAreNextFit(candidates: seq<Candidate>, budget: int)
    ensures NextFit(Chunks(candidates, budget), budget)
  {
    if candidates != [] {
      hide Place, NextFit, AllAdmissible;
      ChunksAreNextFit(candidates[..|candidates| - 1], budget);
      ChunksSplit(candidates[..|candidates| - 1], budget);
      PlacedNextFit(Chunks(candidates[..|candidates| - 1], budget), candidates[|candidates| - 1], budget);
    }
  }

  /** What is left out fills whole passes of the same next-fit split, and only once the ceiling is reached. */
  ghost predicate LeftOut(candidates: seq<Candidate>, budget: int, maxChunks: int, dropped: seq<seq<Candidate>>, passes: seq<seq<Candidate>>) {
    && Flatten(dropped + passes) == candidates
    && AllAdmissible(dropped + passes, budget) && NextFit(dropped + passes, budget)
    && (dropped != [] ==> |passes| == if maxChunks < 0 then 0 else maxChunks)
  }

  /** The passes are the last ones of the next-fit split, as many as the ceiling allows. */
  lemma CeilingIsUsed(candidates: seq<Candidate>, budget: int, maxChunks: int)
    ensures exists dropped :: LeftOut(candidates, budget, maxChunks, dropped, ChunkCandidates(candidates, budget, maxChunks))
  {
    hide Chunks, Flatten, AllAdmissible, NextFit;
    var chunks := Chunks(candidates, budget);
    var passes := ChunkCandidates(candidates, budget, maxChunks);
    var dropped := chunks[..|chunks| - |passes|];
    ChunksSplit(candidates, budget);
    ChunksAreNextFit(candidates, budget);
    LastNIsSuffix(chunks, Limit(maxChunks));
    assert chunks == dropped + passes;
    assert LeftOut(candidates, budget, maxChunks, dropped, passes);
  }

  lemma FirstChunk(chunks: seq<seq<Candidate>>)
    requires chunks != [] && chunks[0] != []
    ensures Flatten(chunks) != []
  {
    assert chunks == [chunks[0]] + chunks[1..];
    FlattenConcat([chunks[0]], chunks[1..]);
    FlattenOne(chunks[0]);
  }

  // ---------------------------------------------------------------- a size that always fits

  /** Two neighbouring chunks overflow the budget together. */
  predicate Overflowing(chunks: seq<seq<Candidate>>, budget: int) {
    forall i :: 0 < i < |chunks| ==> Size(chunks[i - 1]) + Size(chunks[i]) > budget
  }

  lemma {:induction false} NeighboursOverflow(candidates: seq<Candidate>, budget: int)
    ensures Overflowing(Chunks(candidates, budget), budget)
  {
    if candidates != [] {
      var n := |candidates| - 1;
      var before := Chunks(candidates[..n], budget);
      NeighboursOverflow(candidates[..n], budget);
      SizeMore([], candidates[n]);
      assert [] + [candidates[n]] == [candidates[n]];
      if before != [] { SizeMore(before[|before| - 1], candidates[n]); }
    }
  }

  /** One budget for every two chunks. */
  function PerPair(chunks: nat, budget: int): int {
    if chunks < 2 then 0 else PerPair(chunks - 2, budget) + budget
  }

  lemma {:induction false} PerPairIsHalf(chunks: nat, budget: int)
    ensures PerPair(chunks, budget) == (chunks / 2) * budget
  {
    if chunks >= 2 {
      PerPairIsHalf(chunks - 2, budget);
      assert chunks / 2 == (chunks - 2) / 2 + 1;
      Distribute((chunks - 2) / 2, budget);
    }
  }

  lemma Distribute(n: nat, budget: int)
    ensures (n + 1) * budget == n * budget + budget
  {
  }

  lemma {:induction false} PerPairGrows(a: nat, b: nat, budget: int)
    requires a <= b && budget >= 0
    ensures 0 <= PerPair(a, budget) <= PerPair(b, budget)
  {
    if b >= 2 {
      PerPairGrows(if a >= 2 then a - 2 else 0, b - 2, budget);
    }
  }

  lemma {:induction false} PairsOverflow(chunks: seq<seq<Candidate>>, budget: int)
    requires Overflowing(chunks, budget) && budget >= 0
    ensures Size(Flatten(chunks)) >= PerPair(|chunks|, budget)
    ensures |chunks| >= 2 ==> Size(Flatten(chunks)) > PerPair(|chunks|, budget)
  {
    if |chunks| >= 2 {
      var n := |chunks| - 2;
      PairsOverflow(chunks[..n], budget);
      SizeConcat(Flatten(chunks[..n]), chunks[n]);
      SizeConcat(Flatten(chunks[..n]) + chunks[n], chunks[n + 1]);
      assert chunks[..n + 1][..n] == chunks[..n];
      assert Flatten(chunks) == Flatten(chunks[..n]) + chunks[n] + chunks[n + 1];
    }
  }

  /** Candidates no larger in all than half the passes' worth of budget are never dropped. */
  lemma SmallCorpusIsWhole(candidates: seq<Candidate>, budget: int, maxChunks: int)
    requires budget >= 0 && maxChunks >= 1
    requires Size(candidates) <= (maxChunks / 2) * budget
    ensures Flatten(ChunkCandidates(candidates, budget, maxChunks)) == candidates
  {
    var chunks := Chunks(candidates, budget);
    ChunksSplit(candidates, budget);
    NeighboursOverflow(candidates, budget);
    PairsOverflow(chunks, budget);
    PerPairIsHalf(maxChunks, budget);
    if |chunks| > maxChunks {
      PerPairGrows(maxChunks, |chunks|, budget);
    }
  }

  // ---------------------------------------------------------------- the loop

  lemma PlaceOnOpen(chunks: seq<seq<Candidate>>, current: seq<Candidate>, c: Candidate, budget: int)
    ensures Place(chunks + [current], c, budget)
         == if Size(current) + |c.content| > budget then chunks + [current] + [[c]] else chunks + [current + [c]]
  {
    assert (chunks + [current])[..|chunks|] == chunks;
  }

  /** `chunkDeltaCandidates`. */
  method ChunkDeltaCandidates(candidates: seq<Candidate>, budget: int, maxChunks: int) returns (passes: seq<seq<Candidate>>)
    ensures passes == ChunkCandidates(candidates, budget, maxChunks)
  {
    hide Size;
    if candidates == [] { return []; }
    var chunks: seq<seq<Candidate>> := [];
    var current: seq<Candidate> := [];
    var size := 0;
    assert Size(current) == 0 by { NoSize(); }
    for k := 0 to |candidates|
      invariant size == Size(current)
      invariant current == [] <==> k == 0
      invariant k == 0 ==> chunks == []
      invariant k > 0 ==> Chunks(candidates[..k], budget) == chunks + [current]
    {
      var candidate := candidates[k];
      var cost := |candidate.content|;
      PrefixStep(candidates, k);
      ChunksMore(candidates[..k], candidate, budget);
      PlaceOnOpen(chunks, current, candidate, budget);
      if |current| > 0 && size + cost > budget {
        chunks := chunks + [current];
        current := [];
        size := 0;
        NoSize();
      }
      SizeMore(current, candidate);
      current := current + [candidate];
      size := size + cost;
      assert [] + [candidate] == [candidate];
    }
    assert candidates[..|candidates|] == candidates;
    chunks := chunks + [current];
    if |chunks| <= maxChunks { return chunks; }
    passes := if maxChunks < 0 then [] else chunks[|chunks| - maxChunks..];
  }

  lemma NoSize()
    ensures Size([]) == 0
  {
  }
}
