/** Capacity, authority and accountability of the facts a digest writes. */
module DigestFactsLaws {
  import opened Options
  import opened Seqs
  import opened FactRegistry
  import opened RegistryLaws
  import opened DigestFacts
  import opened FacetConsolidation
  import opened DigestWork

  // ---------------------------------------------------------------- lines

  function Max(a: nat, b: nat): nat { if a < b then b else a }

  /** What one fact may do to the lines of its facet. */
  predicate LinesAfter(env: Env, s: Ledger, result: FactResult, facet: string, value: string, ev: Option<Evidence>) {
    var before, after := Lines(s, facet), Lines(result.state, facet);
    && |after| <= Max(|before|, env.pack.cap(facet))
    && (env.pack.writeProtected(facet) ==>
          |before| <= |after| && forall i :: 0 <= i < |before| ==> after[i] == before[i] || MayReplace(env.lex, s.registry, facet, before[i], ev))
    && (forall t :: t in before && t !in after ==> Accounted(env.lex, result.drops, facet, t, value))
    && (HasTrimmed(env.lex, after, value) || DroppedIn(result.drops, facet, value))
  }

  /** The incoming evidence ranks at least as high as the entry the line rests on, and no caller's note backs the line. */
  predicate MayReplace(lex: Lexicon, r: seq<Entry>, facet: string, line: string, ev: Option<Evidence>) {
    var a := AuthorityIndex(lex, r, line);
    !IsCallerNoteText(lex, r, facet, line) && (a < |r| ==> Authority(ev) >= r[a].confidence)
  }

  /** A line that went is blank, recorded as evicted, or reworded by the incoming fact. */
  predicate Accounted(lex: Lexicon, drops: seq<Drop>, facet: string, line: string, value: string) {
    line == "" || Drop(LineEvicted, facet, line) in drops || lex.sameFact(line, value)
  }

  predicate HasTrimmed(lex: Lexicon, lines: seq<string>, value: string) {
    exists t :: t in lines && lex.trim(t) == lex.trim(value)
  }

  predicate DroppedIn(drops: seq<Drop>, facet: string, value: string) {
    exists d :: d in drops && d.facet == facet && d.value == value
  }

  lemma LinkedKeepsProfile(lex: Lexicon, s: Ledger, facet: string, line: string, value: string, news: bool, entities: seq<string>, ev: Option<Evidence>, id: Id, now: nat)
    ensures Linked(lex, s, facet, line, value, news, entities, ev, id, now).profile == s.profile
  {
  }

  lemma RestateLines(env: Env, s: Ledger, facet: string, i: nat, value: string, entities: seq<string>, ev: Option<Evidence>, id: Id, now: nat)
    requires i < |Lines(s, facet)| && env.lex.sameFact(Lines(s, facet)[i], value)
    ensures LinesAfter(env, s, Restate(env, s, facet, i, value, entities, ev, id, now), facet, value, ev)
    ensures forall f :: f != facet ==> Lines(Restate(env, s, facet, i, value, entities, ev, id, now).state, f) == Lines(s, f)
  {
    var lines := Lines(s, facet);
    var line := lines[i];
    var result := Restate(env, s, facet, i, value, entities, ev, id, now);
    LinkedKeepsProfile(env.lex, s, facet, line, value, true, entities, ev, id, now);
    LinkedKeepsProfile(env.lex, s, facet, line, value, false, entities, ev, id, now);
    assert Lines(result.state, facet) == lines || Lines(result.state, facet) == lines[i := value];
    forall t | t in lines && t != line ensures t in lines[i := value] {
      var k :| 0 <= k < |lines| && lines[k] == t;
      assert lines[i := value][k] == t;
    }
    assert lines[i := value][i] == value;
    if env.lex.trim(line) == env.lex.trim(value) {
      assert line in Lines(result.state, facet);
    } else if result.drops == [Drop(ProtectedLowerAuthority, facet, value)] {
      assert result.drops[0] in result.drops;
    } else {
      assert value in Lines(result.state, facet);
    }
  }

  /** A list that gained the value at its end and lost at most the line at `i`. */
  lemma AppendedLines(env: Env, s: Ledger, result: FactResult, facet: string, value: string, ev: Option<Evidence>, room: seq<string>)
    requires Lines(result.state, facet) == room + [value]
    requires |room| <= |Lines(s, facet)| && |room| + 1 <= Max(|Lines(s, facet)|, env.pack.cap(facet))
    requires env.pack.writeProtected(facet) ==> room == Lines(s, facet)
    requires forall t :: t in Lines(s, facet) && t !in room ==> Accounted(env.lex, result.drops, facet, t, value)
    ensures LinesAfter(env, s, result, facet, value, ev)
  {
    var after := room + [value];
    assert after[|room|] == value;
    assert forall i :: 0 <= i < |room| ==> after[i] == room[i];
    assert forall t :: t in room ==> t in after;
  }

  lemma RefusedLines(env: Env, s: Ledger, facet: string, value: string, ev: Option<Evidence>, drop: Drop)
    requires drop.facet == facet && drop.value == value
    ensures LinesAfter(env, s, FactResult(s, [drop]), facet, value, ev)
  {
    assert drop in [drop];
  }

  lemma AppendLines(env: Env, s: Ledger, facet: string, value: string, entities: seq<string>, ev: Option<Evidence>, id: Id, now: nat)
    ensures LinesAfter(env, s, Append(env, s, facet, value, entities, ev, id, now), facet, value, ev)
    ensures forall f :: f != facet ==> Lines(Append(env, s, facet, value, entities, ev, id, now).state, f) == Lines(s, f)
  {
    hide LinesAfter, PushFact, DigestLine, RetireTarget, HasTrimmed, DroppedIn;
    var lines := Lines(s, facet);
    var result := Append(env, s, facet, value, entities, ev, id, now);
    var i := DigestLine(env.lex, s.registry, facet, lines);
    if |lines| < env.pack.cap(facet) {
      PushFactKeeps(env.lex, s, facet, value, entities, ev, id, now);
      AppendedLines(env, s, result, facet, value, ev, lines);
    } else if env.pack.writeProtected(facet) || i == |lines| {
      RefusedLines(env, s, facet, value, ev, Drop(CapRejectedIncoming, facet, value));
    } else {
      var room := SetLines(s, facet, RemoveAt(lines, i));
      var retired := RetireFact(env.lex, room, lines[i], CapEvicted, now, facet, false, true);
      PushFactKeeps(env.lex, room, facet, value, entities, ev, id, now);
      PushFactKeeps(env.lex, retired, facet, value, entities, ev, id, now);
      forall t | t in lines && t !in RemoveAt(lines, i) ensures Accounted(env.lex, result.drops, facet, t, value) {
        assert t == lines[i];
        assert t != "" ==> result.drops[0] == Drop(LineEvicted, facet, t);
      }
      AppendedLines(env, s, result, facet, value, ev, RemoveAt(lines, i));
    }
  }

  predicate Admitted(env: Env, fact: ProposedFact) {
    && env.lex.stripIds(env.lex.trim(fact.value)) != ""
    && env.pack.registered(env.lex.trim(fact.facet))
    && FactSized(env.lex, env.lex.stripIds(env.lex.trim(fact.value)))
  }

  /**
   * One proposed fact: its facet stays within capacity, a protected facet never shrinks and gives
   * a line up only to evidence ranking as high, every line that goes is accounted for, the fact is
   * held or its drop is logged, and no other facet changes.
   */
  lemma FactRespectsFacet(env: Env, s: Ledger, fact: ProposedFact, from: Sources, id: Id, now: nat)
    requires Admitted(env, fact)
    ensures var facet := env.lex.trim(fact.facet);
            var result := ApplyFact(env, s, fact, from, id, now);
            && LinesAfter(env, s, result, facet, env.lex.stripIds(env.lex.trim(fact.value)), EvidenceFor(env.pack, facet, from))
            && forall f :: f != facet ==> Lines(result.state, f) == Lines(s, f)
  {
    var facet := env.lex.trim(fact.facet);
    var value := env.lex.stripIds(env.lex.trim(fact.value));
    var ev := EvidenceFor(env.pack, facet, from);
    var result := ApplyFact(env, s, fact, from, id, now);
    if env.pack.documentAuthority(facet) && ev.None? {
      assert result.drops[0] in result.drops;
    } else {
      var ready := WithFacet(s, facet);
      assert Lines(ready, facet) == Lines(s, facet);
      var i := SameLine(env.lex, Lines(ready, facet), value);
      if i < |Lines(ready, facet)| {
        RestateLines(env, ready, facet, i, value, fact.entities, ev, id, now);
      } else {
        AppendLines(env, ready, facet, value, fact.entities, ev, id, now);
      }
    }
  }

  /** Over a whole list of proposed facts, each facet keeps to its capacity and a protected one never shrinks. */
  lemma {:induction false} FactsRespectCapacity(env: Env, s: Ledger, facts: seq<ProposedFact>, from: Sources, ids: seq<Id>, now: nat, f: string)
    requires |facts| == |ids|
    ensures var s' := ApplyFacts(env, s, facts, from, ids, now).state;
            && |Lines(s', f)| <= Max(|Lines(s, f)|, env.pack.cap(f))
            && (env.pack.writeProtected(f) ==> |Lines(s, f)| <= |Lines(s', f)|)
  {
    if facts != [] {
      var n := |facts| - 1;
      FactsRespectCapacity(env, s, facts[..n], from, ids[..n], now, f);
      var before := ApplyFacts(env, s, facts[..n], from, ids[..n], now).state;
      if Admitted(env, facts[n]) {
        FactRespectsFacet(env, before, facts[n], from, ids[n], now);
      } else {
        assert ApplyFact(env, before, facts[n], from, ids[n], now).state == before;
      }
    }
  }

  // ---------------------------------------------------------------- consolidation

  /** The entry behind the m-th source an output names: the first of the facet that states it, unsuperseded and not a caller's note. */
  function Behind(lex: Lexicon, r: seq<Entry>, facet: string, items: seq<string>, from: seq<int>, m: nat): (i: nat)
    requires m < |from|
    ensures i <= |r|
  {
    if 0 <= from[m] < |items| then
      First(r, (e: Entry) =>
        && e.supersededBy.None? && e.kind == Profile && e.facet == Some(facet) && !IsCallerNote(e, r)
        && (lex.trim(e.content) == lex.trim(items[from[m]]) || lex.sameFact(e.content, items[from[m]])))
    else |r|
  }

  /** The output names a source behind which is entry `i`. */
  predicate ClaimsEntry(lex: Lexicon, r: seq<Entry>, facet: string, items: seq<string>, from: seq<int>, i: nat) {
    exists m :: 0 <= m < |from| && Behind(lex, r, facet, items, from, m) == i
  }

  lemma BehindIs(lex: Lexicon, r: seq<Entry>, facet: string, items: seq<string>, from: seq<int>, m: nat)
    requires m < |from| && 0 <= from[m] < |items|
    ensures Behind(lex, r, facet, items, from, m) == FindSource(lex, r, facet, items[from[m]])
  {
    var text := items[from[m]];
    var i := FindSource(lex, r, facet, text);
    forall j | 0 <= j < i
      ensures !(r[j].supersededBy.None? && r[j].kind == Profile && r[j].facet == Some(facet) && !IsCallerNote(r[j], r)
                && (lex.trim(r[j].content) == lex.trim(text) || lex.sameFact(r[j].content, text)))
    {
      assert !StatesSource(lex, r, facet, text, r[j]);
    }
    FirstIs(r, (e: Entry) =>
      && e.supersededBy.None? && e.kind == Profile && e.facet == Some(facet) && !IsCallerNote(e, r)
      && (lex.trim(e.content) == lex.trim(text) || lex.sameFact(e.content, text)), i);
  }

  lemma BehindBefore(lex: Lexicon, r: seq<Entry>, facet: string, items: seq<string>, from: seq<int>, n: nat, m: nat)
    requires m < n <= |from|
    ensures Behind(lex, r, facet, items, from[..n], m) == Behind(lex, r, facet, items, from, m)
  {
  }

  lemma MatchedMore(lex: Lexicon, r: seq<Entry>, facet: string, items: seq<string>, from: seq<int>)
    requires from != []
    ensures var n := |from| - 1;
            var i := Behind(lex, r, facet, items, from, n);
            MatchedSources(lex, r, facet, items, from) == MatchedSources(lex, r, facet, items, from[..n]) + if i < |r| then [r[i]] else []
  {
    hide Behind;
    var n := |from| - 1;
    if 0 <= from[n] < |items| {
      BehindIs(lex, r, facet, items, from, n);
    } else {
      NothingBehind(lex, r, facet, items, from, n);
    }
  }

  lemma NothingBehind(lex: Lexicon, r: seq<Entry>, facet: string, items: seq<string>, from: seq<int>, m: nat)
    requires m < |from| && !(0 <= from[m] < |items|)
    ensures Behind(lex, r, facet, items, from, m) == |r|
  {
  }

  /** The sources counted for an output are exactly the entries it claims. */
  lemma {:induction false} MatchedIffClaimed(lex: Lexicon, r: seq<Entry>, facet: string, items: seq<string>, from: seq<int>, i: nat)
    requires UniqueIds(r) && i < |r|
    ensures r[i] in MatchedSources(lex, r, facet, items, from) <==> ClaimsEntry(lex, r, facet, items, from, i)
  {
    hide Behind, MatchedSources;
    if from == [] {
      assert MatchedSources(lex, r, facet, items, from) == [] by { NoSources(lex, r, facet, items); }
    } else {
      var n := |from| - 1;
      MatchedMore(lex, r, facet, items, from);
      MatchedIffClaimed(lex, r, facet, items, from[..n], i);
      ClaimsMore(lex, r, facet, items, from, i);
      var x := Behind(lex, r, facet, items, from, n);
      if x < |r| { assert r[i] == r[x] <==> i == x; }
    }
  }

  lemma NoSources(lex: Lexicon, r: seq<Entry>, facet: string, items: seq<string>)
    ensures MatchedSources(lex, r, facet, items, []) == []
  {
  }

  lemma ClaimsMore(lex: Lexicon, r: seq<Entry>, facet: string, items: seq<string>, from: seq<int>, i: nat)
    requires from != []
    ensures var n := |from| - 1;
            ClaimsEntry(lex, r, facet, items, from, i) <==>
              (ClaimsEntry(lex, r, facet, items, from[..n], i) || Behind(lex, r, facet, items, from, n) == i)
  {
    hide Behind;
    var n := |from| - 1;
    forall m | 0 <= m < n ensures Behind(lex, r, facet, items, from[..n], m) == Behind(lex, r, facet, items, from, m) {
      BehindBefore(lex, r, facet, items, from, n, m);
    }
  }

  /** The m-th source is the first of those with the earliest date. */
  predicate EarliestSource(lex: Lexicon, r: seq<Entry>, facet: string, items: seq<string>, from: seq<int>, m: nat) {
    && m < |from| && Behind(lex, r, facet, items, from, m) < |r|
    && forall n :: 0 <= n < |from| && Behind(lex, r, facet, items, from, n) < |r| ==>
         var a, b := r[Behind(lex, r, facet, items, from, m)].addedAt, r[Behind(lex, r, facet, items, from, n)].addedAt;
         a <= b && (n < m ==> a < b)
  }

  /** The m-th source has the highest confidence. */
  predicate SurestSource(lex: Lexicon, r: seq<Entry>, facet: string, items: seq<string>, from: seq<int>, m: nat) {
    && m < |from| && Behind(lex, r, facet, items, from, m) < |r|
    && forall n :: 0 <= n < |from| && Behind(lex, r, facet, items, from, n) < |r| ==>
         r[Behind(lex, r, facet, items, from, n)].confidence <= r[Behind(lex, r, facet, items, from, m)].confidence
  }

  /** Sources `m` and `c` are the ones the list's date and confidence come from. */
  predicate SummarisedBy(lex: Lexicon, r: seq<Entry>, facet: string, items: seq<string>, from: seq<int>, found: seq<Entry>, m: nat, c: nat) {
    && found != []
    && EarliestSource(lex, r, facet, items, from, m) && Earliest(found) == r[Behind(lex, r, facet, items, from, m)]
    && SurestSource(lex, r, facet, items, from, c) && HighestConfidence(found) == r[Behind(lex, r, facet, items, from, c)].confidence
  }

  lemma {:induction false} SourcesSummarised(lex: Lexicon, r: seq<Entry>, facet: string, items: seq<string>, from: seq<int>)
    ensures var found := MatchedSources(lex, r, facet, items, from);
            if found == [] then forall n :: 0 <= n < |from| ==> Behind(lex, r, facet, items, from, n) == |r|
            else exists m, c :: SummarisedBy(lex, r, facet, items, from, found, m, c)
  {
    hide Behind, MatchedSources, SummarisedBy;
    if from == [] {
      NoSources(lex, r, facet, items);
    } else {
      var n := |from| - 1;
      var before := MatchedSources(lex, r, facet, items, from[..n]);
      var x := Behind(lex, r, facet, items, from, n);
      MatchedMore(lex, r, facet, items, from);
      SourcesSummarised(lex, r, facet, items, from[..n]);
      forall k | 0 <= k < n ensures Behind(lex, r, facet, items, from[..n], k) == Behind(lex, r, facet, items, from, k) {
        BehindBefore(lex, r, facet, items, from, n, k);
      }
      if before != [] {
        var m, c :| SummarisedBy(lex, r, facet, items, from[..n], before, m, c);
        assert before + [] == before;
        if x < |r| {
          SummarisedMore(lex, r, facet, items, from, before, m, c);
        } else {
          SameSummary(lex, r, facet, items, from, before, m, c);
        }
      } else if x < |r| {
        assert before + [r[x]] == [r[x]];
        AloneSummarised(lex, r, facet, items, from);
      }
    }
  }

  lemma SummarisedMore(lex: Lexicon, r: seq<Entry>, facet: string, items: seq<string>, from: seq<int>, before: seq<Entry>, m: nat, c: nat)
    requires from != [] && Behind(lex, r, facet, items, from, |from| - 1) < |r|
    requires SummarisedBy(lex, r, facet, items, from[..|from| - 1], before, m, c)
    ensures var found := before + [r[Behind(lex, r, facet, items, from, |from| - 1)]];
            exists m', c' :: SummarisedBy(lex, r, facet, items, from, found, m', c')
  {
    hide Behind, Earliest, HighestConfidence, EarliestSource, SurestSource;
    var n := |from| - 1;
    var e := r[Behind(lex, r, facet, items, from, n)];
    SourceBehind(lex, r, facet, items, from[..n], m);
    SourceBehind(lex, r, facet, items, from[..n], c);
    BehindBefore(lex, r, facet, items, from, n, m);
    BehindBefore(lex, r, facet, items, from, n, c);
    SummaryMore(before, e);
    EarliestMore(lex, r, facet, items, from, m);
    SurestMore(lex, r, facet, items, from, c);
    assert SummarisedBy(lex, r, facet, items, from, before + [e],
                        if Earliest(before).addedAt <= e.addedAt then m else n,
                        if HighestConfidence(before) <= e.confidence then n else c);
  }

  lemma SummaryMore(before: seq<Entry>, e: Entry)
    requires before != []
    ensures Earliest(before + [e]) == if Earliest(before).addedAt <= e.addedAt then Earliest(before) else e
    ensures HighestConfidence(before + [e]) == if HighestConfidence(before) <= e.confidence then e.confidence else HighestConfidence(before)
  {
    assert (before + [e])[..|before|] == before;
  }

  lemma AloneSummarised(lex: Lexicon, r: seq<Entry>, facet: string, items: seq<string>, from: seq<int>)
    requires from != [] && Behind(lex, r, facet, items, from, |from| - 1) < |r|
    requires forall n :: 0 <= n < |from| - 1 ==> Behind(lex, r, facet, items, from, n) == |r|
    ensures var n := |from| - 1;
            SummarisedBy(lex, r, facet, items, from, [r[Behind(lex, r, facet, items, from, n)]], n, n)
  {
    hide Behind;
  }

  lemma EarliestMore(lex: Lexicon, r: seq<Entry>, facet: string, items: seq<string>, from: seq<int>, m: nat)
    requires from != [] && EarliestSource(lex, r, facet, items, from[..|from| - 1], m) && Behind(lex, r, facet, items, from, |from| - 1) < |r|
    ensures var n := |from| - 1;
            var a, b := r[Behind(lex, r, facet, items, from, m)].addedAt, r[Behind(lex, r, facet, items, from, n)].addedAt;
            EarliestSource(lex, r, facet, items, from, if a <= b then m else n)
  {
    hide Behind;
    var n := |from| - 1;
    forall k | 0 <= k < n ensures Behind(lex, r, facet, items, from[..n], k) == Behind(lex, r, facet, items, from, k) {
      BehindBefore(lex, r, facet, items, from, n, k);
    }
  }

  lemma SurestMore(lex: Lexicon, r: seq<Entry>, facet: string, items: seq<string>, from: seq<int>, m: nat)
    requires from != [] && SurestSource(lex, r, facet, items, from[..|from| - 1], m) && Behind(lex, r, facet, items, from, |from| - 1) < |r|
    ensures var n := |from| - 1;
            var a, b := r[Behind(lex, r, facet, items, from, m)].confidence, r[Behind(lex, r, facet, items, from, n)].confidence;
            SurestSource(lex, r, facet, items, from, if a <= b then n else m)
  {
    hide Behind;
    var n := |from| - 1;
    forall k | 0 <= k < n ensures Behind(lex, r, facet, items, from[..n], k) == Behind(lex, r, facet, items, from, k) {
      BehindBefore(lex, r, facet, items, from, n, k);
    }
  }

  lemma SameSummary(lex: Lexicon, r: seq<Entry>, facet: string, items: seq<string>, from: seq<int>, found: seq<Entry>, m: nat, c: nat)
    requires from != [] && Behind(lex, r, facet, items, from, |from| - 1) == |r|
    requires SummarisedBy(lex, r, facet, items, from[..|from| - 1], found, m, c)
    ensures SummarisedBy(lex, r, facet, items, from, found, m, c)
  {
    hide Behind, Earliest, HighestConfidence;
    var n := |from| - 1;
    forall k | 0 <= k < n ensures Behind(lex, r, facet, items, from[..n], k) == Behind(lex, r, facet, items, from, k) {
      BehindBefore(lex, r, facet, items, from, n, k);
    }
  }

  // ---------------------------------------------------------------- what consolidation leaves

  /** The entry is linked to the last output that claims it, or dropped because none does. */
  predicate Consolidates(lex: Lexicon, r: seq<Entry>, r': seq<Entry>, facet: string, items: seq<string>, result: seq<Merged>, now: nat, i: nat)
    requires i < |r| <= |r'|
  {
    || (exists k :: 0 <= k < |result| && ClaimsLast(lex, r, facet, items, result, k, i) && r'[i] == r[i].(supersededBy := Some(result[k].id)))
    || (r'[i] == r[i].(retired := Some(Retirement(now, ConsolidationDropped)))
        && forall k :: 0 <= k < |result| ==> !ClaimsEntry(lex, r, facet, items, result[k].mergedFrom, i))
  }

  predicate ClaimsLast(lex: Lexicon, r: seq<Entry>, facet: string, items: seq<string>, result: seq<Merged>, k: nat, i: nat) {
    && k < |result| && ClaimsEntry(lex, r, facet, items, result[k].mergedFrom, i)
    && forall n :: k < n < |result| ==> !ClaimsEntry(lex, r, facet, items, result[n].mergedFrom, i)
  }

  /**
   * The appended entry states the output's text, with the date and the evidence of the first of its
   * earliest sources and the confidence of its surest one; without sources, as of now.
   */
  predicate Summarises(lex: Lexicon, r: seq<Entry>, facet: string, items: seq<string>, out: Merged, now: nat, e: Entry) {
    && e.id == out.id && e.content == out.text && e.kind == Profile && e.facet == Some(facet) && e.entities == []
    && e.origin.None? && e.supersededBy.None? && e.retired.None?
    && if forall n :: 0 <= n < |out.mergedFrom| ==> Behind(lex, r, facet, items, out.mergedFrom, n) == |r| then
         e.confidence == 0.7 && e.addedAt == now && e.evidenceId == "consolidated" && e.evidenceType == EventSource
       else
         && (exists m :: 0 <= m < |out.mergedFrom| && EarliestSource(lex, r, facet, items, out.mergedFrom, m)
               && var x := r[Behind(lex, r, facet, items, out.mergedFrom, m)];
                  e.addedAt == x.addedAt && e.evidenceId == x.evidenceId && e.evidenceType == x.evidenceType)
         && (exists m :: 0 <= m < |out.mergedFrom| && SurestSource(lex, r, facet, items, out.mergedFrom, m)
               && e.confidence == r[Behind(lex, r, facet, items, out.mergedFrom, m)].confidence)
  }

  lemma ClaimsIs(lex: Lexicon, r: seq<Entry>, facet: string, items: seq<string>, out: Merged, i: nat)
    requires UniqueIds(r) && i < |r|
    ensures Claims(lex, r, facet, items, out, r[i].id) <==> ClaimsEntry(lex, r, facet, items, out.mergedFrom, i)
  {
    hide MatchedSources, ClaimsEntry;
    MatchedIffClaimed(lex, r, facet, items, out.mergedFrom, i);
    if e :| e in MatchedSources(lex, r, facet, items, out.mergedFrom) && e.id == r[i].id {
      assert e in r;
      assert e == r[i];
    }
  }

  lemma {:induction false} ReplacementClaims(lex: Lexicon, r: seq<Entry>, facet: string, items: seq<string>, result: seq<Merged>, i: nat)
    requires UniqueIds(r) && i < |r|
    ensures var to := Replacement(lex, r, facet, items, result, r[i].id);
            && (to.Some? ==> exists k :: 0 <= k < |result| && ClaimsLast(lex, r, facet, items, result, k, i) && to == Some(result[k].id))
            && (to.None? ==> forall k :: 0 <= k < |result| ==> !ClaimsEntry(lex, r, facet, items, result[k].mergedFrom, i))
  {
    hide ClaimsEntry, Claims;
    if result != [] {
      var n := |result| - 1;
      ReplacementClaims(lex, r, facet, items, result[..n], i);
      ClaimsIs(lex, r, facet, items, result[n], i);
      if Claims(lex, r, facet, items, result[n], r[i].id) {
        assert ClaimsLast(lex, r, facet, items, result, n, i);
      } else {
        var to := Replacement(lex, r, facet, items, result[..n], r[i].id);
        if to.Some? {
          var k :| 0 <= k < n && ClaimsLast(lex, r, facet, items, result[..n], k, i) && to == Some(result[..n][k].id);
          assert forall j :: k < j < n ==> result[..n][j] == result[j];
          assert ClaimsLast(lex, r, facet, items, result, k, i);
        } else {
          forall k | 0 <= k < |result| ensures !ClaimsEntry(lex, r, facet, items, result[k].mergedFrom, i) {
            if k < n { assert result[..n][k] == result[k]; }
          }
        }
      }
    }
  }

  /** The registry a consolidation leaves. */
  function ConsolidatedRegistry(lex: Lexicon, r: seq<Entry>, facet: string, items: seq<string>, result: seq<Merged>, now: nat): seq<Entry> {
    RelinkAll(lex, r, facet, items, result, now) + NewEntries(lex, r, facet, items, result, now)
  }

  lemma ConsolidatedAt(lex: Lexicon, r: seq<Entry>, facet: string, items: seq<string>, result: seq<Merged>, now: nat)
    ensures var r' := ConsolidatedRegistry(lex, r, facet, items, result, now);
            && |r'| == |r| + |result|
            && (forall i :: 0 <= i < |r| ==> r'[i] == Relink(lex, r, facet, items, result, now, r[i]))
            && (forall k :: 0 <= k < |result| ==>
                  r'[|r| + k] == ConsolidatedEntry(facet, result[k], MatchedSources(lex, r, facet, items, result[k].mergedFrom), now))
  {
    hide RelinkAll, NewEntries, Relink, ConsolidatedEntry, MatchedSources;
  }

  lemma LineageKept(lex: Lexicon, r: seq<Entry>, facet: string, items: seq<string>, result: seq<Merged>, now: nat, i: nat)
    requires UniqueIds(r) && i < |r| && Replaceable(r, facet, r[i])
    ensures var r' := ConsolidatedRegistry(lex, r, facet, items, result, now);
            |r| <= |r'| && Consolidates(lex, r, r', facet, items, result, now, i)
  {
    hide ConsolidatedRegistry, ClaimsEntry, ClaimsLast, Replacement, MatchedSources;
    ConsolidatedAt(lex, r, facet, items, result, now);
    ReplacementClaims(lex, r, facet, items, result, i);
  }

  lemma EntrySummarises(lex: Lexicon, r: seq<Entry>, facet: string, items: seq<string>, out: Merged, now: nat)
    ensures Summarises(lex, r, facet, items, out, now, ConsolidatedEntry(facet, out, MatchedSources(lex, r, facet, items, out.mergedFrom), now))
  {
    hide Behind, MatchedSources, Earliest, HighestConfidence, EarliestSource, SurestSource;
    var found := MatchedSources(lex, r, facet, items, out.mergedFrom);
    SourcesSummarised(lex, r, facet, items, out.mergedFrom);
    if found != [] {
      var m, c :| SummarisedBy(lex, r, facet, items, out.mergedFrom, found, m, c);
      SourceBehind(lex, r, facet, items, out.mergedFrom, m);
      SourceBehind(lex, r, facet, items, out.mergedFrom, c);
    }
  }

  lemma SourceBehind(lex: Lexicon, r: seq<Entry>, facet: string, items: seq<string>, from: seq<int>, m: nat)
    requires EarliestSource(lex, r, facet, items, from, m) || SurestSource(lex, r, facet, items, from, m)
    ensures m < |from| && Behind(lex, r, facet, items, from, m) < |r|
  {
    hide Behind;
  }

  /** An active fact of the facet that no caller wrote. */
  predicate Replaceable(r: seq<Entry>, facet: string, e: Entry) {
    e.supersededBy.None? && e.retired.None? && e.kind == Profile && e.facet == Some(facet) && !IsCallerNote(e, r)
  }

  /** Some index named is that of an item. */
  predicate InRange(items: seq<string>, from: seq<int>) {
    exists m :: 0 <= m < |from| && 0 <= from[m] < |items|
  }

  /** Consolidation is all or nothing, and keeps the lineage of everything it replaces. */
  lemma ConsolidationKeepsLineage(lex: Lexicon, s: Ledger, facet: string, items: seq<string>, result: seq<Merged>, now: nat)
    requires UniqueIds(s.registry)
    ensures var out := ApplyConsolidation(lex, s, facet, items, result, now);
            var r, r' := s.registry, out.state.registry;
            && (out.applied <==> result != [] && forall k :: 0 <= k < |result| ==> InRange(items, result[k].mergedFrom))
            && (!out.applied ==> out.state == s)
            && (out.applied ==>
                  && |r'| == |r| + |result|
                  && (forall i :: 0 <= i < |r| && Replaceable(r, facet, r[i]) ==> Consolidates(lex, r, r', facet, items, result, now, i))
                  && (forall i :: 0 <= i < |r| && !Replaceable(r, facet, r[i]) ==> r'[i] == r[i])
                  && (forall k :: 0 <= k < |result| ==> Summarises(lex, r, facet, items, result[k], now, r'[|r| + k]))
                  && (forall f :: f != facet ==> Lines(out.state, f) == Lines(s, f)))
  {
    hide Consolidates, Summarises, MatchedSources, ConsolidatedEntry, RelinkAll, NewEntries, Replacement, Interleave, Texts;
    var r := s.registry;
    var r' := ConsolidatedRegistry(lex, r, facet, items, result, now);
    ConsolidatedAt(lex, r, facet, items, result, now);
    forall k | 0 <= k < |result| ensures Summarises(lex, r, facet, items, result[k], now, r'[|r| + k]) {
      EntrySummarises(lex, r, facet, items, result[k], now);
    }
    forall i | 0 <= i < |r| && Replaceable(r, facet, r[i]) ensures Consolidates(lex, r, r', facet, items, result, now, i) {
      LineageKept(lex, r, facet, items, result, now, i);
    }
  }

  lemma NoCallerLines(lex: Lexicon, r: seq<Entry>, facet: string, lines: seq<string>)
    requires !HasCallerNotes(r, facet)
    ensures CallerLines(lex, r, facet, lines) == []
  {
    forall i, t | 0 <= i < |r| ensures !BackedByCaller(lex, r, facet, t, i) {
      assert r[i] in r;
    }
    FilterNone(lines, t => IsCallerNoteText(lex, r, facet, t));
  }

  /**
   * The facet's lines are then its caller lines in order, with the proposed texts where its first
   * other line was, or at the end.
   */
  lemma ConsolidatedLines(lex: Lexicon, s: Ledger, facet: string, items: seq<string>, result: seq<Merged>, now: nat, i: nat)
    requires Acceptable(items, result)
    requires i <= |Lines(s, facet)| && forall n :: 0 <= n < i ==> IsCallerNoteText(lex, s.registry, facet, Lines(s, facet)[n])
    requires i < |Lines(s, facet)| ==> !IsCallerNoteText(lex, s.registry, facet, Lines(s, facet)[i])
    ensures var lines, lines' := Lines(s, facet), Lines(ApplyConsolidation(lex, s, facet, items, result, now).state, facet);
            && lines' == lines[..i] + Texts(result) + CallerLines(lex, s.registry, facet, lines[i..])
            && lines[..i] + CallerLines(lex, s.registry, facet, lines[i..]) == CallerLines(lex, s.registry, facet, lines)
  {
    var r, lines := s.registry, Lines(s, facet);
    var p := t => IsCallerNoteText(lex, r, facet, t);
    assert lines == lines[..i] + lines[i..];
    FilterConcat(lines[..i], lines[i..], p);
    FilterAll(lines[..i], p);
    if !HasCallerNotes(r, facet) {
      NoCallerLines(lex, r, facet, lines);
      NoCallerLines(lex, r, facet, lines[i..]);
      assert Texts(result) == [] + Texts(result) + [];
    } else {
      FirstIs(lines, t => !IsCallerNoteText(lex, r, facet, t), i);
    }
  }
}
